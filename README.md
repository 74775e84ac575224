# Rerouting traffic rule — a verified Dafny model

This project models the Rerouting traffic rule of a motion planner. Once per
planning cycle the rule decides whether the route-planning service must be
asked for a new route. It has three operations:

- `ChangeLaneFailRerouting` is an ordered cascade of guards that decides
  whether the active reference line is about to become undrivable:
  - the guards check near-destination, forward-only action, vehicle not on
    the segment, passage can exit, no passage end, projection of the passage
    end, passage end off the lane, lead time, missing status and cooldown;
  - the first guard that settles the cycle wins;
  - when none does, the rule submits a rerouting request through the frame
    and, if the request is accepted, records the time.
- `LaneBorrowFailRerouting` is a proximity one-shot. Near a fixed target
  point it fills the shared rerouting status with a fixed lane-follow
  request, sets `need_rerouting` and sets the rule's latch `is_rerouting_`.
  Nothing ever clears the latch.
- `ApplyRule` runs the two in sequence. A `false` from either one becomes a
  planning error.

Layout:

- `rerouting_spec.dfy` (module `ReroutingSpec`): the inputs of a cycle as
  values. The cascade is the function `Cascade`, which returns
  Suppress(guard), Fail(reason) or Dispatch. `ChangeLaneFailOutcome`,
  `LaneBorrowFailOutcome` and `ApplyRuleOutcome` give the return value of
  each operation and the state it leaves behind.
- `rerouting_rule.dfy` (module `ReroutingRule`): the rule as the planner
  runs it.
  - A class `Rerouting` holds the configuration, the handle on the shared
    status, the latch and the `frame_`/`reference_line_info_` fields.
  - A class `ReroutingStatus` is updated in place.
  - Each method is proved to return, and leave behind, exactly what the
    matching spec function says.
- `rerouting_properties.dfy` (module `ReroutingProperties`): properties of
  one cycle. These cover guard precedence, the lead-time boundary, the
  status checks, the dispatch outcome, the one-shot and the sequencing.
- `rerouting_runs.dfy` (module `ReroutingRuns`): properties of runs over
  many cycles, plus worked scenarios. A run chains cycles on the rerouting
  status exactly as the rule left it, so these hold when nothing else writes
  that status between cycles. Over such a run:
  - recorded dispatches are at least the cooldown apart;
  - the recorded time never decreases;
  - the latch is permanent and the one-shot fires at most once.

Inputs from collaborators are plain values:

- Segment queries: `NextAction`, `IsOnSegment`, `CanExit`, and whether the
  route-end waypoint has a lane.
- Projection: `XYToSL` is an `Option<SLPoint>`; `IsOnLane` is a `bool`.
- The vehicle's boundary end `s`, its position and its speed.
- The near-destination scan: each candidate line's `ReachedDestination` and
  `SDistanceToDestination` (`CorridorProgress` inside `Frame`).
- The clock reading `now`.
- Whether `Frame::Rerouting` accepts the request.

The configuration is `Config(prepareReroutingTime, cooldownTime)`.
Distances and times are exact `real`s.

Three details of the code shape what a cycle can do:

- `LaneBorrowFailRerouting` returns `false` when the rerouting status is
  missing (rerouting.cc:128-131), so it can fail.
- `ApplyRule` skips `LaneBorrowFailRerouting` when `ChangeLaneFailRerouting`
  returns `false` (rerouting.cc:162-165).
- Nothing resets `is_rerouting_`.

One consequence is proved (`MissingStatusAlwaysErrors`): without a rerouting
status, every cycle ends in a planning error.

The test "distance to the target > 2" is written as "squared distance > 4".
Both sides are non-negative, so over exact reals the two are the same.

## Model

| member | source | states |
|---|---|---|
| `ReroutingSpec.Cascade` | traffic_rules/rerouting/rerouting.cc:46-112 | the guard cascade's decision; a dispatch is only ever decided when the rerouting status exists |
| `ReroutingRule.Rerouting.constructor` | traffic_rules/rerouting/rerouting.cc:37-44 | a rule holds its loaded configuration and status handle, with the latch clear and no frame yet |
| `ReroutingRule.Rerouting.ChangeLaneFailRerouting` | traffic_rules/rerouting/rerouting.cc:46-121 | the scan over every candidate line and the guard cascade return exactly the cascade's verdict (true on suppression or accepted dispatch) and write only the timestamp, to `now`, only on an accepted dispatch |
| `ReroutingRule.Rerouting.LaneBorrowFailRerouting` | traffic_rules/rerouting/rerouting.cc:124-155 | fails without a status; otherwise succeeds, and fills in the fixed request and sets the latch exactly when the vehicle is within 2 of the target and the latch was clear |
| `ReroutingRule.Rerouting.ApplyRule` | traffic_rules/rerouting/rerouting.cc:158-175 | records the frame and reference line, then returns and leaves exactly what one cycle of the two operations in sequence gives |
| `ReroutingProperties.SuppressionChangesNothing` | traffic_rules/rerouting/rerouting.cc:46-112 | every suppressing guard returns true with no request and an unchanged status |
| `ReroutingProperties.NearDestinationShortCircuit` | traffic_rules/rerouting/rerouting.cc:47-53 | any candidate line that has reached its destination or is within 20 of it settles the cycle as a success with no request and no status change, whatever the other inputs |
| `ReroutingProperties.EarlyGuardsSuppressInOrder` | traffic_rules/rerouting/rerouting.cc:54-75 | forward action, then not on segment, then can exit, then no route-end lane each settle the cycle as a suppression, whatever the later inputs |
| `ReroutingProperties.ProjectionOutcome` | traffic_rules/rerouting/rerouting.cc:76-85 | a failed projection is a failure (false, no request, no write); a projected point off the lane is a suppression (true, no request, no write) |
| `ReroutingProperties.LeadTimeBoundary` | traffic_rules/rerouting/rerouting.cc:86-97 | for a projected passage end on the lane, the lead-time guard suppresses iff `s > adcEndS + speed * prepareReroutingTime`; otherwise only a missing status, the cooldown or a dispatch remain |
| `ReroutingProperties.LeadTimeDecidesRequest` | traffic_rules/rerouting/rerouting.cc:86-113 | for a projected passage end on the lane, with a status present and no cooldown running, the dispatcher is called iff the lead-time boundary is reached |
| `ReroutingProperties.StatusChecks` | traffic_rules/rerouting/rerouting.cc:98-112 | past the geometric guards (passage end projected onto the lane, within the lead distance) a missing status fails and a running cooldown suppresses, neither calling the dispatcher nor writing the timestamp |
| `ReroutingProperties.DispatchExactlyWhenAllGuardsPass` | traffic_rules/rerouting/rerouting.cc:46-113 | the dispatcher is reached iff no line is near its destination, the action is not forward, the vehicle is on the segment, the passage cannot exit, its end has a lane and projects onto the lane within the lead distance, the status exists and no cooldown is running |
| `ReroutingProperties.DispatchOutcome` | traffic_rules/rerouting/rerouting.cc:113-120 | a rejected request fails and records nothing; an accepted one succeeds and sets the last rerouting time to `now`, and the rule's own code writes nothing else; writes made by `Frame::Rerouting` are not modelled |
| `ReroutingProperties.TimestampOnlyWrittenByDispatch` | traffic_rules/rerouting/rerouting.cc:46-121 | the rule's own code in the cascade never touches `need_rerouting` or the lane-follow command, and writes the timestamp iff an accepted dispatch happens, to `now`; writes made by `Frame::Rerouting` are not modelled |
| `ReroutingProperties.NoRecordWithinCooldown` | traffic_rules/rerouting/rerouting.cc:106-119 | a dispatch is recorded only when at least `cooldownTime` has passed since the previous record |
| `ReroutingProperties.LaneBorrowCases` | traffic_rules/rerouting/rerouting.cc:124-155 | success iff a status exists; far from the target or when latched nothing changes; otherwise exactly one way point, the fixed end pose, `need_rerouting` set, latch set, timestamp kept |
| `ReroutingProperties.LaneBorrowIdempotent` | traffic_rules/rerouting/rerouting.cc:137-153 | repeating the one-shot at the same position changes nothing; after it fired, no run from any position changes anything |
| `ReroutingProperties.LaneBorrowKeepsLatch` | traffic_rules/rerouting/rerouting.cc:137-153 | the latch is never cleared and the one-shot fires only while it is clear |
| `ReroutingProperties.ApplyRuleSequencing` | traffic_rules/rerouting/rerouting.cc:158-175 | a failing cascade is a planning error, the one-shot is skipped and latch and payload are untouched; otherwise the result is OK iff the one-shot succeeds |
| `ReroutingProperties.MissingStatusAlwaysErrors` | traffic_rules/rerouting/rerouting.cc:99-171 | without a rerouting status every cycle is a planning error, with no request and no state change |
| `ReroutingProperties.PresentStatusErrorsOnlyFromCascade` | traffic_rules/rerouting/rerouting.cc:158-175 | with a status present, a cycle is OK iff the cascade succeeded |
| `ReroutingRuns.CycleLastTime` | traffic_rules/rerouting/rerouting.cc:106-119 | over a whole cycle the recorded time becomes `now` iff a dispatch is recorded, which happens only after the cooldown has elapsed |
| `ReroutingRuns.RecordedTimesRespectCooldown` | traffic_rules/rerouting/rerouting.cc:106-119 | over any run in which nothing else writes the rerouting status between cycles, consecutive recorded dispatches, and the first one after an earlier record, are at least `cooldownTime` apart |
| `ReroutingRuns.RecordedTimesPairwiseSpaced` | traffic_rules/rerouting/rerouting.cc:106-119 | with a non-negative cooldown and nothing else writing the rerouting status between cycles, any two recorded dispatches of a run are at least `cooldownTime` apart |
| `ReroutingRuns.RunLastTime` | traffic_rules/rerouting/rerouting.cc:119 | when nothing else writes the rerouting status between cycles, after a run the last rerouting time is the time of the last recorded dispatch, or the initial one if there was none |
| `ReroutingRuns.LastTimeNeverDecreases` | traffic_rules/rerouting/rerouting.cc:106-119 | with a non-negative cooldown and nothing else writing the rerouting status between cycles, a set last rerouting time never moves backwards, even if the clock does |
| `ReroutingRuns.LatchIsPermanent` | traffic_rules/rerouting/rerouting.cc:137-153 | from a latched state no run clears the latch or fires the one-shot, and the rule's own code never changes `need_rerouting` or the lane-follow command; writes made by `Frame::Rerouting` are not modelled |
| `ReroutingRuns.FiresAtMostOnce` | traffic_rules/rerouting/rerouting.cc:137-153 | in any run the one-shot fires at most once, and never from a latched state |
| `ReroutingRuns.ScenarioForwardCorridor` | traffic_rules/rerouting/rerouting.cc:56-59 | a forward-only corridor gives OK with no request and no state change |
| `ReroutingRuns.ScenarioPassageEndOffLane` | traffic_rules/rerouting/rerouting.cc:83-85 | a passage end projected off the lane settles the cycle as OK with no request, even when it is only 15 ahead |
| `ReroutingRuns.ScenarioEnoughRunway` | traffic_rules/rerouting/rerouting.cc:88-97 | at speed 10 with a 2 s lead time, a passage end on the lane 25 ahead is held back by the lead-time guard |
| `ReroutingRuns.ScenarioDispatchThenCooldown` | traffic_rules/rerouting/rerouting.cc:106-120 | a passage end on the lane 15 ahead is dispatched and recorded at t=100; the same inputs at t=101 with a 30 s cooldown record nothing, and the last time stays 100 |

## Left out

- `Init` / `LoadConfig` (configuration loading through the framework) is foreign I/O. The constructor takes the already-loaded `Config`, so a failed load is not modelled.
- Lane and reference-line geometry is not modelled: `GetSmoothPoint`, `XYToSL`, `IsOnLane` and `AdcSlBoundary` are library code outside this model. Their answers are inputs, and the model does not relate `routeEndOnLane` to the projected point.
- `Vec2d::DistanceTo` is floating-point square-root geometry. The comparison is made exactly on squared distances over reals.
- Floating-point semantics (rounding, NaN, infinities) are not modelled. `speed * prepare_rerouting_time` and `now - last_rerouting_time` are exact real arithmetic.
- `Clock::NowInSeconds` and the vehicle-state provider are external. The clock reading and the speed are parameters.
- `Frame::Rerouting` is not part of this model. Only whether it succeeds is an input. The request it builds, and any fields it writes into the shared planning status, are outside this model.
- Logging (`AERROR`, `ADEBUG`, `AINFO`, `DebugString`) has no modelled behaviour.
- Protobuf mechanics are not modelled. The rerouting status is a class with three fields, and way points and end pose are planar points (x, y).
  - Other fields of the end pose, which `mutable_end_pose` would keep, are not represented.
  - Other fields of the rerouting status are not represented.
- `injector_` and `PlanningContext` plumbing is not modelled. The rule holds its status handle as a nullable reference fixed at construction. Absence is only checked inside the two operations, as the code does.
- The header that declares `is_rerouting_` is not part of this model. The latch is taken to start cleared.
- TimestampOnlyWrittenByDispatch: speaks only of the rule's own writes. `Frame::Rerouting` receives the whole planning context (rerouting.cc:113) and may write `need_rerouting` or the lane-follow command itself; its effect is not part of this model.
- LatchIsPermanent: the frozen `need_rerouting` and lane-follow command hold for the rule's own code only; writes that `Frame::Rerouting` may make during a dispatch are not part of this model.
- RecordedTimesRespectCooldown: `Run` chains cycles on the rerouting status exactly as the rule left it. The status lives in the shared planning context (rerouting.cc:99-101, 125-127), and writes by other components between cycles are not modelled.
- RecordedTimesPairwiseSpaced: `Run` chains cycles on the rerouting status exactly as the rule left it. The status lives in the shared planning context (rerouting.cc:99-101, 125-127), and writes by other components between cycles are not modelled.
- RunLastTime: `Run` chains cycles on the rerouting status exactly as the rule left it. The status lives in the shared planning context (rerouting.cc:99-101, 125-127), and writes by other components between cycles are not modelled.
- LastTimeNeverDecreases: `Run` chains cycles on the rerouting status exactly as the rule left it. The status lives in the shared planning context (rerouting.cc:99-101, 125-127), and writes by other components between cycles are not modelled.
