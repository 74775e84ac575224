/**
 * Value-level specification of the Rerouting traffic rule.
 *
 * One planning cycle of the rule sees a frame (its candidate reference lines
 * and the rerouting dispatcher), the reference line the rule is applied to,
 * the vehicle speed, the clock, and the shared rerouting status. Every
 * collaborator query the rule makes (segment queries, projection onto the
 * reference line, lane membership, vehicle state, clock, dispatcher) appears
 * here as the value it answered. The guard cascade of ChangeLaneFailRerouting
 * is the decision `Cascade`; the three operations of the rule are the
 * functions `ChangeLaneFailOutcome`, `LaneBorrowFailOutcome` and
 * `ApplyRuleOutcome`, which say what each returns and what it leaves in the
 * shared status and in the rule's one-shot latch.
 */
module ReroutingSpec {

  datatype Option<T> = None | Some(value: T)

  /** The lane-change action a passage needs to stay on route. */
  datatype ChangeLaneType = Forward | Left | Right

  /** A planar point in the map frame. */
  datatype Point = Point(x: real, y: real)

  /** A point in a reference line's frame: longitudinal `s`, lateral `l`. */
  datatype SLPoint = SLPoint(s: real, l: real)

  /** What the near-destination scan asks of each reference line of the frame. */
  datatype CorridorProgress = CorridorProgress(reachedDestination: bool, sDistanceToDestination: real)

  /**
   * The frame: its candidate reference lines, in order, and whether the
   * rerouting request it submits on the rule's behalf is accepted this cycle.
   */
  datatype Frame = Frame(referenceLineInfos: seq<CorridorProgress>, reroutingAccepted: bool)

  /** The reference line the rule is applied to, as the answers to the rule's queries. */
  datatype ReferenceLineInfo = ReferenceLineInfo(
    nextAction: ChangeLaneType,   // Lanes().NextAction()
    isOnSegment: bool,            // Lanes().IsOnSegment()
    canExit: bool,                // Lanes().CanExit()
    routeEndHasLane: bool,        // the route-end waypoint carries a lane
    routeEndSL: Option<SLPoint>,  // projection of the route-end point; None when it fails
    routeEndOnLane: bool,         // whether that projected point is on the lane
    adcEndS: real,                // end s of the vehicle's boundary on the line
    adcPosition: Point)           // vehicle position as the reference line records it

  /** The rule's configuration, fixed once loaded. */
  datatype Config = Config(prepareReroutingTime: real, cooldownTime: real)

  /** The lane-follow command carried by the rerouting status: way points and end pose. */
  datatype LaneFollowCommand = LaneFollowCommand(wayPoints: seq<Point>, endPose: Option<Point>)

  /** The rerouting sub-status of the shared planning status, as a value. */
  datatype StatusValue = StatusValue(
    lastReroutingTime: Option<real>,
    needRerouting: bool,
    laneFollowCommand: LaneFollowCommand)

  /** The guard that settled a cycle without a request. */
  datatype Guard =
    | NearDestination
    | DriveForward
    | NotOnSegment
    | CanExitPassage
    | NoPassageEnd
    | PassageEndOffLane
    | EnoughLeadTime
    | CoolingDown

  /** Why the cascade failed before reaching the dispatcher. */
  datatype Failure = ProjectionFailed | StatusMissing

  /** The decision of the guard cascade. */
  datatype Decision = Suppress(guard: Guard) | Fail(failure: Failure) | Dispatch

  /** Outcome of the planning cycle as the host pipeline sees it. */
  datatype PlanningStatus = Ok | PlanningError(message: string)

  /** A reference line closer to its destination than this needs no rerouting. */
  const RerouteThresholdToEnd: real := 20.0

  /** Radius around the lane-borrow target point within which the one-shot fires. */
  const ProximityThreshold: real := 2.0

  /** Site-specific literals of the lane-borrow trigger. */
  const LaneBorrowTarget: Point := Point(423866.1667887506, 4438129.189725632)
  const LaneBorrowWayPoint: Point := Point(423856.89459433797, 4438075.06514868)
  const LaneBorrowEndPose: Point := Point(423865.94871507853, 4437810.73895879)

  const RuleFailureMessage: string := "In un-successful lane change case, rerouting failed"

  // ---------------------------------------------------------------------------
  // The guard cascade of ChangeLaneFailRerouting

  predicate CloseToDestination(c: CorridorProgress) {
    c.reachedDestination || c.sDistanceToDestination < RerouteThresholdToEnd
  }

  /** Some candidate reference line is at (or nearly at) its destination. */
  predicate AnyNearDestination(lines: seq<CorridorProgress>) {
    exists i | 0 <= i < |lines| :: CloseToDestination(lines[i])
  }

  /** Distance covered at the current speed during the configured lead time. */
  function PrepareDistance(speed: real, config: Config): real {
    speed * config.prepareReroutingTime
  }

  /** The end of the passage still lies beyond the distance covered during the lead time. */
  predicate RunwayLeft(sl: SLPoint, line: ReferenceLineInfo, speed: real, config: Config) {
    sl.s > line.adcEndS + PrepareDistance(speed, config)
  }

  /** A dispatch was recorded and the cooldown window since it has not yet elapsed. */
  predicate InCooldown(last: Option<real>, now: real, config: Config) {
    last.Some? && now - last.value < config.cooldownTime
  }

  function LastTime(status: Option<StatusValue>): Option<real> {
    if status.Some? then status.value.lastReroutingTime else None
  }

  /**
   * The guards of ChangeLaneFailRerouting in their order: the first one that
   * settles the cycle decides, and nothing after it is consulted.
   */
  function Cascade(config: Config, frame: Frame, line: ReferenceLineInfo, speed: real, now: real,
                   status: Option<StatusValue>): (d: Decision)
    ensures d == Dispatch ==> status.Some?
  {
    if AnyNearDestination(frame.referenceLineInfos) then Suppress(NearDestination)
    else if line.nextAction == Forward then Suppress(DriveForward)
    else if !line.isOnSegment then Suppress(NotOnSegment)
    else if line.canExit then Suppress(CanExitPassage)
    else if !line.routeEndHasLane then Suppress(NoPassageEnd)
    else if line.routeEndSL.None? then Fail(ProjectionFailed)
    else if !line.routeEndOnLane then Suppress(PassageEndOffLane)
    else if RunwayLeft(line.routeEndSL.value, line, speed, config) then Suppress(EnoughLeadTime)
    else if status.None? then Fail(StatusMissing)
    else if InCooldown(status.value.lastReroutingTime, now, config) then Suppress(CoolingDown)
    else Dispatch
  }

  /**
   * What ChangeLaneFailRerouting returns, whether it called the dispatcher,
   * and the rerouting status it leaves.
   */
  datatype ChangeLaneOutcome = ChangeLaneOutcome(ok: bool, requested: bool, status: Option<StatusValue>)

  /** The timestamp of a dispatch was written this cycle. */
  predicate Recorded(o: ChangeLaneOutcome) {
    o.ok && o.requested
  }

  function ChangeLaneFailOutcome(config: Config, frame: Frame, line: ReferenceLineInfo, speed: real, now: real,
                                 status: Option<StatusValue>): ChangeLaneOutcome
  {
    match Cascade(config, frame, line, speed, now, status)
    case Suppress(_) => ChangeLaneOutcome(true, false, status)
    case Fail(_) => ChangeLaneOutcome(false, false, status)
    case Dispatch =>
      if frame.reroutingAccepted
      then ChangeLaneOutcome(true, true, Some(status.value.(lastReroutingTime := Some(now))))
      else ChangeLaneOutcome(false, true, status)
  }

  // ---------------------------------------------------------------------------
  // The proximity one-shot of LaneBorrowFailRerouting

  function SquaredDistance(p: Point, q: Point): real {
    (p.x - q.x) * (p.x - q.x) + (p.y - q.y) * (p.y - q.y)
  }

  /**
   * The vehicle is within `ProximityThreshold` of the target; since both sides
   * are non-negative, comparing squares is the same as comparing distances.
   */
  predicate WithinReach(adc: Point) {
    SquaredDistance(LaneBorrowTarget, adc) <= ProximityThreshold * ProximityThreshold
  }

  /** The status after the one-shot fills in its fixed lane-follow request. */
  function LaneBorrowRequest(st: StatusValue): StatusValue {
    st.(needRerouting := true,
        laneFollowCommand := LaneFollowCommand([LaneBorrowWayPoint], Some(LaneBorrowEndPose)))
  }

  /**
   * What LaneBorrowFailRerouting returns, whether it fired, and the latch and
   * rerouting status it leaves.
   */
  datatype LaneBorrowOutcome = LaneBorrowOutcome(ok: bool, fired: bool, isRerouting: bool, status: Option<StatusValue>)

  function LaneBorrowFailOutcome(isRerouting: bool, adc: Point, status: Option<StatusValue>): LaneBorrowOutcome
  {
    if status.None? then LaneBorrowOutcome(false, false, isRerouting, status)
    else if !WithinReach(adc) || isRerouting then LaneBorrowOutcome(true, false, isRerouting, status)
    else LaneBorrowOutcome(true, true, true, Some(LaneBorrowRequest(status.value)))
  }

  // ---------------------------------------------------------------------------
  // ApplyRule: one planning cycle

  /** What persists across cycles: the rule's latch and the shared rerouting status. */
  datatype EvaluatorState = EvaluatorState(isRerouting: bool, status: Option<StatusValue>)

  /** The inputs of one planning cycle. */
  datatype Cycle = Cycle(frame: Frame, line: ReferenceLineInfo, speed: real, now: real)

  /**
   * The result of one cycle, the outcome of each operation that ran (None for
   * LaneBorrowFailRerouting when it was skipped), and the state left behind.
   */
  datatype CycleOutcome = CycleOutcome(
    result: PlanningStatus,
    changeLane: ChangeLaneOutcome,
    laneBorrow: Option<LaneBorrowOutcome>,
    next: EvaluatorState)

  function ApplyRuleOutcome(config: Config, st: EvaluatorState, cycle: Cycle): CycleOutcome
  {
    var c := ChangeLaneFailOutcome(config, cycle.frame, cycle.line, cycle.speed, cycle.now, st.status);
    if !c.ok then
      CycleOutcome(PlanningError(RuleFailureMessage), c, None, st.(status := c.status))
    else
      var b := LaneBorrowFailOutcome(st.isRerouting, cycle.line.adcPosition, c.status);
      CycleOutcome(if b.ok then Ok else PlanningError(RuleFailureMessage), c, Some(b),
                   EvaluatorState(b.isRerouting, b.status))
  }
}
