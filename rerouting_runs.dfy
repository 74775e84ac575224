/**
 * Runs of the Rerouting rule over many planning cycles: the cooldown keeps
 * recorded dispatches apart, the recorded time never moves backwards, and the
 * lane-borrow one-shot fires at most once and then freezes its payload.
 */
module ReroutingRuns {
  import opened ReroutingSpec

  /** The state left after applying the rule once per cycle, in order. */
  function Run(config: Config, st: EvaluatorState, cycles: seq<Cycle>): EvaluatorState
    decreases |cycles|
  {
    if cycles == [] then st
    else Run(config, ApplyRuleOutcome(config, st, cycles[0]).next, cycles[1..])
  }

  /** The clock readings at which an accepted dispatch was recorded, in order. */
  function RecordedTimes(config: Config, st: EvaluatorState, cycles: seq<Cycle>): seq<real>
    decreases |cycles|
  {
    if cycles == [] then []
    else
      var o := ApplyRuleOutcome(config, st, cycles[0]);
      (if Recorded(o.changeLane) then [cycles[0].now] else []) + RecordedTimes(config, o.next, cycles[1..])
  }

  /** The number of cycles in which the lane-borrow one-shot fired. */
  function Firings(config: Config, st: EvaluatorState, cycles: seq<Cycle>): nat
    decreases |cycles|
  {
    if cycles == [] then 0
    else
      var o := ApplyRuleOutcome(config, st, cycles[0]);
      (if o.laneBorrow.Some? && o.laneBorrow.value.fired then 1 else 0) + Firings(config, o.next, cycles[1..])
  }

  /** The part of the status the one-shot writes: the flag and the lane-follow command. */
  function Payload(status: Option<StatusValue>): Option<(bool, LaneFollowCommand)> {
    if status.Some? then Some((status.value.needRerouting, status.value.laneFollowCommand)) else None
  }

  /** Each time is at least `gap` after the one before it, the first at least `gap` after `last`. */
  ghost predicate SpacedBy(last: Option<real>, times: seq<real>, gap: real) {
    && (forall i :: 0 < i < |times| ==> times[i] - times[i - 1] >= gap)
    && (last.Some? && |times| > 0 ==> times[0] - last.value >= gap)
  }

  /**
   * One cycle: the recorded time becomes `now` exactly when a dispatch is
   * recorded, which the cooldown only allows once it has elapsed; the
   * one-shot never touches the recorded time.
   */
  lemma CycleLastTime(config: Config, st: EvaluatorState, cycle: Cycle)
    ensures var o := ApplyRuleOutcome(config, st, cycle);
            && LastTime(o.next.status) == (if Recorded(o.changeLane) then Some(cycle.now) else LastTime(st.status))
            && (Recorded(o.changeLane) && LastTime(st.status).Some? ==>
                  cycle.now - LastTime(st.status).value >= config.cooldownTime)
  {
  }

  /** Recorded dispatches are never closer together than the cooldown window. */
  lemma {:induction false} RecordedTimesRespectCooldown(config: Config, st: EvaluatorState, cycles: seq<Cycle>)
    ensures SpacedBy(LastTime(st.status), RecordedTimes(config, st, cycles), config.cooldownTime)
    decreases |cycles|
  {
    if cycles != [] {
      var o := ApplyRuleOutcome(config, st, cycles[0]);
      var rest := RecordedTimes(config, o.next, cycles[1..]);
      RecordedTimesRespectCooldown(config, o.next, cycles[1..]);
      CycleLastTime(config, st, cycles[0]);
      if Recorded(o.changeLane) {
        var times := [cycles[0].now] + rest;
        assert RecordedTimes(config, st, cycles) == times;
        forall i | 0 < i < |times|
          ensures times[i] - times[i - 1] >= config.cooldownTime
        {
          if i > 1 {
            assert times[i] == rest[i - 1] && times[i - 1] == rest[i - 2];
          }
        }
      } else {
        assert RecordedTimes(config, st, cycles) == rest;
      }
    }
  }

  /**
   * With a non-negative cooldown, any two recorded dispatches of a run, not
   * only neighbouring ones, are at least the cooldown window apart.
   */
  lemma {:induction false} RecordedTimesPairwiseSpaced(config: Config, st: EvaluatorState, cycles: seq<Cycle>,
                                                        i: nat, j: nat)
    requires config.cooldownTime >= 0.0
    requires i < j < |RecordedTimes(config, st, cycles)|
    ensures RecordedTimes(config, st, cycles)[j] - RecordedTimes(config, st, cycles)[i] >= config.cooldownTime
    decreases j - i
  {
    var times := RecordedTimes(config, st, cycles);
    RecordedTimesRespectCooldown(config, st, cycles);
    assert times[j] - times[j - 1] >= config.cooldownTime;
    if i < j - 1 {
      RecordedTimesPairwiseSpaced(config, st, cycles, i, j - 1);
    }
  }

  /** After a run, the recorded time is that of the last recorded dispatch, or the initial one. */
  lemma {:induction false} RunLastTime(config: Config, st: EvaluatorState, cycles: seq<Cycle>)
    ensures var times := RecordedTimes(config, st, cycles);
            LastTime(Run(config, st, cycles).status)
              == if times == [] then LastTime(st.status) else Some(times[|times| - 1])
    decreases |cycles|
  {
    if cycles != [] {
      var o := ApplyRuleOutcome(config, st, cycles[0]);
      RunLastTime(config, o.next, cycles[1..]);
      CycleLastTime(config, st, cycles[0]);
      var rest := RecordedTimes(config, o.next, cycles[1..]);
      if Recorded(o.changeLane) {
        assert RecordedTimes(config, st, cycles) == [cycles[0].now] + rest;
      } else {
        assert RecordedTimes(config, st, cycles) == rest;
      }
    }
  }

  /**
   * With a non-negative cooldown the recorded time, once set, never moves
   * backwards, even if the clock does.
   */
  lemma {:induction false} LastTimeNeverDecreases(config: Config, st: EvaluatorState, cycles: seq<Cycle>)
    requires config.cooldownTime >= 0.0
    requires LastTime(st.status).Some?
    ensures LastTime(Run(config, st, cycles).status).Some?
    ensures LastTime(Run(config, st, cycles).status).value >= LastTime(st.status).value
    decreases |cycles|
  {
    if cycles != [] {
      var o := ApplyRuleOutcome(config, st, cycles[0]);
      CycleLastTime(config, st, cycles[0]);
      LastTimeNeverDecreases(config, o.next, cycles[1..]);
    }
  }

  /** Once latched, the one-shot never fires again and its payload never changes. */
  lemma {:induction false} LatchIsPermanent(config: Config, st: EvaluatorState, cycles: seq<Cycle>)
    requires st.isRerouting
    ensures Run(config, st, cycles).isRerouting
    ensures Payload(Run(config, st, cycles).status) == Payload(st.status)
    ensures Firings(config, st, cycles) == 0
    decreases |cycles|
  {
    if cycles != [] {
      var o := ApplyRuleOutcome(config, st, cycles[0]);
      assert o.next.isRerouting && Payload(o.next.status) == Payload(st.status);
      LatchIsPermanent(config, o.next, cycles[1..]);
    }
  }

  /** In any run the one-shot fires at most once, and never from a latched state. */
  lemma {:induction false} FiresAtMostOnce(config: Config, st: EvaluatorState, cycles: seq<Cycle>)
    ensures Firings(config, st, cycles) <= if st.isRerouting then 0 else 1
    decreases |cycles|
  {
    if st.isRerouting {
      LatchIsPermanent(config, st, cycles);
    } else if cycles != [] {
      var o := ApplyRuleOutcome(config, st, cycles[0]);
      if o.laneBorrow.Some? && o.laneBorrow.value.fired {
        LatchIsPermanent(config, o.next, cycles[1..]);
      } else {
        FiresAtMostOnce(config, o.next, cycles[1..]);
      }
    }
  }

  // ---------------------------------------------------------------------------
  // Worked scenarios: a lane-change corridor that cannot exit its passage,
  // whose passage end projects onto the lane (unless stated otherwise),
  // speed 10, lead time 2 s, cooldown 30 s, vehicle far from the lane-borrow
  // target.

  const ScenarioConfig: Config := Config(2.0, 30.0)
  const ScenarioFrame: Frame := Frame([CorridorProgress(false, 500.0)], true)

  function ScenarioLine(action: ChangeLaneType, endAhead: real, endOnLane: bool): ReferenceLineInfo {
    ReferenceLineInfo(action, true, false, true, Some(SLPoint(100.0 + endAhead, 0.0)), endOnLane, 100.0, Point(0.0, 0.0))
  }

  const ScenarioStart: EvaluatorState :=
    EvaluatorState(false, Some(StatusValue(None, false, LaneFollowCommand([], None))))

  /** A corridor that only drives forward: the cycle succeeds without a request. */
  lemma ScenarioForwardCorridor()
    ensures var o := ApplyRuleOutcome(ScenarioConfig, ScenarioStart, Cycle(ScenarioFrame, ScenarioLine(Forward, 15.0, true), 10.0, 100.0));
            o.result == Ok && !o.changeLane.requested && o.next == ScenarioStart
  {
  }

  /**
   * A passage end that projects off the lane settles the cycle before the
   * lead-time guard: even 15 ahead, no request goes out.
   */
  lemma ScenarioPassageEndOffLane()
    ensures var o := ApplyRuleOutcome(ScenarioConfig, ScenarioStart, Cycle(ScenarioFrame, ScenarioLine(Left, 15.0, false), 10.0, 100.0));
            o.result == Ok && o.changeLane == ChangeLaneOutcome(true, false, ScenarioStart.status)
            && Cascade(ScenarioConfig, ScenarioFrame, ScenarioLine(Left, 15.0, false), 10.0, 100.0, ScenarioStart.status)
               == Suppress(PassageEndOffLane)
  {
  }

  /** The passage ends 25 ahead, beyond the 20 covered in the lead time: no request. */
  lemma ScenarioEnoughRunway()
    ensures var o := ApplyRuleOutcome(ScenarioConfig, ScenarioStart, Cycle(ScenarioFrame, ScenarioLine(Left, 25.0, true), 10.0, 100.0));
            o.result == Ok && o.changeLane == ChangeLaneOutcome(true, false, ScenarioStart.status)
            && Cascade(ScenarioConfig, ScenarioFrame, ScenarioLine(Left, 25.0, true), 10.0, 100.0, ScenarioStart.status)
               == Suppress(EnoughLeadTime)
  {
  }

  /**
   * The passage ends 15 ahead: a request goes out and its time is recorded;
   * the same cycle one second later is held back by the cooldown.
   */
  lemma ScenarioDispatchThenCooldown()
    ensures var cycles := [Cycle(ScenarioFrame, ScenarioLine(Left, 15.0, true), 10.0, 100.0),
                           Cycle(ScenarioFrame, ScenarioLine(Left, 15.0, true), 10.0, 101.0)];
            && RecordedTimes(ScenarioConfig, ScenarioStart, cycles) == [100.0]
            && LastTime(Run(ScenarioConfig, ScenarioStart, cycles).status) == Some(100.0)
  {
    var c1 := Cycle(ScenarioFrame, ScenarioLine(Left, 15.0, true), 10.0, 100.0);
    var c2 := Cycle(ScenarioFrame, ScenarioLine(Left, 15.0, true), 10.0, 101.0);
    var cycles := [c1, c2];
    assert !WithinReach(Point(0.0, 0.0));
    var first := ApplyRuleOutcome(ScenarioConfig, ScenarioStart, c1);
    assert Recorded(first.changeLane) && LastTime(first.next.status) == Some(100.0);
    var second := ApplyRuleOutcome(ScenarioConfig, first.next, c2);
    assert second.changeLane.ok && !second.changeLane.requested;
    assert LastTime(second.next.status) == Some(100.0);
    assert cycles[1..] == [c2] && [c2][1..] == [];
    assert RecordedTimes(ScenarioConfig, first.next, [c2]) == [];
    assert Run(ScenarioConfig, first.next, [c2]) == second.next;
  }
}
