/**
 * Properties of one planning cycle of the Rerouting rule: the precedence of
 * the guards, the lead-time boundary, the cooldown window, the outcome of a
 * dispatch, the proximity one-shot and the sequencing done by ApplyRule.
 */
module ReroutingProperties {
  import opened ReroutingSpec

  /** The near-destination scan and the four segment guards all let the cycle through. */
  predicate PassesEarlyGuards(frame: Frame, line: ReferenceLineInfo) {
    && !AnyNearDestination(frame.referenceLineInfos)
    && line.nextAction != Forward
    && line.isOnSegment
    && !line.canExit
    && line.routeEndHasLane
  }

  /** Every geometric and kinematic guard lets the cycle through to the status checks. */
  predicate ReachesStatusChecks(config: Config, frame: Frame, line: ReferenceLineInfo, speed: real) {
    && PassesEarlyGuards(frame, line)
    && line.routeEndSL.Some?
    && line.routeEndOnLane
    && !RunwayLeft(line.routeEndSL.value, line, speed, config)
  }

  /** A cycle settled by a guard returns success and leaves the status as it was. */
  lemma SuppressionChangesNothing(config: Config, frame: Frame, line: ReferenceLineInfo, speed: real, now: real,
                                  status: Option<StatusValue>)
    requires Cascade(config, frame, line, speed, now, status).Suppress?
    ensures var o := ChangeLaneFailOutcome(config, frame, line, speed, now, status);
            o.ok && !o.requested && o.status == status
  {
  }

  /** Some candidate line at or near its destination settles the cycle, whatever the rest. */
  lemma NearDestinationShortCircuit(config: Config, frame: Frame, line: ReferenceLineInfo, speed: real, now: real,
                                    status: Option<StatusValue>, k: nat)
    requires k < |frame.referenceLineInfos|
    requires frame.referenceLineInfos[k].reachedDestination
          || frame.referenceLineInfos[k].sDistanceToDestination < RerouteThresholdToEnd
    ensures Cascade(config, frame, line, speed, now, status) == Suppress(NearDestination)
    ensures var o := ChangeLaneFailOutcome(config, frame, line, speed, now, status);
            o.ok && !o.requested && o.status == status
  {
  }

  /** The four segment guards, in order; each settles the cycle whatever comes after it. */
  lemma EarlyGuardsSuppressInOrder(config: Config, frame: Frame, line: ReferenceLineInfo, speed: real, now: real,
                                   status: Option<StatusValue>)
    requires !AnyNearDestination(frame.referenceLineInfos)
    ensures line.nextAction == Forward
            ==> Cascade(config, frame, line, speed, now, status) == Suppress(DriveForward)
    ensures line.nextAction != Forward && !line.isOnSegment
            ==> Cascade(config, frame, line, speed, now, status) == Suppress(NotOnSegment)
    ensures line.nextAction != Forward && line.isOnSegment && line.canExit
            ==> Cascade(config, frame, line, speed, now, status) == Suppress(CanExitPassage)
    ensures line.nextAction != Forward && line.isOnSegment && !line.canExit && !line.routeEndHasLane
            ==> Cascade(config, frame, line, speed, now, status) == Suppress(NoPassageEnd)
  {
  }

  /**
   * A route-end point that cannot be projected is a failure, not a
   * suppression; a projected point off the lane is a suppression.
   */
  lemma ProjectionOutcome(config: Config, frame: Frame, line: ReferenceLineInfo, speed: real, now: real,
                          status: Option<StatusValue>)
    requires PassesEarlyGuards(frame, line)
    ensures line.routeEndSL.None? ==>
              var o := ChangeLaneFailOutcome(config, frame, line, speed, now, status);
              Cascade(config, frame, line, speed, now, status) == Fail(ProjectionFailed)
              && !o.ok && !o.requested && o.status == status
    ensures line.routeEndSL.Some? && !line.routeEndOnLane ==>
              var o := ChangeLaneFailOutcome(config, frame, line, speed, now, status);
              Cascade(config, frame, line, speed, now, status) == Suppress(PassageEndOffLane)
              && o.ok && !o.requested && o.status == status
  {
  }

  /**
   * The lead-time guard suppresses exactly when the end of the passage lies
   * beyond `adcEndS + PrepareDistance(speed, config)`; otherwise the cycle
   * reaches the status checks.
   */
  lemma LeadTimeBoundary(config: Config, frame: Frame, line: ReferenceLineInfo, speed: real, now: real,
                         status: Option<StatusValue>)
    requires PassesEarlyGuards(frame, line) && line.routeEndSL.Some? && line.routeEndOnLane
    ensures Cascade(config, frame, line, speed, now, status) == Suppress(EnoughLeadTime)
            <==> line.routeEndSL.value.s > line.adcEndS + PrepareDistance(speed, config)
    ensures line.routeEndSL.value.s <= line.adcEndS + PrepareDistance(speed, config)
            ==> Cascade(config, frame, line, speed, now, status) in {Fail(StatusMissing), Suppress(CoolingDown), Dispatch}
  {
  }

  /**
   * With a status present and no cooldown running, the dispatcher is called
   * exactly when the lead-time boundary has been reached.
   */
  lemma LeadTimeDecidesRequest(config: Config, frame: Frame, line: ReferenceLineInfo, speed: real, now: real,
                               status: Option<StatusValue>)
    requires PassesEarlyGuards(frame, line) && line.routeEndSL.Some? && line.routeEndOnLane
    requires status.Some? && !InCooldown(status.value.lastReroutingTime, now, config)
    ensures ChangeLaneFailOutcome(config, frame, line, speed, now, status).requested
            <==> line.routeEndSL.value.s <= line.adcEndS + PrepareDistance(speed, config)
  {
  }

  /**
   * Past the geometric guards, a missing status is a failure and a running
   * cooldown is a suppression; neither calls the dispatcher.
   */
  lemma StatusChecks(config: Config, frame: Frame, line: ReferenceLineInfo, speed: real, now: real,
                     status: Option<StatusValue>)
    requires ReachesStatusChecks(config, frame, line, speed)
    ensures status.None? ==>
              var o := ChangeLaneFailOutcome(config, frame, line, speed, now, status);
              Cascade(config, frame, line, speed, now, status) == Fail(StatusMissing)
              && !o.ok && !o.requested && o.status == status
    ensures status.Some? && status.value.lastReroutingTime.Some?
            && now - status.value.lastReroutingTime.value < config.cooldownTime ==>
              var o := ChangeLaneFailOutcome(config, frame, line, speed, now, status);
              Cascade(config, frame, line, speed, now, status) == Suppress(CoolingDown)
              && o.ok && !o.requested && o.status == status
  {
  }

  /** The dispatcher is reached exactly when no guard settles the cycle. */
  lemma DispatchExactlyWhenAllGuardsPass(config: Config, frame: Frame, line: ReferenceLineInfo, speed: real,
                                         now: real, status: Option<StatusValue>)
    ensures Cascade(config, frame, line, speed, now, status) == Dispatch
            <==> ReachesStatusChecks(config, frame, line, speed)
                 && status.Some? && !InCooldown(status.value.lastReroutingTime, now, config)
  {
  }

  /**
   * A dispatch the dispatcher rejects is a failure that records nothing; one
   * it accepts is a success that records `now` and changes nothing else.
   */
  lemma DispatchOutcome(config: Config, frame: Frame, line: ReferenceLineInfo, speed: real, now: real,
                        status: Option<StatusValue>)
    requires Cascade(config, frame, line, speed, now, status) == Dispatch
    ensures var o := ChangeLaneFailOutcome(config, frame, line, speed, now, status);
            o.requested
            && (frame.reroutingAccepted ==>
                  o.ok && o.status == Some(status.value.(lastReroutingTime := Some(now))))
            && (!frame.reroutingAccepted ==> !o.ok && o.status == status)
  {
  }

  /**
   * ChangeLaneFailRerouting writes only the timestamp, and only when an
   * accepted dispatch records the current time.
   */
  lemma TimestampOnlyWrittenByDispatch(config: Config, frame: Frame, line: ReferenceLineInfo, speed: real,
                                       now: real, status: Option<StatusValue>)
    ensures var o := ChangeLaneFailOutcome(config, frame, line, speed, now, status);
            && o.status.Some? == status.Some?
            && (o.status.Some? ==>
                  o.status.value.needRerouting == status.value.needRerouting
                  && o.status.value.laneFollowCommand == status.value.laneFollowCommand)
            && LastTime(o.status) == (if Recorded(o) then Some(now) else LastTime(status))
            && (Recorded(o) <==> Cascade(config, frame, line, speed, now, status) == Dispatch && frame.reroutingAccepted)
  {
  }

  /** The timestamp is never re-recorded within the cooldown window. */
  lemma NoRecordWithinCooldown(config: Config, frame: Frame, line: ReferenceLineInfo, speed: real, now: real,
                               status: Option<StatusValue>)
    requires Recorded(ChangeLaneFailOutcome(config, frame, line, speed, now, status))
    ensures LastTime(status).Some? ==> now - LastTime(status).value >= config.cooldownTime
  {
  }

  // ---------------------------------------------------------------------------
  // The proximity one-shot

  /**
   * Without a status the one-shot fails and changes nothing; away from the
   * target, or once latched, it succeeds and changes nothing; otherwise it
   * fills in the fixed request and sets the latch.
   */
  lemma LaneBorrowCases(isRerouting: bool, adc: Point, status: Option<StatusValue>)
    ensures var o := LaneBorrowFailOutcome(isRerouting, adc, status);
            && (o.ok <==> status.Some?)
            && (status.None? ==> !o.fired && o.isRerouting == isRerouting && o.status == status)
            && (isRerouting || !WithinReach(adc) ==> !o.fired && o.isRerouting == isRerouting && o.status == status)
            && (status.Some? && !isRerouting && WithinReach(adc) ==>
                  && o.fired && o.isRerouting
                  && o.status.value.laneFollowCommand.wayPoints == [LaneBorrowWayPoint]
                  && o.status.value.laneFollowCommand.endPose == Some(LaneBorrowEndPose)
                  && o.status.value.needRerouting
                  && o.status.value.lastReroutingTime == status.value.lastReroutingTime)
  {
  }

  /**
   * Running the one-shot again from the same position changes nothing, and
   * once it has fired no later run, from any position, changes anything.
   */
  lemma LaneBorrowIdempotent(isRerouting: bool, adc: Point, adc': Point, status: Option<StatusValue>)
    ensures var o := LaneBorrowFailOutcome(isRerouting, adc, status);
            var again := LaneBorrowFailOutcome(o.isRerouting, adc, o.status);
            !again.fired && again.isRerouting == o.isRerouting && again.status == o.status
    ensures var o := LaneBorrowFailOutcome(isRerouting, adc, status);
            var later := LaneBorrowFailOutcome(o.isRerouting, adc', o.status);
            o.fired ==> !later.fired && later.ok && later.isRerouting && later.status == o.status
  {
  }

  /** The latch is never cleared. */
  lemma LaneBorrowKeepsLatch(isRerouting: bool, adc: Point, status: Option<StatusValue>)
    ensures isRerouting ==> LaneBorrowFailOutcome(isRerouting, adc, status).isRerouting
    ensures LaneBorrowFailOutcome(isRerouting, adc, status).fired ==> !isRerouting
  {
  }

  // ---------------------------------------------------------------------------
  // ApplyRule

  /**
   * A failed ChangeLaneFailRerouting is a planning error and skips the
   * one-shot, so latch and payload stay as they were; a successful one leaves
   * the verdict to the one-shot.
   */
  lemma ApplyRuleSequencing(config: Config, st: EvaluatorState, cycle: Cycle)
    ensures var o := ApplyRuleOutcome(config, st, cycle);
            var c := ChangeLaneFailOutcome(config, cycle.frame, cycle.line, cycle.speed, cycle.now, st.status);
            && o.changeLane == c
            && (!c.ok ==> o.result == PlanningError(RuleFailureMessage) && o.laneBorrow.None?
                          && o.next == st.(status := c.status))
            && (c.ok ==> o.laneBorrow.Some?
                         && o.laneBorrow.value == LaneBorrowFailOutcome(st.isRerouting, cycle.line.adcPosition, c.status)
                         && (o.result == Ok <==> o.laneBorrow.value.ok))
  {
  }

  /** Without a rerouting status every cycle is a planning error and nothing is requested. */
  lemma MissingStatusAlwaysErrors(config: Config, st: EvaluatorState, cycle: Cycle)
    requires st.status.None?
    ensures var o := ApplyRuleOutcome(config, st, cycle);
            o.result == PlanningError(RuleFailureMessage) && !o.changeLane.requested && o.next == st
  {
  }

  /** With a rerouting status, a cycle fails exactly when ChangeLaneFailRerouting does. */
  lemma PresentStatusErrorsOnlyFromCascade(config: Config, st: EvaluatorState, cycle: Cycle)
    requires st.status.Some?
    ensures var o := ApplyRuleOutcome(config, st, cycle);
            o.result.Ok? <==> o.changeLane.ok
  {
  }
}
