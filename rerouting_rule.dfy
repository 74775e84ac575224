/**
 * The Rerouting traffic rule as the planner runs it: an object that keeps its
 * configuration, a handle on the shared rerouting status, a one-shot latch,
 * and the frame and reference line of the cycle being planned. Each method is
 * proved to do exactly what the matching function of ReroutingSpec says.
 */
module ReroutingRule {
  import opened ReroutingSpec

  /** The rerouting sub-status of the shared planning status, updated in place. */
  class ReroutingStatus {
    var lastReroutingTime: Option<real>
    var needRerouting: bool
    var laneFollowCommand: LaneFollowCommand

    /** A status in which no field has been set. */
    constructor ()
      ensures Value() == StatusValue(None, false, LaneFollowCommand([], None))
    {
      lastReroutingTime := None;
      needRerouting := false;
      laneFollowCommand := LaneFollowCommand([], None);
    }

    function Value(): StatusValue
      reads this
    {
      StatusValue(lastReroutingTime, needRerouting, laneFollowCommand)
    }
  }

  class Rerouting {
    /** Loaded once at initialisation. */
    const config: Config
    /** The rerouting status reached through the planning context; null when absent. */
    const status: ReroutingStatus?
    /** Set once the lane-borrow one-shot has fired; never cleared. */
    var isRerouting: bool
    /** The frame and reference line of the cycle being planned, set by ApplyRule. */
    var frame: Option<Frame>
    var referenceLineInfo: Option<ReferenceLineInfo>

    constructor (config: Config, status: ReroutingStatus?)
      ensures this.config == config && this.status == status
      ensures !isRerouting && frame == None && referenceLineInfo == None
    {
      this.config := config;
      this.status := status;
      isRerouting := false;
      frame := None;
      referenceLineInfo := None;
    }

    /** The shared rerouting status as a value, None when it is absent. */
    function Shared(): Option<StatusValue>
      reads this, status
    {
      if status == null then None else Some(status.Value())
    }

    /** What persists from one cycle to the next. */
    function State(): EvaluatorState
      reads this, status
    {
      EvaluatorState(isRerouting, Shared())
    }

    /**
     * Decides whether the reference line is about to become undrivable and,
     * if so, submits a rerouting request and records when it was accepted.
     */
    method ChangeLaneFailRerouting(speed: real, now: real) returns (ok: bool)
      requires frame.Some? && referenceLineInfo.Some?
      modifies status
      ensures var o := ChangeLaneFailOutcome(config, frame.value, referenceLineInfo.value, speed, now, old(Shared()));
              ok == o.ok && Shared() == o.status
    {
      var lines := frame.value.referenceLineInfos;
      var i := 0;
      while i < |lines|
        invariant 0 <= i <= |lines|
        invariant forall j :: 0 <= j < i ==> !CloseToDestination(lines[j])
      {
        if lines[i].reachedDestination || lines[i].sDistanceToDestination < RerouteThresholdToEnd {
          return true;
        }
        i := i + 1;
      }
      var line := referenceLineInfo.value;
      if line.nextAction == Forward {
        return true;
      }
      if !line.isOnSegment {
        return true;
      }
      if line.canExit {
        return true;
      }
      if !line.routeEndHasLane {
        return true;
      }
      if line.routeEndSL.None? {
        return false;
      }
      var sl := line.routeEndSL.value;
      if !line.routeEndOnLane {
        return true;
      }
      var prepareDistance := PrepareDistance(speed, config);
      if sl.s > line.adcEndS + prepareDistance {
        return true;
      }
      if status == null {
        return false;
      }
      if status.lastReroutingTime.Some? && now - status.lastReroutingTime.value < config.cooldownTime {
        return true;
      }
      if !frame.value.reroutingAccepted {
        return false;
      }
      status.lastReroutingTime := Some(now);
      return true;
    }

    /**
     * Near the lane-borrow target, fills the shared status with a fixed
     * lane-follow request, once for the lifetime of the rule.
     */
    method LaneBorrowFailRerouting() returns (ok: bool)
      requires referenceLineInfo.Some?
      modifies status, this`isRerouting
      ensures var o := LaneBorrowFailOutcome(old(isRerouting), referenceLineInfo.value.adcPosition, old(Shared()));
              ok == o.ok && isRerouting == o.isRerouting && Shared() == o.status
    {
      if status == null {
        return false;
      }
      var adc := referenceLineInfo.value.adcPosition;
      var squaredDistance := SquaredDistance(LaneBorrowTarget, adc);
      if squaredDistance > ProximityThreshold * ProximityThreshold || isRerouting {
        return true;
      }
      status.laneFollowCommand := status.laneFollowCommand.(wayPoints := []);
      status.laneFollowCommand := status.laneFollowCommand.(wayPoints := status.laneFollowCommand.wayPoints + [LaneBorrowWayPoint]);
      status.laneFollowCommand := status.laneFollowCommand.(endPose := Some(LaneBorrowEndPose));
      status.needRerouting := true;
      isRerouting := true;
      assert [] + [LaneBorrowWayPoint] == [LaneBorrowWayPoint];
      return true;
    }

    /** One planning cycle of the rule. */
    method ApplyRule(currentFrame: Frame, info: ReferenceLineInfo, speed: real, now: real)
      returns (result: PlanningStatus)
      modifies this`frame, this`referenceLineInfo, this`isRerouting, status
      ensures frame == Some(currentFrame) && referenceLineInfo == Some(info)
      ensures var o := ApplyRuleOutcome(config, old(State()), Cycle(currentFrame, info, speed, now));
              result == o.result && State() == o.next
    {
      frame := Some(currentFrame);
      referenceLineInfo := Some(info);
      var changed := ChangeLaneFailRerouting(speed, now);
      if !changed {
        return PlanningError(RuleFailureMessage);
      }
      var borrowed := LaneBorrowFailRerouting();
      if !borrowed {
        return PlanningError(RuleFailureMessage);
      }
      return Ok;
    }
  }
}
