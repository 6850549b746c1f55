/** The Explore node: the state makePlan and reachedGoal update in place. */
module Explorer {
  import opened Geometry
  import opened Blacklist
  import opened Frontiers
  import opened Planner

  /** Terminal states an actionlib goal reports to its completion callback. */
  datatype GoalStatus =
    | Pending | Active | Recalled | GoalRejected | Preempted | Aborted | Succeeded | Lost

  class Explore {
    var blacklist: seq<Point>     // frontier_blacklist_
    var prevGoal: Point           // prev_goal_
    var prevDistance: real        // prev_distance_
    var lastProgress: real        // last_progress_
    var countSoar: nat            // the global count_soar
    var exploring: bool           // false once stop() has shut the node down
    var replanScheduled: bool     // the one-shot timer reachedGoal arms, not yet fired

    ghost predicate Valid()
      reads this
    {
      countSoar <= MaxResets
    }

    function State(): (st: PlannerState)
      reads this
    {
      PlannerState(blacklist, prevGoal, prevDistance, lastProgress, countSoar, exploring)
    }

    /** The start of the process: an empty blacklist, a zeroed previous goal and
        distance, progress time zero and no reset used yet. */
    constructor ()
      ensures Valid()
      ensures State() == PlannerState([], Point(0.0, 0.0), 0.0, 0.0, 0, true)
      ensures !replanScheduled
    {
      blacklist := [];
      prevGoal := Point(0.0, 0.0);
      prevDistance := 0.0;
      lastProgress := 0.0;
      countSoar := 0;
      exploring := true;
      replanScheduled := false;
    }

    /** stop(): cancels everything and shuts the node down. Afterwards no timer
        and no completion callback runs, so no method below may be called. */
    method Stop()
      modifies this
      ensures State() == old(State()).(exploring := false)
      ensures replanScheduled == old(replanScheduled)
    {
      exploring := false;
    }

    /** One pass of the body of makePlan: it returns (Done) or has changed the
        state and would call makePlan again (Continue). */
    method PlanPass(frontiers: seq<Frontier>, res: real, now: real, timeout: real, noise: Point)
      returns (step: Step)
      requires Valid() && res > 0.0
      modifies this
      ensures step == PlanStep(old(State()), frontiers, res, now, timeout, noise)
      ensures State() == step.next
      ensures replanScheduled == old(replanScheduled)
    {
      if |frontiers| == 0 {
        Stop();
        return Done(State(), Stopped);
      }
      var i := FindEligible(frontiers, blacklist, res);
      if i == |frontiers| {
        var reset := ResetWorthy(frontiers, res);
        if reset && countSoar < MaxResets {
          blacklist := [];
          countSoar := countSoar + 1;
          return Continue(State());
        }
        Stop();
        return Done(State(), Stopped);
      }
      var target := frontiers[i].centroid;
      var sameGoal := Same(prevGoal, target);
      prevGoal := target;
      if !sameGoal || prevDistance > frontiers[i].minDistance {
        lastProgress := now;
        prevDistance := frontiers[i].minDistance;
      }
      // out of the maze, too big, one of the two dead ends, or no progress
      if Rejected(frontiers[i], res, now, lastProgress, timeout) {
        blacklist := blacklist + [target];
        return Continue(State());
      }
      if sameGoal {
        return Done(State(), NoOp);
      }
      return Done(State(), Dispatch(Perturb(target, noise)));
    }

    /** makePlan with the frontiers the search returned, the map resolution, the
        current time, the progress timeout and the noise sample; the self-calls of
        the source are the iterations of the loop. Only a running node plans. */
    method MakePlan(frontiers: seq<Frontier>, res: real, now: real, timeout: real, noise: Point)
      returns (outcome: Outcome)
      requires Valid() && exploring && res > 0.0
      modifies this
      ensures Valid()
      ensures (State(), outcome) == Plan(old(State()), frontiers, res, now, timeout, noise)
      ensures frontiers == [] ==> outcome == Stopped && State() == old(State()).(exploring := false)
      ensures exploring <==> outcome != Stopped
      ensures old(countSoar) <= countSoar <= MaxResets
      ensures replanScheduled == old(replanScheduled)
    {
      while true
        invariant Valid()
        invariant Plan(State(), frontiers, res, now, timeout, noise)
               == Plan(old(State()), frontiers, res, now, timeout, noise)
        invariant replanScheduled == old(replanScheduled)
        decreases MaxResets - countSoar, EligibleCount(frontiers, blacklist, res)
      {
        ghost var before := State();
        var step := PlanPass(frontiers, res, now, timeout, noise);
        if step.Done? {
          PlanFinishes(before, frontiers, res, now, timeout, noise);
          return step.outcome;
        }
        StepTerminates(before, frontiers, res, now, timeout, noise);
        PlanContinues(before, State(), frontiers, res, now, timeout, noise);
      }
    }

    /** The one-shot timer armed by reachedGoal fires once: it is disarmed and
        runs makePlan. */
    method FireOneShot(frontiers: seq<Frontier>, res: real, now: real, timeout: real, noise: Point)
      returns (outcome: Outcome)
      requires Valid() && exploring && replanScheduled && res > 0.0
      modifies this
      ensures Valid() && !replanScheduled
      ensures (State(), outcome) == Plan(old(State()), frontiers, res, now, timeout, noise)
    {
      replanScheduled := false;
      outcome := MakePlan(frontiers, res, now, timeout, noise);
    }

    /** reachedGoal: an aborted goal is blacklisted, any other status leaves the
        blacklist alone; either way the one-shot timer is armed to replan. */
    method ReachedGoal(status: GoalStatus, goal: Point)
      requires exploring
      modifies this
      ensures State() == old(State()).(blacklist :=
        if status == Aborted then old(blacklist) + [goal] else old(blacklist))
      ensures status == Aborted ==> forall res :: res > 0.0 ==> OnBlacklist(blacklist, goal, res)
      ensures replanScheduled
    {
      if status == Aborted {
        blacklist := blacklist + [goal];
        forall res | res > 0.0
          ensures OnBlacklist(blacklist, goal, res)
        {
          AppendedIsOnBlacklist(old(blacklist), goal, res);
        }
      }
      replanScheduled := true;
    }
  }
}
