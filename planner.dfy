/** The decision logic of Explore::makePlan on values: one pass of the method body
    (PlanStep) and the whole call with its self-invocations (Plan). */
module Planner {
  import opened Geometry
  import opened Blacklist
  import opened Frontiers

  /** How many times the blacklist may be cleared over the life of the process. */
  const MaxResets: nat := 5

  /** The state makePlan reads and writes: frontier_blacklist_, prev_goal_,
      prev_distance_, last_progress_, the global count_soar and the "exploring"
      flag that stop() clears. */
  datatype PlannerState = PlannerState(
    blacklist: seq<Point>,
    prevGoal: Point,
    prevDistance: real,
    lastProgress: real,
    countSoar: nat,
    exploring: bool)

  /** What one makePlan call ends with. */
  datatype Outcome =
    | Stopped           // stop() was called
    | NoOp              // still pursuing the same goal
    | Dispatch(target: Point)  // a new goal was sent to move_base

  /** One pass of makePlan's body: either it returns, or it changed the state and
      calls itself again. */
  datatype Step = Continue(next: PlannerState) | Done(next: PlannerState, outcome: Outcome)

  /** The goal actually sent: the centroid plus the two Gaussian samples. */
  function Perturb(target: Point, noise: Point): (goal: Point)
    // the goal moves away from the centroid by exactly the noise's length
    ensures Dist2(goal, target) == Dist2(noise, Point(0.0, 0.0))
    ensures noise == Point(0.0, 0.0) ==> goal == target
  {
    Point(target.x + noise.x, target.y + noise.y)
  }

  /** One pass of the body of makePlan with a fixed frontier list, resolution,
      clock reading and noise sample. */
  function PlanStep(s: PlannerState, frontiers: seq<Frontier>, res: real, now: real,
                    timeout: real, noise: Point): (r: Step)
    requires res > 0.0
    // the reset counter moves only by a single reset, which empties the blacklist
    ensures r.next.countSoar == s.countSoar ||
            (r.Continue? && r.next.countSoar == s.countSoar + 1 && r.next.blacklist == [])
    // a pass that returns leaves the blacklist alone
    ensures r.Done? ==> r.next.blacklist == s.blacklist && r.next.countSoar == s.countSoar
    // a pass that calls makePlan again without a reset appends one point
    ensures r.Continue? && r.next.countSoar == s.countSoar ==>
      |r.next.blacklist| == |s.blacklist| + 1 && s.blacklist <= r.next.blacklist
    // only a stop clears the exploring flag
    ensures r.next.exploring == (s.exploring && !(r.Done? && r.outcome == Stopped))
  {
    if frontiers == [] then Done(s.(exploring := false), Stopped)
    else
      var i := FindEligible(frontiers, s.blacklist, res);
      if i == |frontiers| then
        if AnyResetCandidate(frontiers, res) && s.countSoar < MaxResets then
          Continue(s.(blacklist := [], countSoar := s.countSoar + 1))
        else
          Done(s.(exploring := false), Stopped)
      else
        var f := frontiers[i];
        var target := f.centroid;
        var sameGoal := Same(s.prevGoal, target);
        var progressed := !sameGoal || s.prevDistance > f.minDistance;
        var s1 := s.(prevGoal := target,
                     lastProgress := if progressed then now else s.lastProgress,
                     prevDistance := if progressed then f.minDistance else s.prevDistance);
        if Rejected(f, res, now, s1.lastProgress, timeout) then
          Continue(s1.(blacklist := s1.blacklist + [target]))
        else if sameGoal then Done(s1, NoOp)
        else Done(s1, Dispatch(Perturb(target, noise)))
  }

  /** Every self-invocation makes progress: either the blacklist was cleared and
      the reset counter went up (never past MaxResets), or the counter stayed and
      one more frontier became blacklisted. */
  lemma StepTerminates(s: PlannerState, frontiers: seq<Frontier>, res: real, now: real,
                       timeout: real, noise: Point)
    requires res > 0.0 && s.countSoar <= MaxResets
    requires PlanStep(s, frontiers, res, now, timeout, noise).Continue?
    ensures var n := PlanStep(s, frontiers, res, now, timeout, noise).next;
      n.countSoar <= MaxResets &&
      (n.countSoar == s.countSoar + 1 ||
       (n.countSoar == s.countSoar &&
        EligibleCount(frontiers, n.blacklist, res) < EligibleCount(frontiers, s.blacklist, res)))
  {
    var i := FindEligible(frontiers, s.blacklist, res);
    if i < |frontiers| {
      EligibleDrops(frontiers, s.blacklist, i, res);
    }
  }

  /** A whole makePlan call: the body run until it returns. */
  function Plan(s: PlannerState, frontiers: seq<Frontier>, res: real, now: real,
                timeout: real, noise: Point): (r: (PlannerState, Outcome))
    requires res > 0.0 && s.countSoar <= MaxResets
    // the reset counter only grows, and never past its cap
    ensures s.countSoar <= r.0.countSoar <= MaxResets
    // without a reset the blacklist only grows at its end
    ensures r.0.countSoar == s.countSoar ==> s.blacklist <= r.0.blacklist
    // only stopping clears the exploring flag
    ensures r.0.exploring == (s.exploring && r.1 != Stopped)
    // an empty frontier list stops and changes nothing else
    ensures frontiers == [] ==> r == (s.(exploring := false), Stopped)
    // stopping on a non-empty list: everything blacklisted and no reset allowed
    ensures r.1 == Stopped && frontiers != [] ==>
      FindEligible(frontiers, r.0.blacklist, res) == |frontiers| &&
      !(AnyResetCandidate(frontiers, res) && r.0.countSoar < MaxResets)
    // otherwise the goal is the first non-blacklisted frontier, which passed every check
    ensures r.1 != Stopped ==>
      var i := FindEligible(frontiers, r.0.blacklist, res);
      i < |frontiers| && r.0.prevGoal == frontiers[i].centroid &&
      !Rejected(frontiers[i], res, now, r.0.lastProgress, timeout) &&
      (r.1.Dispatch? ==>
        r.1.target == Perturb(frontiers[i].centroid, noise) &&
        r.0.lastProgress == now && r.0.prevDistance == frontiers[i].minDistance)
    decreases MaxResets - s.countSoar, EligibleCount(frontiers, s.blacklist, res)
  {
    match PlanStep(s, frontiers, res, now, timeout, noise)
    case Done(n, o) => (n, o)
    case Continue(n) =>
      StepTerminates(s, frontiers, res, now, timeout, noise);
      Plan(n, frontiers, res, now, timeout, noise)
  }

  /** Plan after a pass that calls makePlan again is the plan from the new state. */
  lemma PlanContinues(s: PlannerState, n: PlannerState, frontiers: seq<Frontier>, res: real,
                      now: real, timeout: real, noise: Point)
    requires res > 0.0 && s.countSoar <= MaxResets
    requires PlanStep(s, frontiers, res, now, timeout, noise) == Continue(n)
    ensures n.countSoar <= MaxResets
    ensures Plan(s, frontiers, res, now, timeout, noise) == Plan(n, frontiers, res, now, timeout, noise)
  {
  }

  /** Plan after a pass that returns is what that pass returned. */
  lemma PlanFinishes(s: PlannerState, frontiers: seq<Frontier>, res: real, now: real,
                     timeout: real, noise: Point)
    requires res > 0.0 && s.countSoar <= MaxResets
    requires PlanStep(s, frontiers, res, now, timeout, noise).Done?
    ensures var st := PlanStep(s, frontiers, res, now, timeout, noise);
      Plan(s, frontiers, res, now, timeout, noise) == (st.next, st.outcome)
  {
  }

  /** With an empty blacklist every frontier is eligible. */
  lemma {:induction false} EmptyBlacklistAllEligible(frontiers: seq<Frontier>, res: real)
    ensures EligibleCount(frontiers, [], res) == |frontiers|
  {
    if frontiers != [] {
      EmptyBlacklistAllEligible(frontiers[1..], res);
    }
  }

  /** Every frontier blacklisted: the blacklist is cleared and the counter goes up
      by exactly one when some frontier is reset-worthy and the cap is not reached,
      after which every frontier is eligible again; otherwise the call stops. */
  lemma ExhaustedStep(s: PlannerState, frontiers: seq<Frontier>, res: real, now: real,
                      timeout: real, noise: Point)
    requires res > 0.0 && frontiers != []
    requires forall j :: 0 <= j < |frontiers| ==> OnBlacklist(s.blacklist, frontiers[j].centroid, res)
    ensures var st := PlanStep(s, frontiers, res, now, timeout, noise);
      (st.Continue? <==> AnyResetCandidate(frontiers, res) && s.countSoar < MaxResets) &&
      (st.Continue? ==>
        st.next == s.(blacklist := [], countSoar := s.countSoar + 1) &&
        EligibleCount(frontiers, st.next.blacklist, res) == |frontiers|) &&
      (st.Done? ==> st == Done(s.(exploring := false), Stopped))
  {
    EmptyBlacklistAllEligible(frontiers, res);
  }

  /** When some frontier is not blacklisted, the goal is the centroid of the first
      such frontier in list order, every earlier centroid is blacklisted, and the
      call does not stop. */
  lemma SelectionStep(s: PlannerState, frontiers: seq<Frontier>, res: real, now: real,
                      timeout: real, noise: Point, j: nat)
    requires res > 0.0
    requires j < |frontiers| && !OnBlacklist(s.blacklist, frontiers[j].centroid, res)
    ensures var i := FindEligible(frontiers, s.blacklist, res);
      var st := PlanStep(s, frontiers, res, now, timeout, noise);
      i <= j && !OnBlacklist(s.blacklist, frontiers[i].centroid, res) &&
      (forall k :: 0 <= k < i ==> OnBlacklist(s.blacklist, frontiers[k].centroid, res)) &&
      st.next.prevGoal == frontiers[i].centroid &&
      (st.Done? ==> st.outcome != Stopped) &&
      (st.Done? && st.outcome.Dispatch? ==> st.outcome.target == Perturb(frontiers[i].centroid, noise))
  {
  }

  /** A rejection (geofence, size, either dead end, or the progress timeout)
      appends exactly the selected centroid to the end of the blacklist, which
      then covers it, so the eligible count strictly shrinks; nothing is
      appended otherwise. */
  lemma RejectionStep(s: PlannerState, frontiers: seq<Frontier>, res: real, now: real,
                      timeout: real, noise: Point)
    requires res > 0.0
    requires FindEligible(frontiers, s.blacklist, res) < |frontiers|
    ensures var i := FindEligible(frontiers, s.blacklist, res);
      var c := frontiers[i].centroid;
      var st := PlanStep(s, frontiers, res, now, timeout, noise);
      (st.Continue? <==> Rejected(frontiers[i], res, now, st.next.lastProgress, timeout)) &&
      (st.Continue? ==>
        st.next.blacklist == s.blacklist + [c] &&
        OnBlacklist(st.next.blacklist, c, res) &&
        EligibleCount(frontiers, st.next.blacklist, res) < EligibleCount(frontiers, s.blacklist, res)) &&
      (st.Done? ==> st.next.blacklist == s.blacklist) &&
      st.next.countSoar == s.countSoar && st.next.exploring == s.exploring
  {
    var i := FindEligible(frontiers, s.blacklist, res);
    AppendedIsOnBlacklist(s.blacklist, frontiers[i].centroid, res);
    EligibleDrops(frontiers, s.blacklist, i, res);
  }

  /** The progress monitor: prev_goal_ is overwritten with the selected centroid
      whether or not it is then rejected; the progress time and distance are
      refreshed exactly when the goal changed or came closer; a goal equal to the
      previous one is never dispatched again, and a new goal that passes every
      check always is. */
  lemma ProgressStep(s: PlannerState, frontiers: seq<Frontier>, res: real, now: real,
                     timeout: real, noise: Point)
    requires res > 0.0
    requires FindEligible(frontiers, s.blacklist, res) < |frontiers|
    ensures var f := frontiers[FindEligible(frontiers, s.blacklist, res)];
      var st := PlanStep(s, frontiers, res, now, timeout, noise);
      var progressed := !Same(s.prevGoal, f.centroid) || s.prevDistance > f.minDistance;
      st.next.prevGoal == f.centroid &&
      (progressed ==> st.next.lastProgress == now && st.next.prevDistance == f.minDistance) &&
      (!progressed ==> st.next.lastProgress == s.lastProgress && st.next.prevDistance == s.prevDistance) &&
      (st.Done? && Same(s.prevGoal, f.centroid) ==> st.outcome == NoOp) &&
      (st.Done? && !Same(s.prevGoal, f.centroid) ==> st.outcome.Dispatch?)
  {
  }

  /** The watchdog: the same goal, no closer than before and pursued for longer
      than the timeout, is blacklisted on this pass. */
  lemma StalledGoalIsBlacklisted(s: PlannerState, frontiers: seq<Frontier>, res: real, now: real,
                                 timeout: real, noise: Point)
    requires res > 0.0
    requires FindEligible(frontiers, s.blacklist, res) < |frontiers|
    requires var f := frontiers[FindEligible(frontiers, s.blacklist, res)];
      Same(s.prevGoal, f.centroid) && s.prevDistance <= f.minDistance &&
      TimedOut(now, s.lastProgress, timeout)
    ensures var c := frontiers[FindEligible(frontiers, s.blacklist, res)].centroid;
      PlanStep(s, frontiers, res, now, timeout, noise) ==
        Continue(s.(prevGoal := c, blacklist := s.blacklist + [c]))
  {
  }
}
