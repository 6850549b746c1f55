/** Concrete runs of the planner from the state the node starts in. */
module Scenarios {
  import opened Geometry
  import opened Blacklist
  import opened Frontiers
  import opened Planner

  /** The state right after construction. */
  const Start: PlannerState := PlannerState([], Point(0.0, 0.0), 0.0, 0.0, 0, true)

  /** Cost order decides: with (2,2) listed first it is dispatched at once and the
      out-of-maze (6,6) further down the list is never examined, so it stays off
      the blacklist. */
  lemma FirstEligibleIsDispatched(noise: Point)
    ensures var fs := [Frontier(Point(2.0, 2.0), 3.0, 1.0), Frontier(Point(6.0, 6.0), 1.0, 2.0)];
      Plan(Start, fs, 0.05, 10.0, 30.0, noise)
        == (Start.(prevGoal := Point(2.0, 2.0), lastProgress := 10.0, prevDistance := 1.0),
            Dispatch(Perturb(Point(2.0, 2.0), noise)))
  {
  }

  /** With (6,6) listed first it is rejected by the geofence and blacklisted, and
      the next pass dispatches (2,2). */
  lemma OutOfMazeIsSkipped(noise: Point)
    ensures var fs := [Frontier(Point(6.0, 6.0), 1.0, 2.0), Frontier(Point(2.0, 2.0), 3.0, 1.0)];
      Plan(Start, fs, 0.05, 10.0, 30.0, noise)
        == (Start.(blacklist := [Point(6.0, 6.0)], prevGoal := Point(2.0, 2.0),
                   lastProgress := 10.0, prevDistance := 1.0),
            Dispatch(Perturb(Point(2.0, 2.0), noise)))
  {
    var fs := [Frontier(Point(6.0, 6.0), 1.0, 2.0), Frontier(Point(2.0, 2.0), 3.0, 1.0)];
    var mid := Start.(blacklist := [Point(6.0, 6.0)], prevGoal := Point(6.0, 6.0),
                      lastProgress := 10.0, prevDistance := 2.0);
    assert FindEligible(fs, [], 0.05) == 0;
    assert PlanStep(Start, fs, 0.05, 10.0, 30.0, noise) == Continue(mid);
    PlanContinues(Start, mid, fs, 0.05, 10.0, 30.0, noise);
    assert !OnBlacklist([Point(6.0, 6.0)], Point(2.0, 2.0), 0.05);
    assert OnBlacklist([Point(6.0, 6.0)], Point(6.0, 6.0), 0.05);
    assert FindEligible(fs, mid.blacklist, 0.05) == 1;
    PlanFinishes(mid, fs, 0.05, 10.0, 30.0, noise);
  }

  /** Everything blacklisted, but a frontier of 50 cells at resolution 0.1 (limit
      100 cells) outside both dead ends: the blacklist is cleared and the reset
      counter goes up by one. */
  lemma SmallFrontierResets(s: PlannerState, now: real, timeout: real, noise: Point)
    requires s.blacklist == [Point(1.0, 1.0)] && s.countSoar < MaxResets
    ensures PlanStep(s, [Frontier(Point(1.0, 1.0), 50.0, 0.5)], 0.1, now, timeout, noise)
         == Continue(s.(blacklist := [], countSoar := s.countSoar + 1))
  {
  }

  /** After the fifth reset the same situation stops exploration. */
  lemma SixthExhaustionStops(s: PlannerState, now: real, timeout: real, noise: Point)
    requires s.blacklist == [Point(1.0, 1.0)] && s.countSoar == MaxResets
    ensures PlanStep(s, [Frontier(Point(1.0, 1.0), 50.0, 0.5)], 0.1, now, timeout, noise)
         == Done(s.(exploring := false), Stopped)
  {
  }

  /** The geofence is strict: 5.8 is inside, anything beyond it is out. */
  lemma GeofenceBoundary(e: real)
    requires e > 0.0
    ensures !OutOfMaze(Point(MazeBound, MazeBound)) && !OutOfMaze(Point(MazeBound, -MazeBound))
    ensures !OutOfMaze(Point(-MazeBound, MazeBound)) && !OutOfMaze(Point(-MazeBound, -MazeBound))
    ensures OutOfMaze(Point(MazeBound + e, 0.0)) && OutOfMaze(Point(-MazeBound - e, 0.0))
    ensures OutOfMaze(Point(0.0, MazeBound + e)) && OutOfMaze(Point(0.0, -MazeBound - e))
  {
  }
}
