/** Frontiers, the goal policy that rejects them, and the scans makePlan runs over
    the cost-sorted frontier list. */
module Frontiers {
  import opened Geometry
  import opened Blacklist

  /** A frontier as the search returns it; only the fields the planner reads.
      size is in map cells, minDistance in map units. */
  datatype Frontier = Frontier(centroid: Point, size: real, minDistance: real)

  /** Geofence of the maze, in map units on each axis. */
  const MazeBound: real := 5.8
  /** Largest accepted frontier extent, in map units (the cell limit is this over the resolution). */
  const MaxExtent: real := 10.0

  /** Beyond the geofence on either side of either axis. */
  function OutOfMaze(p: Point): (r: bool)
    ensures r <==> Abs(p.x) > MazeBound || Abs(p.y) > MazeBound
  {
    p.x > MazeBound || p.y > MazeBound || p.x < -MazeBound || p.y < -MazeBound
  }

  /** Larger than MaxExtent map units: the size in cells times the resolution. */
  function Oversized(f: Frontier, res: real): (r: bool)
    requires res > 0.0
    ensures r <==> f.size * res > MaxExtent
  {
    ScaleByResolution(f.size, res);
    f.size > MaxExtent / res
  }

  /** Compares a size in cells with the cell limit MaxExtent / res. */
  lemma ScaleByResolution(size: real, res: real)
    requires res > 0.0
    ensures size > MaxExtent / res <==> size * res > MaxExtent
  {
  }

  /** Known dead end: the open square of side 1 around (0.5, -6). */
  function InTrapA(p: Point): (r: bool)
    ensures r <==> Abs(p.x - 0.5) < 0.5 && Abs(p.y + 6.0) < 0.5
    ensures r ==> !InTrapB(p)
  {
    (p.x > 0.0 && p.x < 1.0) && (p.y > -6.5 && p.y < -5.5)
  }

  /** Known dead end: the open square of side 1 around (-0.5, 6). */
  function InTrapB(p: Point): (r: bool)
    ensures r <==> Abs(p.x + 0.5) < 0.5 && Abs(p.y - 6.0) < 0.5
  {
    (p.x > -1.0 && p.x < 0.0) && (p.y > 5.5 && p.y < 6.5)
  }

  /** No progress towards the current goal for longer than the timeout. */
  function TimedOut(now: real, lastProgress: real, timeout: real): (r: bool)
    ensures r && timeout >= 0.0 ==> now > lastProgress
    ensures now <= lastProgress + timeout ==> !r
  {
    now - lastProgress > timeout
  }

  /** The five reasons makePlan blacklists the selected frontier, in source order. */
  function Rejected(f: Frontier, res: real, now: real, lastProgress: real, timeout: real): (r: bool)
    requires res > 0.0
    // a frontier that is accepted would also justify a reset
    ensures !r ==> ResetCandidate(f, res) && !OutOfMaze(f.centroid)
    // inside the geofence and on time, rejection is exactly the reset test failing
    ensures !OutOfMaze(f.centroid) && !TimedOut(now, lastProgress, timeout) ==> (r <==> !ResetCandidate(f, res))
  {
    OutOfMaze(f.centroid) || Oversized(f, res) || InTrapA(f.centroid) || InTrapB(f.centroid)
    || TimedOut(now, lastProgress, timeout)
  }

  /** A frontier that makes clearing the blacklist worthwhile: small enough and
      in neither dead end. (The geofence is not consulted here.) */
  function ResetCandidate(f: Frontier, res: real): (r: bool)
    requires res > 0.0
    ensures r ==> f.size * res <= MaxExtent
    ensures r <==> !Oversized(f, res) && !InTrapA(f.centroid) && !InTrapB(f.centroid)
  {
    !(Oversized(f, res) || InTrapA(f.centroid) || InTrapB(f.centroid))
  }

  /** The reset heuristic's verdict over the whole list. */
  function AnyResetCandidate(frontiers: seq<Frontier>, res: real): (r: bool)
    requires res > 0.0
    ensures r ==> frontiers != []
    ensures frontiers != [] && ResetCandidate(frontiers[0], res) ==> r
  {
    exists i :: 0 <= i < |frontiers| && ResetCandidate(frontiers[i], res)
  }

  /** std::find_if_not over goalOnBlacklist: the index of the first frontier whose
      centroid is not blacklisted, or |frontiers| (the end iterator) if none is. */
  function FindEligible(frontiers: seq<Frontier>, blacklist: seq<Point>, res: real): (i: nat)
    ensures i <= |frontiers|
    ensures forall j :: 0 <= j < i ==> OnBlacklist(blacklist, frontiers[j].centroid, res)
    ensures i < |frontiers| ==> !OnBlacklist(blacklist, frontiers[i].centroid, res)
  {
    if frontiers == [] then 0
    else if !OnBlacklist(blacklist, frontiers[0].centroid, res) then 0
    else 1 + FindEligible(frontiers[1..], blacklist, res)
  }

  /** The number of frontiers whose centroid is not blacklisted; zero exactly when
      the selection finds nothing. */
  function EligibleCount(frontiers: seq<Frontier>, blacklist: seq<Point>, res: real): (n: nat)
    ensures n <= |frontiers|
    ensures n == 0 <==> FindEligible(frontiers, blacklist, res) == |frontiers|
  {
    if frontiers == [] then 0
    else (if OnBlacklist(blacklist, frontiers[0].centroid, res) then 0 else 1)
         + EligibleCount(frontiers[1..], blacklist, res)
  }

  /** Appending to the blacklist never makes a frontier eligible. */
  lemma {:induction false} EligibleMonotone(frontiers: seq<Frontier>, blacklist: seq<Point>, p: Point, res: real)
    ensures EligibleCount(frontiers, blacklist + [p], res) <= EligibleCount(frontiers, blacklist, res)
  {
    if frontiers != [] {
      OnBlacklistAppend(blacklist, p, frontiers[0].centroid, res);
      EligibleMonotone(frontiers[1..], blacklist, p, res);
    }
  }

  /** Blacklisting the centroid of an eligible frontier strictly shrinks the
      eligible count: the measure that bounds the replanning loop. */
  lemma {:induction false} EligibleDrops(frontiers: seq<Frontier>, blacklist: seq<Point>, i: nat, res: real)
    requires res > 0.0
    requires i < |frontiers| && !OnBlacklist(blacklist, frontiers[i].centroid, res)
    ensures EligibleCount(frontiers, blacklist + [frontiers[i].centroid], res)
          < EligibleCount(frontiers, blacklist, res)
  {
    var p := frontiers[i].centroid;
    OnBlacklistAppend(blacklist, p, frontiers[0].centroid, res);
    if i == 0 {
      AppendedIsOnBlacklist(blacklist, p, res);
      EligibleMonotone(frontiers[1..], blacklist, p, res);
    } else {
      assert frontiers[1..][i - 1] == frontiers[i];
      EligibleDrops(frontiers[1..], blacklist, i - 1, res);
    }
  }

  /** The reset heuristic of makePlan: a loop over all frontiers that sets reset
      once it meets a frontier that is small and outside both dead ends. */
  method ResetWorthy(frontiers: seq<Frontier>, res: real) returns (reset: bool)
    requires res > 0.0
    ensures reset <==> AnyResetCandidate(frontiers, res)
  {
    reset := false;
    for i := 0 to |frontiers|
      invariant reset <==> exists j :: 0 <= j < i && ResetCandidate(frontiers[j], res)
    {
      if !(Oversized(frontiers[i], res) || InTrapA(frontiers[i].centroid) || InTrapB(frontiers[i].centroid)) {
        reset := true;
      }
    }
  }
}
