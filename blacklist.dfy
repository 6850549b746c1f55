/** The frontier blacklist and its membership test (Explore::goalOnBlacklist). */
module Blacklist {
  import opened Geometry

  /** Tolerance of the membership test, in map cells. */
  const Tolerance: real := 10.0

  /** goal lies inside the rectangular window of Tolerance cells around entry,
      independently on each axis. */
  function InWindow(goal: Point, entry: Point, res: real): (r: bool)
    ensures r ==> res > 0.0
    ensures res > 0.0 && goal == entry ==> r
  {
    Abs(goal.x - entry.x) < Tolerance * res && Abs(goal.y - entry.y) < Tolerance * res
  }

  /** goalOnBlacklist: scans the blacklist front to back and answers true at the
      first entry whose window holds goal. */
  function OnBlacklist(blacklist: seq<Point>, goal: Point, res: real): (r: bool)
    ensures r <==> exists i :: 0 <= i < |blacklist| && InWindow(goal, blacklist[i], res)
  {
    if blacklist == [] then false
    else if InWindow(goal, blacklist[0], res) then true
    else
      var rest := OnBlacklist(blacklist[1..], goal, res);
      assert forall i :: 1 <= i < |blacklist| ==> blacklist[i] == blacklist[1..][i - 1];
      rest
  }

  /** Appending an entry keeps every earlier answer and adds the new window. */
  lemma OnBlacklistAppend(blacklist: seq<Point>, p: Point, goal: Point, res: real)
    ensures OnBlacklist(blacklist + [p], goal, res)
        <==> OnBlacklist(blacklist, goal, res) || InWindow(goal, p, res)
  {
    var bl := blacklist + [p];
    assert bl[|blacklist|] == p;
    assert forall i :: 0 <= i < |blacklist| ==> bl[i] == blacklist[i];
  }

  /** With a positive resolution an appended point is afterwards on the blacklist. */
  lemma AppendedIsOnBlacklist(blacklist: seq<Point>, p: Point, res: real)
    requires res > 0.0
    ensures OnBlacklist(blacklist + [p], p, res)
  {
    OnBlacklistAppend(blacklist, p, p, res);
  }

  /** An entry shifted by less than the tolerance on each axis still covers the
      original point (an aborted, perturbed goal covers its centroid). */
  lemma ShiftedEntryCovers(blacklist: seq<Point>, p: Point, dx: real, dy: real, res: real)
    requires Abs(dx) < Tolerance * res && Abs(dy) < Tolerance * res
    ensures OnBlacklist(blacklist + [Point(p.x + dx, p.y + dy)], p, res)
  {
    OnBlacklistAppend(blacklist, Point(p.x + dx, p.y + dy), p, res);
  }

  /** The window is a square, not a disc: at a resolution of 0.05 the window is
      0.5 wide on each axis, and a point 0.45 off on both axes (about 0.64 away)
      is still covered. */
  lemma WindowIsRectangular()
    ensures OnBlacklist([Point(0.0, 0.0)], Point(0.45, 0.45), 0.05)
    ensures Dist2(Point(0.0, 0.0), Point(0.45, 0.45)) > (Tolerance * 0.05) * (Tolerance * 0.05)
  {
  }
}
