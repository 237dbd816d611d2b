/**
 * Train lines (src/models/train_lines.py): the ordered list of stations a line
 * serves, its selection state in the sidebar, and the stepwise route drawn
 * between consecutive stations.
 */
module TrainLines {

  import opened Wrappers
  import opened Geometry
  import opened Seqs
  import opened Stations

  /** An RGB colour tuple. */
  datatype Colour = Colour(r: int, g: int, b: int)

  /** Half the side of the square clickable selector around a line's sidebar circle. */
  const SelectorHalfSide: int := 20

  /** The clickable area `set_sidebar_position` builds around a sidebar centre. */
  function SelectorRect(center: Point): (r: Rect)
    ensures r.width == 2 * SelectorHalfSide && r.height == 2 * SelectorHalfSide
    ensures r.left + SelectorHalfSide == center.x && r.top + SelectorHalfSide == center.y
  {
    Rect(center.x - SelectorHalfSide, center.y - SelectorHalfSide, 2 * SelectorHalfSide, 2 * SelectorHalfSide)
  }

  /** The selector catches exactly the clicks in the 40 x 40 square around the centre, right and bottom edges excluded. */
  lemma SelectorRectHits(center: Point, p: Point)
    ensures SelectorRect(center).CollidePoint(p) <==>
      && center.x - 20 <= p.x < center.x + 20
      && center.y - 20 <= p.y < center.y + 20
    ensures SelectorRect(center).CollidePoint(center)
  {
  }

  class TrainLine {
    const color: Colour
    /** The stations the line serves, in connection order. */
    var stations: seq<Station>
    /** Whether the line is the one currently selected in the sidebar. */
    var active: bool
    var blocked: bool
    var sidebarCenter: Option<Point>
    var sidebarRect: Option<Rect>

    constructor (color: Colour)
      ensures this.color == color && stations == []
      ensures !active && !blocked && sidebarCenter == None && sidebarRect == None
    {
      this.color := color;
      stations := [];
      active := false;
      blocked := false;
      sidebarCenter := None;
      sidebarRect := None;
    }

    /** `set_sidebar_position`: records the centre and the selector rectangle around it. */
    method SetSidebarPosition(center: Point)
      modifies this
      ensures sidebarCenter == Some(center) && sidebarRect == Some(SelectorRect(center))
      ensures stations == old(stations) && active == old(active) && blocked == old(blocked)
    {
      sidebarCenter := Some(center);
      sidebarRect := Some(SelectorRect(center));
    }

    /** `toggle_active`: flips the selection flag and nothing else. */
    method ToggleActive()
      modifies this
      ensures active == !old(active)
      ensures stations == old(stations) && blocked == old(blocked)
      ensures sidebarCenter == old(sidebarCenter) && sidebarRect == old(sidebarRect)
    {
      active := !active;
    }

    /**
     * `add_connection`: appends each of the two stations that the line does not
     * serve yet (by identity), first station1, then station2.
     */
    method AddConnection(station1: Station, station2: Station)
      modifies this
      ensures stations == old(stations)
                          + (if station1 in old(stations) then [] else [station1])
                          + (if station2 in old(stations) || station2 == station1 then [] else [station2])
      ensures station1 in stations && station2 in stations
      ensures |old(stations)| <= |stations| <= |old(stations)| + 2
      ensures stations[..|old(stations)|] == old(stations)
      ensures forall s :: s in stations <==> s in old(stations) || s == station1 || s == station2
      ensures NoDuplicates(old(stations)) ==> NoDuplicates(stations)
      ensures active == old(active) && blocked == old(blocked)
      ensures sidebarCenter == old(sidebarCenter) && sidebarRect == old(sidebarRect)
    {
      if station1 !in stations {
        AppendAbsentKeepsDistinct(stations, station1);
        stations := stations + [station1];
      }
      if station2 !in stations {
        AppendAbsentKeepsDistinct(stations, station2);
        stations := stations + [station2];
      }
    }
  }

  /** Appending an element that is absent cannot create a duplicate. */
  lemma AppendAbsentKeepsDistinct<T>(s: seq<T>, x: T)
    requires x !in s
    ensures NoDuplicates(s) ==> NoDuplicates(s + [x])
  {
    if NoDuplicates(s) {
      forall i, j | 0 <= i < j < |s + [x]| ensures (s + [x])[i] != (s + [x])[j] {
        if j == |s| {
          assert (s + [x])[i] == s[i];
        }
      }
    }
  }

  /** Toggling a line twice restores its selection state. */
  method ToggleTwice(line: TrainLine)
    modifies line
    ensures line.active == old(line.active)
    ensures line.stations == old(line.stations)
  {
    line.ToggleActive();
    line.ToggleActive();
  }

  /**
   * `offset_path` for the first line on a segment (offset index 0), which
   * draws the path exactly as computed.
   */
  function OffsetPath(path: seq<Point>, offsetIndex: int): (r: seq<Point>)
    requires offsetIndex == 0
    ensures r == path
  {
    path
  }

  /** Two points a king move apart: each coordinate changes by at most one, and the point moves. */
  predicate KingStep(p: Point, q: Point)
  {
    Abs(q.x - p.x) <= 1 && Abs(q.y - p.y) <= 1 && p != q
  }

  /** One step of -1 or +1 from a towards b (a != b). */
  function Toward(a: int, b: int): (r: int)
    ensures Abs(r) == 1
    ensures (b > a ==> r == 1) && (b <= a ==> r == -1)
  {
    if b > a then 1 else -1
  }

  /**
   * One iteration of the routing loop from p (not yet at end). The step moves
   * towards end on each axis without passing it, and brings the Chebyshev
   * distance down by exactly one.
   */
  function Step(p: Point, end: Point): (r: Point)
    requires p != end
    ensures KingStep(p, r)
    ensures Chebyshev(r, end) == Chebyshev(p, end) - 1
    ensures (p.x <= r.x <= end.x || end.x <= r.x <= p.x) && (p.y <= r.y <= end.y || end.y <= r.y <= p.y)
  {
    if Abs(end.x - p.x) > Abs(end.y - p.y) then
      Point(p.x + Toward(p.x, end.x), p.y)
    else if Abs(end.y - p.y) > Abs(end.x - p.x) then
      Point(p.x, p.y + Toward(p.y, end.y))
    else
      Point(p.x + Toward(p.x, end.x), p.y + Toward(p.y, end.y))
  }

  /**
   * A walk of king steps, each one grid step closer (in Chebyshev distance) to
   * end, that stays inside the box spanned by start and end.
   */
  predicate ApproachingWalk(path: seq<Point>, start: Point, end: Point)
  {
    && (forall k :: 0 <= k < |path| - 1 ==> KingStep(path[k], path[k + 1]))
    && (forall k :: 0 <= k < |path| - 1 ==> Chebyshev(path[k + 1], end) == Chebyshev(path[k], end) - 1)
    && (forall k :: 0 <= k < |path| ==> InBox(path[k], start, end))
  }

  /** Extending a walk that has not reached end by one Step keeps it approaching. */
  lemma ApproachingWalkStep(path: seq<Point>, start: Point, end: Point)
    requires |path| >= 1 && path[|path| - 1] != end
    requires ApproachingWalk(path, start, end)
    ensures ApproachingWalk(path + [Step(path[|path| - 1], end)], start, end)
  {
    var last := path[|path| - 1];
    var next := path + [Step(last, end)];
    assert InBox(last, start, end);
    forall k | 0 <= k < |next| - 1
      ensures KingStep(next[k], next[k + 1])
      ensures Chebyshev(next[k + 1], end) == Chebyshev(next[k], end) - 1
    {
      if k < |path| - 1 {
        assert next[k] == path[k] && next[k + 1] == path[k + 1];
      }
    }
  }

  /**
   * `calculate_simplified_path`: walk from start towards end one grid step at a
   * time, horizontally while the x gap is the larger, vertically while the y
   * gap is, diagonally when they are equal, recording every point.
   */
  method CalculateSimplifiedPath(start: Point, end: Point) returns (path: seq<Point>)
    ensures |path| == Chebyshev(start, end) + 1
    ensures path[0] == start && path[|path| - 1] == end
    ensures forall k :: 0 <= k < |path| - 1 ==> KingStep(path[k], path[k + 1])
    ensures forall k :: 0 <= k < |path| - 1 ==> Chebyshev(path[k + 1], end) == Chebyshev(path[k], end) - 1
    ensures forall k :: 0 <= k < |path| ==> InBox(path[k], start, end)
  {
    path := [start];
    var x1, y1 := start.x, start.y;
    while Point(x1, y1) != end
      invariant |path| >= 1 && path[0] == start && path[|path| - 1] == Point(x1, y1)
      invariant |path| + Chebyshev(Point(x1, y1), end) == Chebyshev(start, end) + 1
      invariant ApproachingWalk(path, start, end)
      decreases Chebyshev(Point(x1, y1), end)
    {
      var here := Point(x1, y1);
      if Abs(end.x - x1) > Abs(end.y - y1) {
        x1 := x1 + Toward(x1, end.x);
      } else if Abs(end.y - y1) > Abs(end.x - x1) {
        y1 := y1 + Toward(y1, end.y);
      } else {
        x1 := x1 + Toward(x1, end.x);
        y1 := y1 + Toward(y1, end.y);
      }
      assert Point(x1, y1) == Step(here, end);
      ApproachingWalkStep(path, start, end);
      path := path + [Point(x1, y1)];
    }
  }
}
