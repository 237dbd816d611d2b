/**
 * River generation (maps/map_utils.py): the centre line of a river from one
 * screen border to a different one, and the thickness profile whose maximum
 * becomes the width of the river polygon.
 */
module MapUtils {

  import opened Wrappers
  import opened Geometry
  import opened Seqs

  datatype Border = Top | Bottom | Left | Right

  const AllBorders: seq<Border> := [Top, Bottom, Left, Right]

  /** A point with floating-point coordinates, modelled as exact reals. */
  datatype RPoint = RPoint(x: real, y: real)

  /** Why `generate_line` raises ValueError. */
  datatype LineError =
    | EmptyRandRange   // `random.randint(a, b)` with a > b
    | UnknownCurveType // a curve type other than linear, parabolic, sine or cosine
      /** The parabolic branch divides by (start.x - mid_x)^2, which is zero when start.x == end.x. */
    | DivisionByZero(endpoints: Endpoints)

  /** The two borders a river joins and its endpoints on them. */
  datatype Endpoints = Endpoints(startBorder: Border, endBorder: Border, start: Point, end: Point)

  /** What `generate_line` draws and returns: the endpoints and the 100 points of the centre line. */
  datatype RiverLine = RiverLine(endpoints: Endpoints, points: seq<RPoint>)

  const NumPoints: nat := 100

  /** The curve types `generate_line` accepts. */
  predicate KnownCurve(curveType: string)
  {
    curveType == "linear" || curveType == "parabolic" || curveType == "sine" || curveType == "cosine"
  }

  /** `list(zip(xs, ys))` for two lists of one length. */
  function Zip(xs: seq<real>, ys: seq<real>): (r: seq<RPoint>)
    requires |xs| == |ys|
    ensures |r| == |xs|
    ensures forall i :: 0 <= i < |xs| ==> r[i] == RPoint(xs[i], ys[i])
  {
    seq(|xs|, i requires 0 <= i < |xs| => RPoint(xs[i], ys[i]))
  }

  /** The spacing of `np.linspace(a, b, n)`: (b - a) / (n - 1), for two or more values. */
  function LinspaceStep(a: real, b: real, n: nat): (step: real)
    ensures n >= 2 ==> ((n - 1) as real) * step == b - a
    ensures n >= 2 && a <= b ==> step >= 0.0
    ensures n >= 2 && b <= a ==> step <= 0.0
  {
    if n < 2 then 0.0 else (b - a) / ((n - 1) as real)
  }

  /** `np.linspace(a, b, n)`: n evenly spaced values from a to b, both included (just [a] when n is 1). */
  function Linspace(a: real, b: real, n: nat): (r: seq<real>)
    ensures |r| == n
    ensures forall i :: 0 <= i < n ==> r[i] == a + (i as real) * LinspaceStep(a, b, n)
  {
    seq(n, i requires 0 <= i < n => a + (i as real) * LinspaceStep(a, b, n))
  }

  /** The first value is a and, from two points on, the last is b. */
  lemma LinspaceEnds(a: real, b: real, n: nat)
    ensures n >= 1 ==> Linspace(a, b, n)[0] == a
    ensures n >= 2 ==> Linspace(a, b, n)[n - 1] == b
  {
  }

  /** Every value lies between the two endpoints. */
  lemma LinspaceBetween(a: real, b: real, n: nat, i: nat)
    requires i < n
    ensures a <= b ==> a <= Linspace(a, b, n)[i] <= b
    ensures b <= a ==> b <= Linspace(a, b, n)[i] <= a
  {
    if n >= 2 {
      var step := LinspaceStep(a, b, n);
      var t := i as real;
      var k := (n - 1) as real;
      assert 0.0 <= t <= k;
      assert Linspace(a, b, n)[i] == a + t * step;
      if a <= b {
        ScaleMonotone(t, k, step);
      } else {
        ScaleMonotone(t, k, -step);
      }
    }
  }

  /** With a <= b the values never decrease. */
  lemma LinspaceMonotone(a: real, b: real, n: nat, i: nat, j: nat)
    requires i <= j < n && a <= b
    ensures Linspace(a, b, n)[i] <= Linspace(a, b, n)[j]
  {
    var step := LinspaceStep(a, b, n);
    var r := Linspace(a, b, n);
    assert r[i] == a + (i as real) * step && r[j] == a + (j as real) * step;
    if n >= 2 {
      ScaleMonotone(i as real, j as real, step);
    }
  }

  /** Scaling by a non-negative factor preserves the order of non-negative numbers. */
  lemma ScaleMonotone(t: real, k: real, step: real)
    requires 0.0 <= t <= k && step >= 0.0
    ensures 0.0 <= t * step <= k * step
  {
    assert k * step - t * step == (k - t) * step;
  }

  /** `random.randint(lo, hi)`: any integer of [lo, hi], or ValueError for an empty range. */
  method RandInt(lo: int, hi: int) returns (r: Result<int, LineError>)
    ensures r.Ok? <==> lo <= hi
    ensures r.Ok? ==> lo <= r.value <= hi
    ensures r.Err? ==> r.error == EmptyRandRange
  {
    if lo <= hi {
      var v :| lo <= v <= hi;
      r := Ok(v);
    } else {
      r := Err(EmptyRandRange);
    }
  }

  /** The range of the free coordinate of a start point on border b. */
  function StartRange(b: Border, width: int, height: int, offset: int): (int, int)
  {
    if b == Top || b == Bottom then (-offset, width / 2) else (-offset, height / 2)
  }

  /** The range of the free coordinate of an end point on border b. */
  function EndRange(b: Border, width: int, height: int, offset: int): (int, int)
  {
    if b == Top || b == Bottom then (width / 2, width + offset) else (height / 2, height + offset)
  }

  /** Every randint range that a choice of borders can lead to is non-empty. */
  predicate RangesNonEmpty(width: int, height: int, offset: int)
  {
    forall b :: b in AllBorders ==>
      && StartRange(b, width, height, offset).0 <= StartRange(b, width, height, offset).1
      && EndRange(b, width, height, offset).0 <= EndRange(b, width, height, offset).1
  }

  /** The point on border b, `offset` outside the screen, whose free coordinate is v. */
  function OnBorder(b: Border, v: int, width: int, height: int, offset: int): (p: Point)
    ensures b == Top ==> p == Point(v, -offset)
    ensures b == Bottom ==> p == Point(v, height + offset)
    ensures b == Left ==> p == Point(-offset, v)
    ensures b == Right ==> p == Point(width + offset, v)
  {
    match b
    case Top => Point(v, -offset)
    case Bottom => Point(v, height + offset)
    case Left => Point(-offset, v)
    case Right => Point(width + offset, v)
  }

  /** The endpoint draws of `generate_line`: what the ensures of ChooseEndpoints promises of them. */
  predicate ValidEndpoints(e: Endpoints, width: int, height: int, offset: int)
  {
    var (sLo, sHi) := StartRange(e.startBorder, width, height, offset);
    var (eLo, eHi) := EndRange(e.endBorder, width, height, offset);
    && e.startBorder != e.endBorder
    && (exists v :: sLo <= v <= sHi && e.start == OnBorder(e.startBorder, v, width, height, offset))
    && (exists v :: eLo <= v <= eHi && e.end == OnBorder(e.endBorder, v, width, height, offset))
  }

  /**
   * The first half of `generate_line`: a random start border, a random end
   * border among the other three, and a random endpoint on each; the randint
   * for the start is drawn (and may raise) before the one for the end.
   */
  method ChooseEndpoints(width: int, height: int, offset: int) returns (r: Result<Endpoints, LineError>)
    ensures r.Ok? ==> ValidEndpoints(r.value, width, height, offset)
    ensures r.Err? ==> r.error == EmptyRandRange && !RangesNonEmpty(width, height, offset)
  {
    var borders := AllBorders;
    var startBorder :| startBorder in borders;
    RemoveFirstDistinct(borders, startBorder);
    borders := RemoveFirst(borders, startBorder);
    assert |borders| == 3;
    assert borders[0] in borders;
    var endBorder :| endBorder in borders;

    var (sLo, sHi) := StartRange(startBorder, width, height, offset);
    var sv := RandInt(sLo, sHi);
    if sv.Err? {
      return Err(sv.error);
    }
    var start := OnBorder(startBorder, sv.value, width, height, offset);

    var (eLo, eHi) := EndRange(endBorder, width, height, offset);
    var ev := RandInt(eLo, eHi);
    if ev.Err? {
      return Err(ev.error);
    }
    var end := OnBorder(endBorder, ev.value, width, height, offset);
    assert sLo <= sv.value <= sHi && eLo <= ev.value <= eHi;
    r := Ok(Endpoints(startBorder, endBorder, start, end));
  }

  /**
   * `generate_line`: draws the endpoints, then samples 100 points from start to
   * end. The x values are always evenly spaced from start.x to end.x; a linear
   * river spaces its y values the same way, and the floating-point y values of
   * the parabolic, sine and cosine shapes come from curveY. A parabolic river
   * whose endpoints share their x coordinate raises ZeroDivisionError.
   */
  method GenerateLine(width: int, height: int, curveY: nat -> real, offset: int := 50, curveType: string := "linear")
    returns (r: Result<RiverLine, LineError>)
    ensures r.Err? && r.error == EmptyRandRange ==> !RangesNonEmpty(width, height, offset)
    ensures r.Err? && r.error == UnknownCurveType ==> !KnownCurve(curveType)
    ensures r.Err? && r.error.DivisionByZero? ==>
      var e := r.error.endpoints;
      curveType == "parabolic" && ValidEndpoints(e, width, height, offset) && e.start.x == e.end.x
    ensures !KnownCurve(curveType) ==> r.Err?
    ensures KnownCurve(curveType) && RangesNonEmpty(width, height, offset) ==> r.Ok? || r.error.DivisionByZero?
    ensures KnownCurve(curveType) && curveType != "parabolic" && RangesNonEmpty(width, height, offset) ==> r.Ok?
    ensures r.Ok? ==>
      var line := r.value;
      var e := line.endpoints;
      && KnownCurve(curveType)
      && ValidEndpoints(e, width, height, offset)
      && (curveType == "parabolic" ==> e.start.x != e.end.x)
      && |line.points| == NumPoints
      && line.points[0].x == e.start.x as real
      && line.points[NumPoints - 1].x == e.end.x as real
      && (forall i :: 0 <= i < NumPoints ==> line.points[i].x == Linspace(e.start.x as real, e.end.x as real, NumPoints)[i])
      && (curveType == "linear" ==>
            forall i :: 0 <= i < NumPoints ==> line.points[i].y == Linspace(e.start.y as real, e.end.y as real, NumPoints)[i])
  {
    var endpoints := ChooseEndpoints(width, height, offset);
    if endpoints.Err? {
      return Err(endpoints.error);
    }
    var start, end := endpoints.value.start, endpoints.value.end;

    var xs := Linspace(start.x as real, end.x as real, NumPoints);
    var ys: seq<real>;
    if curveType == "linear" {
      ys := Linspace(start.y as real, end.y as real, NumPoints);
    } else if curveType == "parabolic" || curveType == "sine" || curveType == "cosine" {
      if curveType == "parabolic" && start.x == end.x {
        return Err(DivisionByZero(endpoints.value));
      }
      ys := seq(NumPoints, i requires 0 <= i < NumPoints => curveY(i));
    } else {
      return Err(UnknownCurveType);
    }
    LinspaceEnds(start.x as real, end.x as real, NumPoints);
    r := Ok(RiverLine(endpoints.value, Zip(xs, ys)));
  }

  /**
   * Whenever a river can be drawn at all, the draws can put both endpoints at
   * x = width // 2, on the top and the bottom border: the case in which the
   * parabolic branch divides by zero.
   */
  lemma VerticalRiverReachable(width: int, height: int, offset: int)
    requires RangesNonEmpty(width, height, offset)
    ensures ValidEndpoints(Endpoints(Top, Bottom, Point(width / 2, -offset), Point(width / 2, height + offset)), width, height, offset)
  {
    assert Top in AllBorders && Bottom in AllBorders;
    assert OnBorder(Top, width / 2, width, height, offset) == Point(width / 2, -offset);
    assert OnBorder(Bottom, width / 2, width, height, offset) == Point(width / 2, height + offset);
  }

  /** `generate_thickness`: a ramp from start to mid followed by a ramp from mid to end, n / 2 values each. */
  function GenerateThickness(startThickness: real, midThickness: real, endThickness: real, numSegments: nat): (r: seq<real>)
    ensures |r| == 2 * (numSegments / 2)
  {
    Linspace(startThickness, midThickness, numSegments / 2) + Linspace(midThickness, endThickness, numSegments / 2)
  }

  /**
   * The shape of the profile: from four segments on it starts at start, ends
   * at end and has mid at both middle positions; with two or three segments it
   * is just [start, mid].
   */
  lemma ThicknessProfile(s: real, m: real, e: real, n: nat)
    ensures var r := GenerateThickness(s, m, e, n); var h := n / 2;
      && (n >= 4 ==> r[0] == s && r[|r| - 1] == e && r[h - 1] == m && r[h] == m)
      && (2 <= n < 4 ==> r == [s, m])
  {
    var h := n / 2;
    LinspaceEnds(s, m, h);
    LinspaceEnds(m, e, h);
    var r := GenerateThickness(s, m, e, n);
    if n >= 4 {
      assert r[h - 1] == Linspace(s, m, h)[h - 1];
      assert r[h] == Linspace(m, e, h)[0];
      assert r[|r| - 1] == Linspace(m, e, h)[h - 1];
    }
  }

  /** Every thickness lies between the smallest and the largest of the three given ones. */
  lemma ThicknessBetween(s: real, m: real, e: real, n: nat, i: nat)
    requires i < |GenerateThickness(s, m, e, n)|
    ensures GenerateThickness(s, m, e, n)[i] <= Max(s, Max(m, e))
  {
    var h := n / 2;
    if i < h {
      LinspaceBetween(s, m, h, i);
    } else {
      LinspaceBetween(m, e, h, i - h);
    }
  }

  /** `max(a, b)`. */
  function Max(a: real, b: real): (r: real)
    ensures r >= a && r >= b && (r == a || r == b)
  {
    if a >= b then a else b
  }

  /** `max(values)` of a non-empty list. */
  function MaxOf(values: seq<real>): (r: real)
    requires |values| > 0
    ensures r in values
    ensures forall i :: 0 <= i < |values| ==> values[i] <= r
  {
    if |values| == 1 then values[0]
    else Max(values[0], MaxOf(values[1..]))
  }

  /** Why `generate_river` raises: fewer than two path points make no line (or leave no thickness to take a maximum of). */
  datatype RiverError = TooFewPoints

  /**
   * `generate_river` up to the buffering: the distance the centre line is
   * buffered by, the largest value of the thickness profile for the path.
   */
  function RiverBufferDistance(path: seq<RPoint>, startThickness: real, midThickness: real, endThickness: real): (r: Result<real, RiverError>)
    ensures r.Err? <==> |path| < 2
    ensures r.Ok? ==> r.value in GenerateThickness(startThickness, midThickness, endThickness, |path|)
  {
    if |path| < 2 then Err(TooFewPoints)
    else Ok(MaxOf(GenerateThickness(startThickness, midThickness, endThickness, |path|)))
  }

  /**
   * The buffer distance is the largest of the three thicknesses for a path of
   * four or more points, and max(start, mid) for two or three points.
   */
  lemma BufferDistanceIsMax(path: seq<RPoint>, s: real, m: real, e: real)
    requires |path| >= 2
    ensures |path| >= 4 ==> RiverBufferDistance(path, s, m, e) == Ok(Max(s, Max(m, e)))
    ensures |path| < 4 ==> RiverBufferDistance(path, s, m, e) == Ok(Max(s, m))
  {
    var n := |path|;
    var r := GenerateThickness(s, m, e, n);
    var d := MaxOf(r);
    ThicknessProfile(s, m, e, n);
    if n >= 4 {
      var k :| 0 <= k < |r| && r[k] == d;
      ThicknessBetween(s, m, e, n, k);
      assert r[0] <= d && r[n / 2] <= d && r[|r| - 1] <= d;
    } else {
      assert r[0] <= d && r[1] <= d;
    }
  }
}
