/**
 * Stations and the station placement engine (src/models/stations.py).
 *
 * The river enters as `river`, the distance from a point to the river polygon
 * (Shapely's `polygon.distance`), which the model leaves uninterpreted. The
 * candidate grid that the game loop shares with `generate_new_station` is the
 * mutable object GridCandidates.
 */
module Stations {

  import opened Wrappers
  import opened Geometry
  import opened Seqs
  import opened Passengers

  /** The station and passenger shapes, in the order the initial placement uses them. */
  const AllShapes: seq<string> := ["circle", "square", "triangle"]

  /** Every station in `stations` is strictly farther than fd from p. */
  predicate FarFromStations(p: Point, stations: seq<Station>, fd: int)
    ensures FarFromStations(p, stations, fd) && fd >= 0 ==>
      forall i :: 0 <= i < |stations| ==> stations[i].Position() != p
  {
    forall i :: 0 <= i < |stations| ==> FartherThan(p, stations[i].Position(), fd)
  }

  /**
   * The placement rule of `generate_new_station`: strictly farther than
   * riverMargin from the river and than fd from every existing station.
   */
  predicate IsValidPlacement(p: Point, river: Point -> real, riverMargin: real, stations: seq<Station>, fd: int)
    ensures IsValidPlacement(p, river, riverMargin, stations, fd) && fd >= 0 ==>
      forall i :: 0 <= i < |stations| ==> stations[i].Position() != p
  {
    river(p) > riverMargin && FarFromStations(p, stations, fd)
  }

  /** The positions of a list of stations. */
  function Positions(stations: seq<Station>): (r: seq<Point>)
    ensures |r| == |stations|
    ensures forall i :: 0 <= i < |stations| ==> r[i] == stations[i].Position()
  {
    seq(|stations|, i requires 0 <= i < |stations| => stations[i].Position())
  }

  /**
   * The lattice `generate_initial_stations` starts from: grid points from fd up to
   * the sidebar and the bottom edge, strictly farther than fd from the river.
   */
  function InitialCandidates(river: Point -> real, fd: int, width: int, height: int,
                             gridSize: int, sidebarWidth: int): (r: seq<Point>)
    requires gridSize != 0
    ensures forall p :: p in r <==>
      && p.x in Range(fd, width - sidebarWidth, gridSize) && p.y in Range(fd, height, gridSize)
      && river(p) > fd as real
  {
    Select(Lattice(Range(fd, width - sidebarWidth, gridSize), Range(fd, height, gridSize)),
           p => river(p) > fd as real)
  }

  class Station {
    const x: int
    const y: int
    /** "circle", "square" or "triangle" for every station the engine creates. */
    const shape: string
    const radius: int := 20
    /** Waiting passengers, oldest first. */
    var passengers: seq<Passenger>
    /** Elapsed time of the last passenger spawn. */
    var spawnTimer: real

    constructor (x: int, y: int, shape: string)
      ensures this.x == x && this.y == y && this.shape == shape
      ensures passengers == [] && spawnTimer == 0.0
    {
      this.x := x;
      this.y := y;
      this.shape := shape;
      passengers := [];
      spawnTimer := 0.0;
    }

    function Position(): Point
    {
      Point(x, y)
    }

    /**
     * `spawn_passenger`: once spawnInterval has passed since the last spawn, and
     * if the coin (`random.random() < 0.5`) comes up, appends one passenger
     * bound for a shape other than this station's, in the next layout slot.
     */
    method SpawnPassenger(elapsedTime: real, spawnInterval: real)
      modifies this
      ensures elapsedTime - old(spawnTimer) < spawnInterval ==>
        passengers == old(passengers) && spawnTimer == old(spawnTimer)
      ensures || (passengers == old(passengers) && spawnTimer == old(spawnTimer))
              || (&& elapsedTime - old(spawnTimer) >= spawnInterval
                  && spawnTimer == elapsedTime
                  && |passengers| == |old(passengers)| + 1
                  && passengers[..|old(passengers)|] == old(passengers)
                  && var p := passengers[|old(passengers)|];
                     && p.shape in AllShapes && p.shape != shape
                     && p == NewPassenger(Position(), p.shape, |old(passengers)|))
    {
      var coin: bool :| true;
      if elapsedTime - spawnTimer >= spawnInterval && coin {
        var own := shape;
        var possibleShapes := Select(AllShapes, s => s != own);
        assert (if own == "circle" then "square" else "circle") in possibleShapes;
        var passengerShape :| passengerShape in possibleShapes;
        passengers := passengers + [NewPassenger(Position(), passengerShape, |passengers|)];
        spawnTimer := elapsedTime;
      }
    }

    /**
     * `contains`, the click hit-test. The triangle test compares the y offset
     * with half the triangle's height, radius * sqrt(3) / 4 (about 8.66 for
     * radius 20); for integer offsets this is exactly 16 * dy * dy <= 3 * radius * radius.
     */
    function Contains(pos: Point): (r: bool)
      ensures shape == "circle" ==> (r <==> DistanceSquared(pos, Position()) <= radius * radius)
      ensures shape == "square" ==> (r <==> Abs(pos.x - x) <= radius && Abs(pos.y - y) <= radius)
      ensures shape == "triangle" ==> (r <==> Abs(pos.x - x) <= radius && Abs(pos.y - y) <= 8)
      ensures shape !in AllShapes ==> !r
      ensures r ==> Abs(pos.x - x) <= radius && Abs(pos.y - y) <= radius
    {
      var dx, dy := pos.x - x, pos.y - y;
      if shape == "circle" then
        CircleBound(dx, dy, radius);
        dx * dx + dy * dy <= radius * radius
      else if shape == "square" then
        x - radius <= pos.x <= x + radius && y - radius <= pos.y <= y + radius
      else if shape == "triangle" then
        TriangleHalfHeight(dy);
        x - radius <= pos.x <= x + radius && 16 * dy * dy <= 3 * radius * radius
      else
        false
    }

    /**
     * `generate_new_station`: keeps the grid points that pass the placement rule,
     * picks one of them at random, removes it from the shared grid and returns a
     * station with a random shape there; with no valid point it returns None and
     * leaves the grid alone.
     */
    static method GenerateNewStation(river: Point -> real, riverMargin: real, forbiddenDistance: int,
                                     existingStations: seq<Station>, grid: GridCandidates)
      returns (station: Option<Station>)
      modifies grid
      ensures station.None? <==>
        forall p :: p in old(grid.points) ==> !IsValidPlacement(p, river, riverMargin, existingStations, forbiddenDistance)
      ensures station.None? ==> grid.points == old(grid.points)
      ensures station.Some? ==>
        var s := station.value;
        && s.Position() in old(grid.points)
        && IsValidPlacement(s.Position(), river, riverMargin, existingStations, forbiddenDistance)
        && (forbiddenDistance >= 0 ==> forall i :: 0 <= i < |existingStations| ==> existingStations[i].Position() != s.Position())
        && grid.points == RemoveFirst(old(grid.points), s.Position())
        && |grid.points| == |old(grid.points)| - 1
        && multiset(grid.points) == multiset(old(grid.points)) - multiset{s.Position()}
        && s.shape in AllShapes
        && fresh(s) && s.passengers == [] && s.spawnTimer == 0.0
    {
      var validPoints := Select(grid.points, p => IsValidPlacement(p, river, riverMargin, existingStations, forbiddenDistance));
      if validPoints != [] {
        var k :| 0 <= k < |validPoints|;
        var p := validPoints[k];
        assert AllShapes[0] in AllShapes;
        var shape :| shape in AllShapes;
        RemoveFirstMultiset(grid.points, p);
        grid.points := RemoveFirst(grid.points, p);
        var s := new Station(p.x, p.y, shape);
        station := Some(s);
      } else {
        assert forall p :: p in grid.points ==> p !in validPoints;
        station := None;
      }
    }

    /**
     * `generate_initial_stations`: builds its own candidate lattice and, for each
     * shape in turn, places a station at a random candidate strictly farther than
     * the forbidden distance from the stations placed so far, skipping the shape
     * when no such candidate is left.
     */
    static method GenerateInitialStations(river: Point -> real, forbiddenDistance: int, width: int, height: int,
                                          gridSize: int := 50, sidebarWidth: int := 200)
      returns (initialStations: seq<Station>)
      requires gridSize != 0
      ensures |initialStations| <= |AllShapes|
      ensures forall i :: 0 <= i < |initialStations| ==> initialStations[i].shape == AllShapes[i]
      ensures forall i :: 0 <= i < |initialStations| ==>
        && initialStations[i].x in Range(forbiddenDistance, width - sidebarWidth, gridSize)
        && initialStations[i].y in Range(forbiddenDistance, height, gridSize)
        && river(initialStations[i].Position()) > forbiddenDistance as real
      ensures forall i, j :: 0 <= i < |initialStations| && 0 <= j < |initialStations| && i != j ==>
        FartherThan(initialStations[i].Position(), initialStations[j].Position(), forbiddenDistance)
      ensures |initialStations| < |AllShapes| ==>
        forall p :: p in InitialCandidates(river, forbiddenDistance, width, height, gridSize, sidebarWidth) ==>
          p in Positions(initialStations) || !FarFromStations(p, initialStations, forbiddenDistance)
      ensures forall st :: st in initialStations ==> fresh(st) && st.passengers == [] && st.spawnTimer == 0.0
    {
      var fd := forbiddenDistance;
      var candidates := InitialCandidates(river, fd, width, height, gridSize, sidebarWidth);
      var gridPoints := candidates;
      initialStations := [];
      for i := 0 to |AllShapes|
        invariant |initialStations| <= i
        invariant ShapesInOrder(initialStations)
        invariant |initialStations| < i ==> forall p :: p in gridPoints ==> !FarFromStations(p, initialStations, fd)
        invariant Covers(candidates, gridPoints, Positions(initialStations))
        invariant PlacedApart(initialStations, fd)
        invariant forall st :: st in initialStations ==> fresh(st)
        invariant Pristine(initialStations)
      {
        var placed := initialStations;
        var validPoints := Select(gridPoints, p => FarFromStations(p, placed, fd));
        if validPoints != [] {
          var k :| 0 <= k < |validPoints|;
          var p := validPoints[k];
          var s := new Station(p.x, p.y, AllShapes[i]);
          CoversStep(candidates, gridPoints, Positions(placed), p);
          PlacedApartSnoc(placed, s, fd);
          PristineSnoc(placed, s);
          ShapesInOrderSnoc(placed, s);
          initialStations := placed + [s];
          assert Positions(initialStations) == Positions(placed) + [p];
          gridPoints := RemoveFirst(gridPoints, p);
        } else {
          assert forall p :: p in gridPoints ==> p !in validPoints;
        }
      }
      PlacedApartPairwise(initialStations, fd);
      forall j | 0 <= j < |initialStations|
        ensures && initialStations[j].x in Range(fd, width - sidebarWidth, gridSize)
                && initialStations[j].y in Range(fd, height, gridSize)
                && river(initialStations[j].Position()) > fd as real
      {
        assert Positions(initialStations)[j] == initialStations[j].Position();
      }
    }
  }

  /** The i-th station has the i-th shape of AllShapes. */
  predicate ShapesInOrder(stations: seq<Station>)
  {
    |stations| <= |AllShapes| && forall j :: 0 <= j < |stations| ==> stations[j].shape == AllShapes[j]
  }

  lemma ShapesInOrderSnoc(stations: seq<Station>, s: Station)
    requires ShapesInOrder(stations) && |stations| < |AllShapes| && s.shape == AllShapes[|stations|]
    ensures ShapesInOrder(stations + [s])
  {
  }

  /** No station of the list has passengers or has spawned any yet. */
  predicate Pristine(stations: seq<Station>)
    reads stations
  {
    forall st :: st in stations ==> st.passengers == [] && st.spawnTimer == 0.0
  }

  lemma PristineSnoc(stations: seq<Station>, s: Station)
    requires Pristine(stations) && s.passengers == [] && s.spawnTimer == 0.0
    ensures Pristine(stations + [s])
  {
  }

  /**
   * Bookkeeping of the initial placement: the remaining grid and the
   * positions placed so far split the candidates between them.
   */
  predicate Covers(candidates: seq<Point>, gridPoints: seq<Point>, placed: seq<Point>)
  {
    && (forall p :: p in gridPoints ==> p in candidates)
    && (forall p :: p in candidates ==> p in gridPoints || p in placed)
    && (forall p :: p in placed ==> p in candidates)
    && |gridPoints| + |placed| == |candidates|
  }

  /** Moving a grid point to the placed positions keeps the split. */
  lemma CoversStep(candidates: seq<Point>, gridPoints: seq<Point>, placed: seq<Point>, p: Point)
    requires Covers(candidates, gridPoints, placed) && p in gridPoints
    ensures Covers(candidates, RemoveFirst(gridPoints, p), placed + [p])
  {
    RemoveFirstMembers(gridPoints, p);
  }

  /** Each station is strictly farther than fd from every station placed before it. */
  predicate PlacedApart(stations: seq<Station>, fd: int)
  {
    forall j :: 0 <= j < |stations| ==> FarFromStations(stations[j].Position(), stations[..j], fd)
  }

  /** Placing a station far from all placed ones keeps the placement apart. */
  lemma PlacedApartSnoc(placed: seq<Station>, s: Station, fd: int)
    requires PlacedApart(placed, fd)
    requires FarFromStations(s.Position(), placed, fd)
    ensures PlacedApart(placed + [s], fd)
  {
    var stations := placed + [s];
    forall j | 0 <= j < |stations|
      ensures FarFromStations(stations[j].Position(), stations[..j], fd)
    {
      if j < |placed| {
        assert stations[..j] == placed[..j];
      } else {
        assert stations[..j] == placed;
      }
    }
  }

  /** A placement kept apart one station at a time is pairwise apart. */
  lemma PlacedApartPairwise(stations: seq<Station>, fd: int)
    requires PlacedApart(stations, fd)
    ensures forall i, j :: 0 <= i < |stations| && 0 <= j < |stations| && i != j ==>
      FartherThan(stations[i].Position(), stations[j].Position(), fd)
  {
    forall i, j | 0 <= i < |stations| && 0 <= j < |stations| && i != j
      ensures FartherThan(stations[i].Position(), stations[j].Position(), fd)
    {
      if i < j {
        assert FarFromStations(stations[j].Position(), stations[..j], fd);
        assert stations[..j][i] == stations[i];
        FartherThanSymmetric(stations[i].Position(), stations[j].Position(), fd);
      } else {
        assert FarFromStations(stations[i].Position(), stations[..i], fd);
        assert stations[..i][j] == stations[j];
      }
    }
  }

  /** A point within distance r of the centre lies within r of it on each axis. */
  lemma CircleBound(dx: int, dy: int, r: nat)
    ensures dx * dx + dy * dy <= r * r ==> Abs(dx) <= r && Abs(dy) <= r
  {
    if dx * dx + dy * dy <= r * r {
      assert dx * dx <= r * r && dy * dy <= r * r;
      SquareBound(dx, r);
      SquareBound(dy, r);
    }
  }

  /** For an integer offset, |dy| <= 8 exactly when 16 * dy * dy <= 3 * 20 * 20 (that is, dy * dy <= 75). */
  lemma TriangleHalfHeight(dy: int)
    ensures 16 * dy * dy <= 3 * 20 * 20 <==> Abs(dy) <= 8
  {
    if Abs(dy) <= 8 {
      assert dy * dy <= 64 by {
        assert Abs(dy) * Abs(dy) == dy * dy;
      }
    } else {
      assert Abs(dy) * Abs(dy) >= 81 by {
        assert Abs(dy) >= 9;
      }
      assert Abs(dy) * Abs(dy) == dy * dy;
    }
  }

  /**
   * The candidate grid that the game loop builds once (src/main.py) and that
   * every successful `generate_new_station` shrinks by one point.
   */
  class GridCandidates {
    var points: seq<Point>

    constructor (borderMargin: int, width: int, height: int, gridSize: int)
      requires gridSize != 0
      ensures points == Lattice(Range(borderMargin, width, gridSize), Range(borderMargin, height, gridSize))
    {
      points := Lattice(Range(borderMargin, width, gridSize), Range(borderMargin, height, gridSize));
    }
  }

  /** A grid point of a positive-step lattice lies in [margin, width) x [margin, height), a whole number of steps from the margin. */
  lemma {:induction false} GridPointBounds(margin: int, width: int, height: int, gridSize: int, p: Point)
    requires gridSize > 0
    requires p in Lattice(Range(margin, width, gridSize), Range(margin, height, gridSize))
    ensures margin <= p.x < width && margin <= p.y < height
    ensures exists i: nat, j: nat :: p.x == margin + i * gridSize && p.y == margin + j * gridSize
  {
    var xs, ys := Range(margin, width, gridSize), Range(margin, height, gridSize);
    var i :| 0 <= i < |xs| && xs[i] == p.x;
    var j :| 0 <= j < |ys| && ys[j] == p.y;
    RangeElement(margin, width, gridSize, i);
    RangeElement(margin, height, gridSize, j);
  }

  /** A station of a known shape contains its own centre; a station of any other shape contains nothing. */
  lemma ContainsCentre(s: Station)
    ensures s.Contains(s.Position()) <==> s.shape in AllShapes
  {
  }

  /** Whatever hits a circle station also hits a square station at the same place. */
  lemma CircleWithinSquare(c: Station, q: Station, pos: Point)
    requires c.shape == "circle" && q.shape == "square" && c.Position() == q.Position()
    ensures c.Contains(pos) ==> q.Contains(pos)
  {
  }
}
