/**
 * Trains (src/models/trains.py): a train cycles along its line's stations,
 * boards waiting passengers oldest first up to its capacity, and drops off the
 * passengers bound for the station's shape.
 */
module Trains {

  import opened Seqs
  import opened Passengers
  import opened Stations
  import opened TrainLines

  /**
   * The index after one `move` on a line of n stations: the next station,
   * wrapping from the last back to the first; with fewer than two stations the
   * train stays put.
   */
  function NextIndex(i: int, n: int): (r: int)
    ensures n > 1 ==> 0 <= r < n
    ensures n > 1 && 0 <= i < n - 1 ==> r == i + 1
    ensures n > 1 && i == n - 1 ==> r == 0
    ensures n <= 1 ==> r == i
  {
    if n > 1 then (i + 1) % n else i
  }

  /** The index after k moves. */
  function Advance(i: int, n: int, k: nat): int
  {
    if k == 0 then i else NextIndex(Advance(i, n, k - 1), n)
  }

  /** Moves compose: a + b moves are a moves followed by b moves. */
  lemma {:induction false} AdvanceCompose(i: int, n: int, a: nat, b: nat)
    ensures Advance(i, n, a + b) == Advance(Advance(i, n, a), n, b)
  {
    if b > 0 {
      AdvanceCompose(i, n, a, b - 1);
    }
  }

  /** Before the wrap, k moves from i reach i + k. */
  lemma {:induction false} AdvanceClimbs(i: int, n: int, k: nat)
    requires n > 1 && 0 <= i && i + k < n
    ensures Advance(i, n, k) == i + k
  {
    if k > 0 {
      AdvanceClimbs(i, n, k - 1);
    }
  }

  /** From any station, n moves bring a train on a line of n > 1 stations back where it started. */
  lemma AdvanceFullCycle(i: int, n: int)
    requires n > 1 && 0 <= i < n
    ensures Advance(i, n, n) == i
  {
    AdvanceClimbs(i, n, n - i - 1);
    assert Advance(i, n, n - i) == 0;
    AdvanceCompose(i, n, n - i, i);
    AdvanceClimbs(0, n, i);
  }

  /** Within n moves a train on a line of n > 1 stations calls at every station. */
  lemma AdvanceVisitsAll(i: int, n: int, j: int)
    requires n > 1 && 0 <= i < n && 0 <= j < n
    ensures exists k :: 0 <= k < n && Advance(i, n, k) == j
  {
    if i <= j {
      AdvanceClimbs(i, n, j - i);
      assert Advance(i, n, j - i) == j;
    } else {
      AdvanceClimbs(i, n, n - i - 1);
      assert Advance(i, n, n - i) == 0;
      AdvanceCompose(i, n, n - i, j);
      AdvanceClimbs(0, n, j);
      assert Advance(i, n, n - i + j) == j;
    }
  }

  /** `[s.shape for s in self.line.stations]`. */
  function LineShapes(stations: seq<Station>): (r: seq<string>)
    ensures |r| == |stations|
    ensures forall i :: 0 <= i < |stations| ==> r[i] == stations[i].shape
  {
    seq(|stations|, i requires 0 <= i < |stations| => stations[i].shape)
  }

  /** Whether a passenger's destination shape is one of `shapes`. */
  function ServedBy(shapes: seq<string>): Passenger -> bool
  {
    (p: Passenger) => p.shape in shapes
  }

  /** Whether a passenger is bound for a shape other than `shape`. */
  function BoundElsewhere(shape: string): Passenger -> bool
  {
    (p: Passenger) => p.shape != shape
  }

  /** Whether a passenger is bound for `shape`. */
  function BoundFor(shape: string): Passenger -> bool
  {
    (p: Passenger) => p.shape == shape
  }

  /** The passengers of q bound for a shape the line serves, in order. */
  function Matching(q: seq<Passenger>, shapes: seq<string>): (r: seq<Passenger>)
    ensures forall p :: p in r <==> p in q && p.shape in shapes
  {
    Select(q, ServedBy(shapes))
  }

  /**
   * How many passengers the boarding loop pops from a queue q when the train
   * already carries onBoard passengers: it pops while the train is below
   * capacity and the queue is not empty.
   */
  function PopCount(onBoard: int, q: seq<Passenger>, shapes: seq<string>, capacity: int): (k: nat)
    ensures k <= |q|
    decreases |q|
  {
    if onBoard >= capacity || q == [] then 0
    else 1 + PopCount(onBoard + (if q[0].shape in shapes then 1 else 0), q[1..], shapes, capacity)
  }

  /** Popping one more passenger adds it to the boarded ones exactly when its shape is served. */
  lemma MatchingSnoc(q: seq<Passenger>, j: nat, shapes: seq<string>)
    requires j < |q|
    ensures Matching(q[..j + 1], shapes) == Matching(q[..j], shapes) + (if q[j].shape in shapes then [q[j]] else [])
  {
    SelectSnoc(q, j, ServedBy(shapes));
  }

  /** A train loaded to at most its capacity is never loaded above it by the boarding loop. */
  lemma {:induction false} PopCountRespectsCapacity(onBoard: int, q: seq<Passenger>, shapes: seq<string>, capacity: int)
    requires onBoard <= capacity
    ensures onBoard + |Matching(q[..PopCount(onBoard, q, shapes, capacity)], shapes)| <= capacity
    decreases |q|
  {
    var k := PopCount(onBoard, q, shapes, capacity);
    if k > 0 {
      var b := if q[0].shape in shapes then 1 else 0;
      PopCountRespectsCapacity(onBoard + b, q[1..], shapes, capacity);
      assert q[..k] == [q[0]] + q[1..][..k - 1];
      SelectAppend([q[0]], q[1..][..k - 1], ServedBy(shapes));
    } else {
      assert q[..0] == [];
    }
  }

  /** The boarding loop stops only when the train is full or the queue is exhausted. */
  lemma {:induction false} PopCountStops(onBoard: int, q: seq<Passenger>, shapes: seq<string>, capacity: int)
    ensures var k := PopCount(onBoard, q, shapes, capacity);
      onBoard + |Matching(q[..k], shapes)| >= capacity || k == |q|
    decreases |q|
  {
    var k := PopCount(onBoard, q, shapes, capacity);
    if onBoard >= capacity || q == [] {
      assert q[..0] == [];
    } else {
      var b := if q[0].shape in shapes then 1 else 0;
      PopCountStops(onBoard + b, q[1..], shapes, capacity);
      assert q[..k] == [q[0]] + q[1..][..k - 1];
      SelectAppend([q[0]], q[1..][..k - 1], ServedBy(shapes));
    }
  }

  /** The boarding loop pops a passenger only while the train is below capacity. */
  lemma {:induction false} PopCountEager(onBoard: int, q: seq<Passenger>, shapes: seq<string>, capacity: int, j: nat)
    requires j < PopCount(onBoard, q, shapes, capacity)
    ensures onBoard + |Matching(q[..j], shapes)| < capacity
    decreases |q|
  {
    if j == 0 {
      assert q[..0] == [];
    } else {
      var b := if q[0].shape in shapes then 1 else 0;
      PopCountEager(onBoard + b, q[1..], shapes, capacity, j - 1);
      assert q[..j] == [q[0]] + q[1..][..j - 1];
      SelectAppend([q[0]], q[1..][..j - 1], ServedBy(shapes));
    }
  }

  /**
   * One iteration of the boarding loop, after j pops from q onto a train that
   * started with p0: the passenger popped is q[j], it boards exactly when its
   * shape is served, and the remaining pops go down by one.
   */
  lemma BoardOne(p0: seq<Passenger>, q: seq<Passenger>, shapes: seq<string>, capacity: int, j: nat)
    requires j < |q| && |p0 + Matching(q[..j], shapes)| < capacity
    requires PopCount(|p0|, q, shapes, capacity) == j + PopCount(|p0 + Matching(q[..j], shapes)|, q[j..], shapes, capacity)
    ensures q[j..][0] == q[j] && q[j..][1..] == q[j + 1..]
    ensures p0 + Matching(q[..j + 1], shapes) == p0 + Matching(q[..j], shapes) + (if q[j].shape in shapes then [q[j]] else [])
    ensures PopCount(|p0|, q, shapes, capacity) == j + 1 + PopCount(|p0 + Matching(q[..j + 1], shapes)|, q[j + 1..], shapes, capacity)
  {
    MatchingSnoc(q, j, shapes);
    assert q[j..][1..] == q[j + 1..];
  }

  /** Where the boarding loop ends: within capacity, and with the train full or the queue exhausted. */
  lemma BoardDone(onBoard: nat, q: seq<Passenger>, shapes: seq<string>, capacity: int)
    ensures var k := PopCount(onBoard, q, shapes, capacity);
      && (onBoard <= capacity ==> onBoard + |Matching(q[..k], shapes)| <= capacity)
      && (onBoard + |Matching(q[..k], shapes)| >= capacity || q[k..] == [])
  {
    if onBoard <= capacity {
      PopCountRespectsCapacity(onBoard, q, shapes, capacity);
    }
    PopCountStops(onBoard, q, shapes, capacity);
  }

  /** Drop-off at a station of shape `shape`: the passengers bound elsewhere, in their order. */
  function Remaining(ps: seq<Passenger>, shape: string): (r: seq<Passenger>)
    ensures forall p :: p in r <==> p in ps && p.shape != shape
    ensures forall i :: 0 <= i < |r| ==> r[i].shape != shape
  {
    Select(ps, BoundElsewhere(shape))
  }

  /** Passengers bound for `shape`. */
  function Arriving(ps: seq<Passenger>, shape: string): seq<Passenger>
  {
    Select(ps, BoundFor(shape))
  }

  /** Every passenger either stays or gets off, none is lost or duplicated in count. */
  lemma {:induction false} RemainingPartition(ps: seq<Passenger>, shape: string)
    ensures |Remaining(ps, shape)| + |Arriving(ps, shape)| == |ps|
  {
    if ps != [] {
      RemainingPartition(ps[1..], shape);
    }
  }

  /** A second drop-off at the same station changes nothing. */
  lemma RemainingIdempotent(ps: seq<Passenger>, shape: string)
    ensures Remaining(Remaining(ps, shape), shape) == Remaining(ps, shape)
  {
    SelectIdempotent(ps, BoundElsewhere(shape));
  }

  class Train {
    const line: TrainLine
    const capacity: int
    var passengers: seq<Passenger>
    /** Index into line.stations of the station the train is at. */
    var currentStationIndex: int

    constructor (line: TrainLine, capacity: int := 6)
      ensures this.line == line && this.capacity == capacity
      ensures passengers == [] && currentStationIndex == 0
    {
      this.line := line;
      this.capacity := capacity;
      passengers := [];
      currentStationIndex := 0;
    }

    /** `move`: on to the next station of the line, cyclically. */
    method Move()
      modifies this`currentStationIndex
      ensures currentStationIndex == NextIndex(old(currentStationIndex), |line.stations|)
      ensures passengers == old(passengers)
    {
      if |line.stations| > 1 {
        currentStationIndex := (currentStationIndex + 1) % |line.stations|;
      }
    }

    /**
     * `pick_up_passengers`: while the train has room and the station has
     * waiting passengers, pops the oldest one; it boards if some station of the
     * line has its shape and is discarded otherwise.
     */
    method PickUpPassengers(station: Station)
      modifies this`passengers, station`passengers
      ensures var q := old(station.passengers);
        var k := PopCount(|old(passengers)|, q, LineShapes(line.stations), capacity);
        && station.passengers == q[k..]
        && passengers == old(passengers) + Matching(q[..k], LineShapes(line.stations))
      ensures |old(passengers)| <= capacity ==> |passengers| <= capacity
      ensures |passengers| >= capacity || station.passengers == []
      ensures station.spawnTimer == old(station.spawnTimer) && currentStationIndex == old(currentStationIndex)
    {
      ghost var q := station.passengers;
      ghost var p0 := passengers;
      ghost var j: nat := 0;
      var shapes := LineShapes(line.stations);
      ghost var k := PopCount(|p0|, q, shapes, capacity);
      assert q[..0] == [];
      while |passengers| < capacity && station.passengers != []
        invariant j <= |q| && station.passengers == q[j..]
        invariant passengers == p0 + Matching(q[..j], shapes)
        invariant k == j + PopCount(|passengers|, q[j..], shapes, capacity)
        decreases |station.passengers|
      {
        BoardOne(p0, q, shapes, capacity, j);
        var passenger := station.passengers[0];
        station.passengers := station.passengers[1..];
        if passenger.shape in shapes {
          passengers := passengers + [passenger];
        }
        j := j + 1;
      }
      assert PopCount(|passengers|, q[j..], shapes, capacity) == 0;
      assert j == k;
      BoardDone(|p0|, q, shapes, capacity);
    }

    /** `drop_off_passengers`: keeps the passengers not bound for this station's shape. */
    method DropOffPassengers(station: Station)
      modifies this`passengers
      ensures passengers == Remaining(old(passengers), station.shape)
      ensures currentStationIndex == old(currentStationIndex)
    {
      var onBoard := passengers;
      var remainingPassengers: seq<Passenger> := [];
      for i := 0 to |onBoard|
        invariant remainingPassengers == Remaining(onBoard[..i], station.shape)
      {
        SelectSnoc(onBoard, i, BoundElsewhere(station.shape));
        if onBoard[i].shape != station.shape {
          remainingPassengers := remainingPassengers + [onBoard[i]];
        }
      }
      assert onBoard[..|onBoard|] == onBoard;
      passengers := remainingPassengers;
    }
  }
}
