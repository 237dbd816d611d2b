/**
 * Passengers waiting at a station (src/models/passengers.py). A passenger is a
 * value: its drawing position and the shape of the station it travels to.
 */
module Passengers {

  import opened Geometry

  /** Passengers per row of the waiting-area layout. */
  const PerRow: int := 4
  /** Pixel spacing between waiting passengers, and the x offset of the first column. */
  const Spacing: int := 20

  datatype Passenger = Passenger(position: Point, shape: string)

  /**
   * Layout slot of the index-th waiting passenger: rows of four to the right of
   * the station, one Spacing apart. Python's `//` and `%` floor; with the positive
   * divisor 4 they agree with Dafny's Euclidean `/` and `%` for every index.
   */
  function CalculatePosition(stationPosition: Point, index: int): (p: Point)
    ensures p.x - stationPosition.x in {20, 40, 60, 80}
    ensures p.y - stationPosition.y == Spacing * (index / PerRow)
  {
    var row := index / PerRow;
    var col := index % PerRow;
    Point(stationPosition.x + Spacing + col * Spacing, stationPosition.y + row * Spacing)
  }

  /** `Passenger(station_position, shape, index)`. */
  function NewPassenger(stationPosition: Point, shape: string, index: int): (p: Passenger)
    ensures p.position == CalculatePosition(stationPosition, index)
    ensures p.shape == shape
  {
    Passenger(CalculatePosition(stationPosition, index), shape)
  }

  /** The first passenger waits one Spacing to the right of the station, on its row. */
  lemma FirstSlot(b: Point)
    ensures CalculatePosition(b, 0) == Point(b.x + 20, b.y)
  {
  }

  /** Indices 4k to 4k+3 share one row, k rows below the station, left to right. */
  lemma {:induction false} RowOfFour(b: Point, k: int, c: int)
    requires 0 <= c < PerRow
    ensures CalculatePosition(b, PerRow * k + c) == Point(b.x + Spacing * (c + 1), b.y + Spacing * k)
  {
    var i := PerRow * k + c;
    assert i / PerRow == k && i % PerRow == c by {
      assert i == k * 4 + c;
    }
  }

  /** Distinct indices get distinct slots. */
  lemma {:induction false} LayoutInjective(b: Point, i: int, j: int)
    requires CalculatePosition(b, i) == CalculatePosition(b, j)
    ensures i == j
  {
    assert i % PerRow == j % PerRow;
    assert i / PerRow == j / PerRow;
    assert i == PerRow * (i / PerRow) + i % PerRow;
    assert j == PerRow * (j / PerRow) + j % PerRow;
  }

  /**
   * Slots follow the length of the queue, not the slots still taken: once the
   * first k passengers of a queue laid out by index have left (a train pops
   * them from the front), the next passenger spawned, at index = the new
   * length, gets the slot of a passenger still waiting whenever at most half
   * of the queue left.
   */
  lemma {:induction false} SlotReuse(b: Point, q: seq<Passenger>, k: nat, shape: string)
    requires forall i :: 0 <= i < |q| ==> q[i].position == CalculatePosition(b, i)
    requires 1 <= k && 2 * k <= |q|
    ensures var rest := q[k..];
      NewPassenger(b, shape, |rest|).position == rest[|q| - 2 * k].position
  {
    var rest := q[k..];
    assert rest[|q| - 2 * k] == q[|q| - k];
  }
}
