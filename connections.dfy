/**
 * The connection register (src/utils/connections.py): a list of station pairs
 * in which an unordered pair is recorded at most once.
 */
module Connections {

  /** The pair {a, b} is recorded, in either orientation. */
  predicate Connected<T(==)>(pairs: seq<(T, T)>, a: T, b: T)
  {
    (a, b) in pairs || (b, a) in pairs
  }

  /**
   * No pair is recorded twice and none in both orientations: the entries are
   * pairwise distinct as unordered pairs.
   */
  predicate WellFormed<T(==)>(pairs: seq<(T, T)>)
  {
    forall i, j :: 0 <= i < j < |pairs| ==> pairs[i] != pairs[j] && pairs[i] != (pairs[j].1, pairs[j].0)
  }

  /**
   * The register after `create_connection(a, b)`: unchanged when {a, b} is
   * already recorded, otherwise (a, b) appended at the end.
   */
  function Connect<T(==)>(pairs: seq<(T, T)>, a: T, b: T): (r: seq<(T, T)>)
    ensures Connected(r, a, b)
    ensures Connected(pairs, a, b) ==> r == pairs
    ensures !Connected(pairs, a, b) ==> |r| == |pairs| + 1 && r[..|pairs|] == pairs && r[|pairs|] == (a, b)
  {
    if Connected(pairs, a, b) then pairs else pairs + [(a, b)]
  }

  /** The list that `create_connection` appends to in place. */
  class ConnectionList<T(==)> {
    var pairs: seq<(T, T)>

    constructor ()
      ensures pairs == []
    {
      pairs := [];
    }

    /**
     * `create_connection`: records (station1, station2) at the end unless the
     * pair is already recorded in either orientation.
     */
    method CreateConnection(station1: T, station2: T)
      modifies this
      ensures pairs == Connect(old(pairs), station1, station2)
      ensures WellFormed(old(pairs)) ==> WellFormed(pairs)
    {
      if (station1, station2) !in pairs && (station2, station1) !in pairs {
        AppendUnconnectedKeepsWellFormed(pairs, station1, station2);
        pairs := pairs + [(station1, station2)];
      }
    }
  }

  /** Appending a pair not yet connected keeps the register well formed. */
  lemma AppendUnconnectedKeepsWellFormed<T>(pairs: seq<(T, T)>, a: T, b: T)
    requires !Connected(pairs, a, b)
    ensures WellFormed(pairs) ==> WellFormed(pairs + [(a, b)])
  {
    if WellFormed(pairs) {
      var next := pairs + [(a, b)];
      forall i, j | 0 <= i < j < |next|
        ensures next[i] != next[j] && next[i] != (next[j].1, next[j].0)
      {
        if j == |pairs| {
          assert next[i] == pairs[i];
          assert next[i] in pairs;
        }
      }
    }
  }

  /** A register built from empty by any sequence of calls is well formed, records every requested pair and has no more entries than calls. */
  lemma {:induction false} RegisterWellFormed<T>(calls: seq<(T, T)>)
    ensures WellFormed(Register(calls))
    ensures forall k :: 0 <= k < |calls| ==> Connected(Register(calls), calls[k].0, calls[k].1)
    ensures |Register(calls)| <= |calls|
  {
    if calls != [] {
      var prefix := calls[..|calls| - 1];
      var last := calls[|calls| - 1];
      RegisterWellFormed(prefix);
      if !Connected(Register(prefix), last.0, last.1) {
        AppendUnconnectedKeepsWellFormed(Register(prefix), last.0, last.1);
      }
      assert Register(calls) == Connect(Register(prefix), last.0, last.1);
      forall k | 0 <= k < |calls| ensures Connected(Register(calls), calls[k].0, calls[k].1) {
        if k < |calls| - 1 {
          assert calls[k] == prefix[k];
        }
      }
    }
  }

  /** The pairs recorded by calling `create_connection` on each of `calls` in turn, from an empty list. */
  function Register<T(==)>(calls: seq<(T, T)>): (r: seq<(T, T)>)
  {
    if calls == [] then []
    else
      var (a, b) := calls[|calls| - 1];
      Connect(Register(calls[..|calls| - 1]), a, b)
  }
}
