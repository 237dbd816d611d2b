/**
 * Integer plane geometry shared by the game: grid and screen points, pygame's
 * axis-aligned rectangles and exact (square-free) distance comparisons.
 */
module Geometry {

  /** A point with integer screen coordinates (a Python `(x, y)` tuple of ints). */
  datatype Point = Point(x: int, y: int)

  function Abs(n: int): (r: nat)
    ensures r == n || r == -n
  {
    if n < 0 then -n else n
  }

  /** Square of the Euclidean distance between two points. */
  function DistanceSquared(p: Point, q: Point): (r: nat)
  {
    (p.x - q.x) * (p.x - q.x) + (p.y - q.y) * (p.y - q.y)
  }

  /**
   * `Point(p).distance(Point(q)) > d` for an integer bound `d`. The Euclidean
   * distance is the square root of DistanceSquared, so for d >= 0 the comparison
   * is exactly DistanceSquared(p, q) > d * d, and every distance exceeds a
   * negative bound. No point is farther than a non-negative bound from itself.
   */
  predicate FartherThan(p: Point, q: Point, d: int)
    ensures FartherThan(p, q, d) && d >= 0 ==> p != q
  {
    d < 0 || DistanceSquared(p, q) > d * d
  }

  /** The Chebyshev (king-move) distance between two points. */
  function Chebyshev(p: Point, q: Point): (r: nat)
    ensures r == Abs(p.x - q.x) || r == Abs(p.y - q.y)
    ensures r >= Abs(p.x - q.x) && r >= Abs(p.y - q.y)
    ensures r == 0 <==> p == q
  {
    var dx, dy := Abs(p.x - q.x), Abs(p.y - q.y);
    if dx >= dy then dx else dy
  }

  /** p lies in the closed axis-aligned box spanned by corners a and b. */
  predicate InBox(p: Point, a: Point, b: Point)
  {
    (a.x <= p.x <= b.x || b.x <= p.x <= a.x) && (a.y <= p.y <= b.y || b.y <= p.y <= a.y)
  }

  /**
   * pygame's `Rect(left, top, width, height)`. Its `collidepoint` is half-open:
   * the right and bottom edges are outside the rectangle.
   */
  datatype Rect = Rect(left: int, top: int, width: int, height: int) {
    predicate CollidePoint(p: Point)
      ensures CollidePoint(p) ==> width > 0 && height > 0
    {
      left <= p.x < left + width && top <= p.y < top + height
    }
  }

  /** Distance comparisons do not depend on the order of the two points. */
  lemma FartherThanSymmetric(p: Point, q: Point, d: int)
    ensures FartherThan(p, q, d) == FartherThan(q, p, d)
  {
    assert (p.x - q.x) * (p.x - q.x) == (q.x - p.x) * (q.x - p.x);
    assert (p.y - q.y) * (p.y - q.y) == (q.y - p.y) * (q.y - p.y);
  }

  /** A square no larger than r * r bounds the absolute value by r. */
  lemma SquareBound(d: int, r: nat)
    requires d * d <= r * r
    ensures Abs(d) <= r
  {
    var a := Abs(d);
    assert a * a == d * d;
    SquareMonotone(r, a);
  }

  /** On non-negative numbers squaring is strictly increasing. */
  lemma SquareMonotone(a: nat, b: nat)
    ensures a < b ==> a * a < b * b
  {
    if a < b {
      assert a * a <= a * b by {
        MultiplyLeft(a, a, b);
      }
      assert a * b < b * b by {
        assert b * b - a * b == (b - a) * b;
        MultiplyLeft(b, 1, b - a);
      }
    }
  }

  /** Multiplying by a non-negative number preserves <=. */
  lemma MultiplyLeft(k: nat, x: int, y: int)
    requires x <= y
    ensures k * x <= k * y
  {
    assert k * y - k * x == k * (y - x);
  }
}
