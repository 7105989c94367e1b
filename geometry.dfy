/** Planar positions and the squared Euclidean distance
    (shared/helper.py calculate_distance without its square root: the root
    is monotone, so every comparison and ordering by distance is the same). */
module Geometry {

  datatype Point = Point(x: int, y: int)

  function SquaredDistance(p: Point, q: Point): (d: nat)
    ensures d == 0 <==> p == q
  {
    var dx := q.x - p.x;
    var dy := q.y - p.y;
    SquareNonNegative(dx);
    SquareNonNegative(dy);
    assert dx * dx == 0 ==> dx == 0 by { SquareZero(dx); }
    assert dy * dy == 0 ==> dy == 0 by { SquareZero(dy); }
    dx * dx + dy * dy
  }

  /** The distance does not depend on the direction it is measured in. */
  lemma SquaredDistanceSymmetric(p: Point, q: Point)
    ensures SquaredDistance(p, q) == SquaredDistance(q, p)
  {
  }

  lemma SquareNonNegative(a: int)
    ensures a * a >= 0
  {
  }

  lemma SquareZero(a: int)
    ensures a * a == 0 ==> a == 0
  {
  }
}
