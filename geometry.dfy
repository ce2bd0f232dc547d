/**
 * Planar positions and the Euclidean distance `math.hypot(dx, dy)`.
 * Dafny's reals have no square root, so the distance is a parameter of type
 * `Metric`; `IsEuclidean` pins such a parameter down to the hypotenuse, and
 * the lemmas below show that every comparison the source makes with a
 * distance can equally be made with squared distances.
 */
module Geometry {

  datatype Point = Point(x: real, y: real)

  /** The distance between two points, `distance(p, q)`. */
  type Metric = (Point, Point) -> real

  function SqDist(p: Point, q: Point): (r: real)
    ensures r >= 0.0
  {
    (p.x - q.x) * (p.x - q.x) + (p.y - q.y) * (p.y - q.y)
  }

  /** `dist(p, q)` is the non-negative square root of the squared distance. */
  ghost predicate IsEuclidean(dist: Metric)
  {
    forall p, q :: dist(p, q) >= 0.0 && dist(p, q) * dist(p, q) == SqDist(p, q)
  }

  /** For non-negative reals, `a <= b` exactly when `a*a <= b*b`. */
  lemma SquareMonotone(a: real, b: real)
    requires a >= 0.0 && b >= 0.0
    ensures a <= b <==> a * a <= b * b
    ensures a < b <==> a * a < b * b
  {
    var aa, ab, bb := a * a, a * b, b * b;
    if a < b {
      assert aa <= ab;
      assert ab < bb;
    } else if b < a {
      assert bb <= ab;
      assert ab < aa;
    }
  }

  /** The in-range test `distance(p, q) <= radius` compared on squares. */
  lemma {:induction false} InRangeIffSquared(dist: Metric, p: Point, q: Point, radius: real)
    requires IsEuclidean(dist) && radius > 0.0
    ensures dist(p, q) <= radius <==> SqDist(p, q) <= radius * radius
  {
    SquareMonotone(dist(p, q), radius);
  }

  /** The "closer than" test `d < best_d` compared on squares. */
  lemma {:induction false} CloserIffSquared(dist: Metric, p: Point, a: Point, b: Point)
    requires IsEuclidean(dist)
    ensures dist(p, a) < dist(p, b) <==> SqDist(p, a) < SqDist(p, b)
  {
    SquareMonotone(dist(p, a), dist(p, b));
  }

  /** The distance does not depend on the order of its arguments. */
  lemma {:induction false} EuclideanSymmetric(dist: Metric, p: Point, q: Point)
    requires IsEuclidean(dist)
    ensures dist(p, q) == dist(q, p)
  {
    assert SqDist(p, q) == SqDist(q, p);
    SquareMonotone(dist(p, q), dist(q, p));
  }
}
