/** Bounding boxes, points and rectangle intersection (utils.py). */
module Geometry {

  /** An axis-aligned box in pixel space: top-left corner (x, y), extent (w, h). */
  datatype BoundingBox = BoundingBox(x: int, y: int, w: int, h: int)

  /** A point; centroids are box midpoints, so the coordinates may be fractional. */
  datatype Point = Point(x: real, y: real)

  function Max(a: int, b: int): int { if a >= b then a else b }
  function Min(a: int, b: int): int { if a <= b then a else b }

  /** BoundingBox.area: never negative for a box of non-negative extent, and zero for a
      box that is flat in either direction. */
  function Area(b: BoundingBox): (r: int)
    ensures b.w >= 0 && b.h >= 0 ==> r >= 0
    ensures b.w == 0 || b.h == 0 ==> r == 0
  {
    b.w * b.h
  }

  /** The square of the Euclidean distance between two points. */
  function SquaredDistance(p: Point, q: Point): (r: real)
    ensures r >= 0.0
  {
    (p.x - q.x) * (p.x - q.x) + (p.y - q.y) * (p.y - q.y)
  }

  /** `d` is what Point.distance_to returns for p and q: the non-negative square root
      of their squared distance. */
  ghost predicate IsDistance(d: real, p: Point, q: Point) {
    d >= 0.0 && d * d == SquaredDistance(p, q)
  }

  /** The midpoint of a box (InstanceObject.centroid): as far from the left edge as from
      the right one and from the top as from the bottom, so inside a box of non-negative
      extent. */
  function Centroid(b: BoundingBox): (r: Point)
    ensures r.x - b.x as real == (b.x + b.w) as real - r.x
    ensures r.y - b.y as real == (b.y + b.h) as real - r.y
    ensures b.w >= 0 ==> b.x as real <= r.x <= (b.x + b.w) as real
    ensures b.h >= 0 ==> b.y as real <= r.y <= (b.y + b.h) as real
  {
    Point(b.x as real + b.w as real / 2.0, b.y as real + b.h as real / 2.0)
  }

  /** The squared distance between the centroids of two boxes, computed on doubled
      integer coordinates (2x + w, 2y + h), which are exact. */
  function DoubledCentroidSquaredDistance(a: BoundingBox, b: BoundingBox): (r: int)
    ensures r >= 0
  {
    var dx := (2 * a.x + a.w) - (2 * b.x + b.w);
    var dy := (2 * a.y + a.h) - (2 * b.y + b.h);
    dx * dx + dy * dy
  }

  /** The association test `centroid distance < threshold`, in integer arithmetic. No
      pair is near for a threshold of zero or less; boxes with the same centroid are near
      for every positive threshold. */
  predicate Near(a: BoundingBox, b: BoundingBox, threshold: int): (r: bool)
    ensures r ==> threshold > 0
    ensures 2 * a.x + a.w == 2 * b.x + b.w && 2 * a.y + a.h == 2 * b.y + b.h ==> (r <==> threshold > 0)
  {
    threshold > 0 && DoubledCentroidSquaredDistance(a, b) < 4 * threshold * threshold
  }

  /** Overlap of the intervals [lo1, lo1 + len1) and [lo2, lo2 + len2), clamped at zero. */
  function Overlap(lo1: int, len1: int, lo2: int, len2: int): (r: int)
    ensures r >= 0
  {
    var left := Max(lo1, lo2);
    var right := Min(lo1 + len1, lo2 + len2);
    Max(0, right - left)
  }

  /** intersection_area_of_two_bboxs */
  function IntersectionArea(b1: BoundingBox, b2: BoundingBox): (r: int)
    ensures r >= 0
  {
    var xOverlap := Overlap(b1.x, b1.w, b2.x, b2.w);
    var yOverlap := Overlap(b1.y, b1.h, b2.y, b2.h);
    xOverlap * yOverlap
  }

  // ---------------------------------------------------------------------------
  // Distance

  lemma DistanceSymmetric(d: real, p: Point, q: Point)
    ensures IsDistance(d, p, q) <==> IsDistance(d, q, p)
  {
  }

  lemma DistanceZeroOnEqualPoints(d: real, p: Point)
    ensures IsDistance(d, p, p) <==> d == 0.0
  {
    assert SquaredDistance(p, p) == 0.0;
    if IsDistance(d, p, p) && d != 0.0 {
      SquareStrictlyMonotone(0.0, d);
    }
  }

  /** For the Euclidean distance d of two points, `d < t` holds exactly when the squared
      distance is below t * t and t is positive (for t <= 0 neither holds). */
  lemma DistanceBelowIff(d: real, p: Point, q: Point, t: real)
    requires IsDistance(d, p, q)
    ensures d < t <==> (t > 0.0 && SquaredDistance(p, q) < t * t)
  {
    if d < t {
      assert t > 0.0;
      SquareStrictlyMonotone(d, t);
    }
    if t > 0.0 && SquaredDistance(p, q) < t * t && d >= t {
      SquareMonotone(t, d);
      assert false;
    }
  }

  lemma SquareStrictlyMonotone(a: real, b: real)
    requires 0.0 <= a < b
    ensures a * a < b * b
  {
    ProductBelow(b - a, 0.0, b + a);
    assert (b - a) * (b + a) == b * b - a * a;
  }

  /** Multiplying by a positive factor preserves a strict inequality. */
  lemma ProductBelow(k: real, a: real, b: real)
    requires k > 0.0 && a < b
    ensures k * a < k * b
  {
  }

  lemma SquareMonotone(a: real, b: real)
    requires 0.0 <= a <= b
    ensures a * a <= b * b
  {
    assert a * a <= a * b;
    assert a * b <= b * b;
  }

  /** The squared distance between real centroids is a quarter of the doubled one. */
  lemma CentroidSquaredDistance(a: BoundingBox, b: BoundingBox)
    ensures SquaredDistance(Centroid(a), Centroid(b)) == DoubledCentroidSquaredDistance(a, b) as real / 4.0
  {
    var dx := (2 * a.x + a.w) - (2 * b.x + b.w);
    var dy := (2 * a.y + a.h) - (2 * b.y + b.h);
    assert Centroid(a).x - Centroid(b).x == dx as real / 2.0;
    assert Centroid(a).y - Centroid(b).y == dy as real / 2.0;
    assert (dx as real / 2.0) * (dx as real / 2.0) == (dx * dx) as real / 4.0;
    assert (dy as real / 2.0) * (dy as real / 2.0) == (dy * dy) as real / 4.0;
  }

  /** Near is the source's test: the Euclidean distance d between the two centroids is
      strictly below the threshold. */
  lemma NearIffCentroidDistanceBelow(a: BoundingBox, b: BoundingBox, threshold: int, d: real)
    requires IsDistance(d, Centroid(a), Centroid(b))
    ensures Near(a, b, threshold) <==> d < threshold as real
  {
    var t := threshold as real;
    DistanceBelowIff(d, Centroid(a), Centroid(b), t);
    CentroidSquaredDistance(a, b);
    var sq := DoubledCentroidSquaredDistance(a, b);
    assert (t * t) * 4.0 == (4 * threshold * threshold) as real;
    assert sq as real / 4.0 < t * t <==> sq as real < (t * t) * 4.0;
  }

  lemma NearSymmetric(a: BoundingBox, b: BoundingBox, threshold: int)
    ensures Near(a, b, threshold) <==> Near(b, a, threshold)
  {
    var dx := (2 * a.x + a.w) - (2 * b.x + b.w);
    var dy := (2 * a.y + a.h) - (2 * b.y + b.h);
    assert (-dx) * (-dx) == dx * dx;
    assert (-dy) * (-dy) == dy * dy;
  }

  // ---------------------------------------------------------------------------
  // Intersection

  lemma IntersectionSymmetric(b1: BoundingBox, b2: BoundingBox)
    ensures IntersectionArea(b1, b2) == IntersectionArea(b2, b1)
  {
  }

  /** Boxes that are apart, or only touch along an edge, do not intersect. */
  lemma DisjointIntersectionIsZero(b1: BoundingBox, b2: BoundingBox)
    requires b1.x + b1.w <= b2.x || b2.x + b2.w <= b1.x || b1.y + b1.h <= b2.y || b2.y + b2.h <= b1.y
    ensures IntersectionArea(b1, b2) == 0
  {
  }

  lemma ProductMonotone(a: int, b: int, c: int, d: int)
    requires 0 <= a <= c && 0 <= b <= d
    ensures a * b <= c * d
  {
    assert a * b <= c * b;
    assert c * b <= c * d;
  }

  /** For boxes of non-negative extent the intersection is no larger than either box. */
  lemma IntersectionAtMostArea(b1: BoundingBox, b2: BoundingBox)
    requires b1.w >= 0 && b1.h >= 0 && b2.w >= 0 && b2.h >= 0
    ensures IntersectionArea(b1, b2) <= Area(b1)
    ensures IntersectionArea(b1, b2) <= Area(b2)
  {
    var xo := Overlap(b1.x, b1.w, b2.x, b2.w);
    var yo := Overlap(b1.y, b1.h, b2.y, b2.h);
    ProductMonotone(xo, yo, b1.w, b1.h);
    ProductMonotone(xo, yo, b2.w, b2.h);
  }

  /** A box of non-negative extent intersected with itself gives its own area. */
  lemma SelfIntersectionIsArea(b: BoundingBox)
    requires b.w >= 0 && b.h >= 0
    ensures IntersectionArea(b, b) == Area(b)
  {
  }

  lemma IntersectionExamples()
    ensures IntersectionArea(BoundingBox(0, 0, 10, 10), BoundingBox(5, 5, 10, 10)) == 25
    ensures IntersectionArea(BoundingBox(0, 0, 10, 10), BoundingBox(2, 2, 10, 10)) == 64
  {
  }
}
