/**
 * The spatial point filter: keep the points strictly inside a sphere and
 * inside a closed height slab, in their original order, with their colours.
 */
module Filter {
  import opened Linear
  import opened PointClouds

  function SquaredDistance(p: Vec3, q: Vec3): real {
    Dot(Sub(p, q), Sub(p, q))
  }

  /**
   * The distance test `norm(p - center) < radius`, written without a square
   * root: a distance is never negative, so the test fails for every radius
   * that is not positive, and for a positive radius it is the test on squares.
   */
  predicate InsideSphere(p: Vec3, center: Vec3, radius: real) {
    0.0 < radius && SquaredDistance(p, center) < radius * radius
  }

  /** The height test, inclusive at both ends. */
  predicate WithinHeight(p: Vec3, yMin: real, yMax: real) {
    yMin <= p.y && p.y <= yMax
  }

  predicate Retained(p: Vec3, center: Vec3, radius: real, yMin: real, yMax: real) {
    InsideSphere(p, center, radius) && WithinHeight(p, yMin, yMax)
  }

  function RetainMask(points: seq<Vec3>, center: Vec3, radius: real, yMin: real, yMax: real): (mask: seq<bool>)
    ensures |mask| == |points|
  {
    seq(|points|, i requires 0 <= i < |points| => Retained(points[i], center, radius, yMin, yMax))
  }

  /**
   * The squared test agrees with the Euclidean test: for d the (non-negative)
   * distance from p to the centre, d < radius exactly when p is inside the sphere.
   */
  lemma SquaredTestIsDistanceTest(p: Vec3, center: Vec3, radius: real, d: real)
    requires 0.0 <= d && d * d == SquaredDistance(p, center)
    ensures d < radius <==> InsideSphere(p, center, radius)
  {
    if d < radius {
      calc {
        SquaredDistance(p, center);
        == d * d;
        <= d * radius;
        < radius * radius;
      }
    } else if 0.0 < radius {
      calc {
        radius * radius;
        <= radius * d;
        <= d * d;
        == SquaredDistance(p, center);
      }
    }
  }

  /**
   * filter_by_distance_and_ymin on an already loaded cloud. The result is the
   * order-preserving subsequence of the points that pass both tests; colours,
   * when the input has them, are selected with the same mask, and otherwise
   * the result has none.
   */
  function FilterByDistanceAndHeight(pc: PointCloud, center: Vec3, radius: real, yMin: real, yMax: real): (r: PointCloud)
    ensures WellFormed(r)
    ensures var idx := TrueIndices(RetainMask(pc.points, center, radius, yMin, yMax));
      && |r.points| == |idx| <= |pc.points|
      && (forall k :: 0 <= k < |idx| ==> r.points[k] == pc.points[idx[k]])
      && (HasColors(pc) ==> |r.colors| == |idx| && forall k :: 0 <= k < |idx| ==> r.colors[k] == pc.colors[idx[k]])
    ensures !HasColors(pc) ==> r.colors == []
  {
    var mask := RetainMask(pc.points, center, radius, yMin, yMax);
    var points := Select(pc.points, mask);
    var colors := if HasColors(pc) then Select(pc.colors, mask) else [];
    PointCloud(points, colors)
  }

  /**
   * Every kept point passes both tests, and every input point that passes
   * both tests is kept.
   */
  lemma FilterKeepsExactlyRetained(pc: PointCloud, center: Vec3, radius: real, yMin: real, yMax: real)
    ensures var r := FilterByDistanceAndHeight(pc, center, radius, yMin, yMax);
      && (forall p :: p in r.points ==> InsideSphere(p, center, radius) && WithinHeight(p, yMin, yMax))
      && (forall i :: 0 <= i < |pc.points| && Retained(pc.points[i], center, radius, yMin, yMax) ==> pc.points[i] in r.points)
  {
    var mask := RetainMask(pc.points, center, radius, yMin, yMax);
    var points := FilterByDistanceAndHeight(pc, center, radius, yMin, yMax).points;
    assert points == Select(pc.points, mask);
    forall p | p in points
      ensures Retained(p, center, radius, yMin, yMax)
    {
      SelectOnlyMarked(pc.points, mask, p);
    }
    forall i | 0 <= i < |pc.points| && Retained(pc.points[i], center, radius, yMin, yMax)
      ensures pc.points[i] in points
    {
      SelectKeeps(pc.points, mask, i);
    }
  }

  /** A non-positive radius, or an empty slab, keeps nothing, and the result is a valid empty cloud. */
  lemma EmptyRegionKeepsNothing(pc: PointCloud, center: Vec3, radius: real, yMin: real, yMax: real)
    requires radius <= 0.0 || yMin > yMax
    ensures FilterByDistanceAndHeight(pc, center, radius, yMin, yMax) == EmptyCloud
  {
    var mask := RetainMask(pc.points, center, radius, yMin, yMax);
    SelectNone(pc.points, mask);
    if HasColors(pc) {
      SelectNone(pc.colors, mask);
    }
  }
}
