/**
 * Point clouds as values: ordered positions with a parallel, possibly empty,
 * sequence of RGB colours; numpy boolean-mask indexing; and the two Open3D
 * cloud operations whose effect on positions and colours the pipeline
 * depends on (`+=` and `transform`).
 */
module PointClouds {
  import opened Linear

  /** An RGB colour with channels nominally in [0, 1]. */
  datatype Rgb = Rgb(r: real, g: real, b: real)

  datatype PointCloud = PointCloud(points: seq<Vec3>, colors: seq<Rgb>)

  const EmptyCloud: PointCloud := PointCloud([], [])

  /** Open3D's `has_colors()`: some points, and exactly one colour per point. */
  predicate HasColors(pc: PointCloud) {
    |pc.points| > 0 && |pc.colors| == |pc.points|
  }

  /** Colours are either absent or one per point. */
  predicate WellFormed(pc: PointCloud) {
    |pc.colors| == 0 || |pc.colors| == |pc.points|
  }

  // ---------------------------------------------------------------------
  // Boolean-mask indexing, `a[mask]` in numpy
  // ---------------------------------------------------------------------

  /** The positions at which the mask holds, in increasing order. */
  function TrueIndices(mask: seq<bool>): (idx: seq<nat>)
    ensures |idx| <= |mask|
    ensures forall k :: 0 <= k < |idx| ==> idx[k] < |mask| && mask[idx[k]]
    ensures forall a, b :: 0 <= a < b < |idx| ==> idx[a] < idx[b]
    ensures forall i :: 0 <= i < |mask| && mask[i] ==> i in idx
  {
    if mask == [] then []
    else
      var n := |mask| - 1;
      TrueIndices(mask[..n]) + (if mask[n] then [n] else [])
  }

  /**
   * numpy's `s[mask]`: the elements of s at the positions where the mask
   * holds, in their original order.
   */
  function Select<T>(s: seq<T>, mask: seq<bool>): (r: seq<T>)
    requires |s| == |mask|
    ensures |r| == |TrueIndices(mask)|
    ensures forall k :: 0 <= k < |r| ==> r[k] == s[TrueIndices(mask)[k]]
  {
    if s == [] then []
    else
      var n := |s| - 1;
      Select(s[..n], mask[..n]) + (if mask[n] then [s[n]] else [])
  }

  /** No element whose mask bit is set is dropped. */
  lemma SelectKeeps<T>(s: seq<T>, mask: seq<bool>, i: nat)
    requires |s| == |mask| && i < |s| && mask[i]
    ensures s[i] in Select(s, mask)
  {
    var idx := TrueIndices(mask);
    assert i in idx;
    var k :| 0 <= k < |idx| && idx[k] == i;
    assert Select(s, mask)[k] == s[i];
  }

  /** Every selected element sits at a position whose mask bit is set. */
  lemma SelectOnlyMarked<T>(s: seq<T>, mask: seq<bool>, x: T)
    requires |s| == |mask| && x in Select(s, mask)
    ensures exists i :: 0 <= i < |s| && mask[i] && s[i] == x
  {
    var r := Select(s, mask);
    var k :| 0 <= k < |r| && r[k] == x;
    var i := TrueIndices(mask)[k];
    assert mask[i] && s[i] == x;
  }

  function Negate(mask: seq<bool>): (m: seq<bool>)
    ensures |m| == |mask| && forall i :: 0 <= i < |mask| ==> m[i] == !mask[i]
  {
    seq(|mask|, i requires 0 <= i < |mask| => !mask[i])
  }

  /** A mask and its negation split the positions between them. */
  lemma {:induction false} SplitByMask(mask: seq<bool>)
    ensures |TrueIndices(mask)| + |TrueIndices(Negate(mask))| == |mask|
  {
    if mask != [] {
      var n := |mask| - 1;
      var neg := Negate(mask);
      assert neg[..n] == Negate(mask[..n]);
      SplitByMask(mask[..n]);
      assert |TrueIndices(mask)| == |TrueIndices(mask[..n])| + (if mask[n] then 1 else 0);
      assert |TrueIndices(neg)| == |TrueIndices(neg[..n])| + (if neg[n] then 1 else 0);
    }
  }

  /** With no mask bit set nothing is selected. */
  lemma SelectNone<T>(s: seq<T>, mask: seq<bool>)
    requires |s| == |mask|
    requires forall i :: 0 <= i < |mask| ==> !mask[i]
    ensures Select(s, mask) == []
  {
  }

  // ---------------------------------------------------------------------
  // Open3D cloud operations
  // ---------------------------------------------------------------------

  /**
   * Open3D's `target += other`: an empty `other` leaves the target as it is;
   * otherwise the points are concatenated, and the colours are concatenated
   * when `other` has colours and the target has no points or has colours,
   * and are cleared otherwise.
   */
  function Union(target: PointCloud, other: PointCloud): (r: PointCloud)
    ensures r.points == target.points + other.points
    ensures WellFormed(target) ==> WellFormed(r)
    ensures |other.points| == 0 ==> r == target
    ensures HasColors(target) && HasColors(other) ==> r.colors == target.colors + other.colors
    ensures |other.points| > 0 && |target.points| == 0 && HasColors(other) ==> r.colors == other.colors
    ensures |other.points| > 0 && !HasColors(other) ==> r.colors == []
    ensures |other.points| > 0 && |target.points| > 0 && !HasColors(target) ==> r.colors == []
  {
    if |other.points| == 0 then target
    else
      var colors :=
        if (|target.points| == 0 || HasColors(target)) && HasColors(other) then
          (if |target.points| == 0 then other.colors else target.colors + other.colors)
        else [];
      PointCloud(target.points + other.points, colors)
  }

  /** Open3D's `pcd.transform(t)` on positions: every point is mapped, colours stay. */
  function TransformCloud(t: Mat4, pc: PointCloud): (r: PointCloud)
    ensures |r.points| == |pc.points| && r.colors == pc.colors
    ensures forall i :: 0 <= i < |pc.points| ==> r.points[i] == Apply(t, pc.points[i])
  {
    PointCloud(seq(|pc.points|, i requires 0 <= i < |pc.points| => Apply(t, pc.points[i])), pc.colors)
  }

  /** Transforming by the identity leaves a cloud unchanged. */
  lemma TransformByIdentity(pc: PointCloud)
    ensures TransformCloud(Identity4, pc) == pc
  {
    var r := TransformCloud(Identity4, pc);
    forall i | 0 <= i < |pc.points|
      ensures r.points[i] == pc.points[i]
    {
      ApplyIdentity(pc.points[i]);
    }
  }
}
