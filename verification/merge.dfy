/**
 * Incremental multi-view registration: every view after the first is
 * aligned by point-to-plane ICP against the cloud accumulated so far, added
 * to it, and the sum is downsampled; the final cloud then has its Y and Z
 * axes negated once.
 */
module Merge {
  import opened Linear
  import opened PointClouds
  import opened Open3D

  /**
   * The ICP call pairwise_registration makes: both clouds downsampled at the
   * voxel size, with normals estimated by the default search, the identity as
   * the initial transform, and twice the voxel size as the largest
   * correspondence distance.
   */
  function PairwiseRequest(lib: Library, source: PointCloud, target: PointCloud, voxelSize: real): (q: IcpRequest)
    ensures q.init == Identity4
    ensures q.maxCorrespondenceDistance == 2.0 * voxelSize
    ensures q.source.cloud == lib.voxelDownSample(source, voxelSize)
    ensures q.target.cloud == lib.voxelDownSample(target, voxelSize)
    ensures q.source.normals == lib.estimateNormals(q.source.cloud, KnnDefault)
    ensures q.target.normals == lib.estimateNormals(q.target.cloud, KnnDefault)
  {
    var sourceDown := lib.voxelDownSample(source, voxelSize);
    var targetDown := lib.voxelDownSample(target, voxelSize);
    IcpRequest(
      OrientedCloud(sourceDown, lib.estimateNormals(sourceDown, KnnDefault)),
      OrientedCloud(targetDown, lib.estimateNormals(targetDown, KnnDefault)),
      voxelSize * 2.0,
      Identity4)
  }

  /** pairwise_registration: the transform ICP returns for that call. */
  function PairwiseRegistration(lib: Library, source: PointCloud, target: PointCloud, voxelSize: real): Mat4 {
    lib.registrationIcpPointToPlane(PairwiseRequest(lib, source, target, voxelSize))
  }

  /**
   * The accumulated target after the first n views: view 0 alone, then for
   * each next view, the previous target plus that view moved by the transform
   * that aligns it to the previous target, downsampled.
   */
  function MergedPrefix(lib: Library, views: seq<PointCloud>, voxelSize: real, n: nat): PointCloud
    requires 1 <= n <= |views|
  {
    if n == 1 then views[0]
    else
      var previous := MergedPrefix(lib, views, voxelSize, n - 1);
      var t := PairwiseRegistration(lib, views[n - 1], previous, voxelSize);
      lib.voxelDownSample(Union(previous, TransformCloud(t, views[n - 1])), voxelSize)
  }

  /** The axis correction (x, y, z) -> (x, -y, -z); colours are untouched. */
  function FlipYZ(pc: PointCloud): (r: PointCloud)
    ensures |r.points| == |pc.points| && r.colors == pc.colors
    ensures forall i :: 0 <= i < |pc.points| ==> r.points[i].x == pc.points[i].x
  {
    PointCloud(seq(|pc.points|, i requires 0 <= i < |pc.points| => Vec3(pc.points[i].x, -pc.points[i].y, -pc.points[i].z)), pc.colors)
  }

  /** The correction undoes itself. */
  lemma FlipYZIsInvolution(pc: PointCloud)
    ensures FlipYZ(FlipYZ(pc)) == pc
  {
    var once := FlipYZ(pc);
    var twice := FlipYZ(once);
    assert twice.points == pc.points by {
      forall i | 0 <= i < |pc.points|
        ensures twice.points[i] == pc.points[i]
      {
        assert once.points[i] == Vec3(pc.points[i].x, -pc.points[i].y, -pc.points[i].z);
      }
    }
  }

  /** The correction negates the y and z of every point. */
  lemma FlipYZNegates(pc: PointCloud, i: nat)
    requires i < |pc.points|
    ensures FlipYZ(pc).points[i] == Vec3(pc.points[i].x, -pc.points[i].y, -pc.points[i].z)
  {
  }

  /** The ICP calls made while merging the first n views, in order. */
  function RegistrationRequests(lib: Library, views: seq<PointCloud>, voxelSize: real, n: nat): (qs: seq<IcpRequest>)
    requires 1 <= n <= |views|
    ensures |qs| == n - 1
  {
    if n == 1 then []
    else
      RegistrationRequests(lib, views, voxelSize, n - 1)
        + [PairwiseRequest(lib, views[n - 1], MergedPrefix(lib, views, voxelSize, n - 1), voxelSize)]
  }

  /** Call i - 1 aligns view i against the target accumulated from views 0 .. i-1. */
  lemma {:induction false} RegistrationRequestsAt(lib: Library, views: seq<PointCloud>, voxelSize: real, n: nat, i: nat)
    requires 1 <= i < n <= |views|
    ensures RegistrationRequests(lib, views, voxelSize, n)[i - 1]
      == PairwiseRequest(lib, views[i], MergedPrefix(lib, views, voxelSize, i), voxelSize)
  {
    if i < n - 1 {
      RegistrationRequestsAt(lib, views, voxelSize, n - 1, i);
    }
  }

  /**
   * multi_registration on already loaded views. `registrations` lists the ICP
   * calls in the order they are made: one per view after the first, each
   * against the target accumulated so far.
   */
  method MultiRegistration(lib: Library, views: seq<PointCloud>, voxelSize: real)
    returns (merged: PointCloud, registrations: seq<IcpRequest>)
    requires |views| >= 1
    ensures merged == FlipYZ(MergedPrefix(lib, views, voxelSize, |views|))
    ensures registrations == RegistrationRequests(lib, views, voxelSize, |views|)
    ensures |views| == 1 ==> merged == FlipYZ(views[0]) && registrations == []
  {
    var pcds := views;
    var target := pcds[0];
    registrations := [];
    for i := 1 to |pcds|
      invariant |pcds| == |views| && pcds[i..] == views[i..]
      invariant target == MergedPrefix(lib, views, voxelSize, i)
      invariant registrations == RegistrationRequests(lib, views, voxelSize, i)
    {
      assert pcds[i] == views[i];
      var request := PairwiseRequest(lib, pcds[i], target, voxelSize);
      var t := lib.registrationIcpPointToPlane(request);
      pcds := pcds[i := TransformCloud(t, pcds[i])];
      target := Union(target, pcds[i]);
      target := lib.voxelDownSample(target, voxelSize);
      registrations := registrations + [request];
    }
    merged := FlipYZ(target);
  }
}
