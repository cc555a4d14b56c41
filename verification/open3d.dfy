/**
 * The parts of the Open3D library the pipeline calls. The numerical
 * primitives (voxel downsampling, normal estimation and orientation, ICP,
 * DBSCAN, Poisson reconstruction, cropping, Laplacian smoothing, vertex
 * normals) are fields of `Library`, so every model that uses them holds for
 * whatever those primitives compute. The bounding box and uniform painting,
 * whose effect is plain, are written out.
 */
module Open3D {
  import opened Linear
  import opened PointClouds

  /** The neighbourhood used for normal estimation. */
  datatype SearchParam =
    | KnnDefault                              // KDTreeSearchParamKNN() with its default of 30 neighbours
    | Hybrid(radius: real, maxNn: nat)        // KDTreeSearchParamHybrid(radius, max_nn)

  /** A cloud together with the normals estimated for it. */
  datatype OrientedCloud = OrientedCloud(cloud: PointCloud, normals: seq<Vec3>)

  /** The arguments of one point-to-plane `registration_icp` call. */
  datatype IcpRequest = IcpRequest(
    source: OrientedCloud,
    target: OrientedCloud,
    maxCorrespondenceDistance: real,
    init: Mat4)

  datatype Triangle = Triangle(a: nat, b: nat, c: nat)

  datatype Mesh = Mesh(
    vertices: seq<Vec3>,
    triangles: seq<Triangle>,
    vertexNormals: seq<Vec3>,
    vertexColors: seq<Rgb>)

  /** An axis-aligned bounding box. */
  datatype Aabb = Aabb(minBound: Vec3, maxBound: Vec3)

  predicate InBox(b: Aabb, p: Vec3) {
    && b.minBound.x <= p.x <= b.maxBound.x
    && b.minBound.y <= p.y <= b.maxBound.y
    && b.minBound.z <= p.z <= b.maxBound.z
  }

  function MinVec(a: Vec3, b: Vec3): Vec3 {
    Vec3(if a.x <= b.x then a.x else b.x, if a.y <= b.y then a.y else b.y, if a.z <= b.z then a.z else b.z)
  }

  function MaxVec(a: Vec3, b: Vec3): Vec3 {
    Vec3(if a.x >= b.x then a.x else b.x, if a.y >= b.y then a.y else b.y, if a.z >= b.z then a.z else b.z)
  }

  /**
   * `get_axis_aligned_bounding_box()`: the componentwise minimum and maximum
   * of the points; Open3D gives the origin for both bounds of an empty cloud.
   */
  function BoundingBox(points: seq<Vec3>): Aabb {
    if points == [] then Aabb(Vec3(0.0, 0.0, 0.0), Vec3(0.0, 0.0, 0.0))
    else if |points| == 1 then Aabb(points[0], points[0])
    else
      var rest := BoundingBox(points[1..]);
      Aabb(MinVec(points[0], rest.minBound), MaxVec(points[0], rest.maxBound))
  }

  /** The box holds every point. */
  lemma {:induction false} BoundingBoxHoldsPoints(points: seq<Vec3>)
    ensures forall p :: p in points ==> InBox(BoundingBox(points), p)
  {
    if |points| > 1 {
      BoundingBoxHoldsPoints(points[1..]);
      assert forall p :: p in points ==> p == points[0] || p in points[1..];
    }
  }

  /** Each of the six faces of the box of a non-empty cloud touches a point. */
  lemma {:induction false} BoundingBoxIsTight(points: seq<Vec3>)
    requires points != []
    ensures var b := BoundingBox(points);
      && (exists p :: p in points && p.x == b.minBound.x)
      && (exists p :: p in points && p.y == b.minBound.y)
      && (exists p :: p in points && p.z == b.minBound.z)
      && (exists p :: p in points && p.x == b.maxBound.x)
      && (exists p :: p in points && p.y == b.maxBound.y)
      && (exists p :: p in points && p.z == b.maxBound.z)
  {
    assert points[0] in points;
    if |points| > 1 {
      BoundingBoxIsTight(points[1..]);
      assert forall p :: p in points[1..] ==> p in points;
    }
  }

  function Clamp01(v: real): real {
    if v < 0.0 then 0.0 else if v > 1.0 then 1.0 else v
  }

  /**
   * `paint_uniform_color(c)`: every vertex gets the colour c, clipped to
   * [0, 1]; geometry is untouched.
   */
  function PaintUniformColor(m: Mesh, c: Rgb): (r: Mesh)
    ensures r.vertices == m.vertices && r.triangles == m.triangles && r.vertexNormals == m.vertexNormals
    ensures |r.vertexColors| == |m.vertices|
    ensures forall k :: 0 <= k < |r.vertexColors| ==> r.vertexColors[k] == Rgb(Clamp01(c.r), Clamp01(c.g), Clamp01(c.b))
  {
    var clipped := Rgb(Clamp01(c.r), Clamp01(c.g), Clamp01(c.b));
    m.(vertexColors := seq(|m.vertices|, _ => clipped))
  }

  /** The numerical primitives, whose results the model does not inspect. */
  datatype Library = Library(
    voxelDownSample: (PointCloud, real) -> PointCloud,
    estimateNormals: (PointCloud, SearchParam) -> seq<Vec3>,
    orientNormalsConsistentTangentPlane: (OrientedCloud, nat) -> seq<Vec3>,
    registrationIcpPointToPlane: IcpRequest -> Mat4,
    clusterDbscan: (PointCloud, real, nat) -> seq<int>,
    createFromPointCloudPoisson: (OrientedCloud, nat) -> Mesh,
    crop: (Mesh, Aabb) -> Mesh,
    filterSmoothLaplacian: (Mesh, nat) -> Mesh,
    computeVertexNormals: Mesh -> Mesh)
}
