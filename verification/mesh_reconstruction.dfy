/**
 * Poisson surface reconstruction, either of the whole cloud or of one
 * subset per selected cluster id, with the names the meshes are saved under.
 */
module MeshReconstruction {
  import opened PointClouds
  import opened Open3D
  import opened Decimal
  import opened Wrappers

  const NormalSearch: SearchParam := Hybrid(0.01, 30)
  const OrientNeighbours: nat := 100
  const PoissonDepth: nat := 9
  const SmoothingIterations: nat := 5
  const ReclusterMinPoints: nat := 20
  const ClusterGrey: Rgb := Rgb(0.8, 0.8, 0.8)
  const WholeMeshFileName: string := "foot_mesh.ply"

  /** `f"mesh_cluster{i+1}_poisson.ply"`: numbered from 1. */
  function ClusterMeshFileName(i: nat): string {
    "mesh_cluster" + DecimalString(i + 1) + "_poisson.ply"
  }

  /** The name is the prefix, the 1-based number in decimal, and the suffix, which can be read back. */
  lemma ClusterMeshFileNameParts(i: nat)
    ensures var name := ClusterMeshFileName(i);
      && |name| == 24 + |DecimalString(i + 1)|
      && name[..12] == "mesh_cluster" && name[|name| - 12..] == "_poisson.ply"
      && name[12..|name| - 12] == DecimalString(i + 1)
  {
  }

  /** Different clusters are saved under different names, none of them the whole-cloud name. */
  lemma ClusterMeshFileNamesDistinct(i: nat, j: nat)
    ensures i != j ==> ClusterMeshFileName(i) != ClusterMeshFileName(j)
    ensures ClusterMeshFileName(i) != WholeMeshFileName
  {
    ClusterMeshFileNameParts(i);
    ClusterMeshFileNameParts(j);
    if i != j && ClusterMeshFileName(i) == ClusterMeshFileName(j) {
      DecimalStringInjective(i + 1, j + 1);
    }
  }

  /**
   * The reconstruction both modes apply to a cloud: hybrid-search normals,
   * oriented over 100 neighbours, Poisson at depth 9, cropped to the cloud's
   * bounding box, five Laplacian smoothing passes, then vertex normals.
   */
  function PoissonSurface(lib: Library, pc: PointCloud): Mesh {
    var normals := lib.estimateNormals(pc, NormalSearch);
    var oriented := OrientedCloud(pc, lib.orientNormalsConsistentTangentPlane(OrientedCloud(pc, normals), OrientNeighbours));
    var mesh := lib.createFromPointCloudPoisson(oriented, PoissonDepth);
    var cropped := lib.crop(mesh, BoundingBox(pc.points));
    lib.computeVertexNormals(lib.filterSmoothLaplacian(cropped, SmoothingIterations))
  }

  /** `labels == cluster_id`. */
  function LabelMask(labels: seq<int>, id: int): (mask: seq<bool>)
    ensures |mask| == |labels| && forall i :: 0 <= i < |labels| ==> (mask[i] <==> labels[i] == id)
  {
    seq(|labels|, i requires 0 <= i < |labels| => labels[i] == id)
  }

  /** `filtered_points[labels == id]` and `filtered_colors[labels == id]`. */
  function ClusterSubset(pc: PointCloud, labels: seq<int>, id: int): PointCloud
    requires |labels| == |pc.points| && |pc.colors| == |pc.points|
  {
    var mask := LabelMask(labels, id);
    PointCloud(Select(pc.points, mask), Select(pc.colors, mask))
  }

  /**
   * The subset for `id` is exactly the points labelled `id`, in their
   * original order, each with its own colour.
   */
  lemma ClusterSubsetMembers(pc: PointCloud, labels: seq<int>, id: int)
    requires |labels| == |pc.points| && |pc.colors| == |pc.points|
    ensures var r := ClusterSubset(pc, labels, id);
      var idx := TrueIndices(LabelMask(labels, id));
      && |r.colors| == |r.points| == |idx| <= |pc.points|
      && (forall k :: 0 <= k < |idx| ==>
            labels[idx[k]] == id && r.points[k] == pc.points[idx[k]] && r.colors[k] == pc.colors[idx[k]])
      && (forall i :: 0 <= i < |labels| && labels[i] == id ==> i in idx)
  {
  }

  /** Subsets for different ids draw on disjoint point positions. */
  lemma ClusterSubsetsDisjoint(labels: seq<int>, a: int, b: int)
    requires a != b
    ensures var ia := TrueIndices(LabelMask(labels, a));
      var ib := TrueIndices(LabelMask(labels, b));
      forall i :: i in ia ==> i !in ib
  {
    var ia := TrueIndices(LabelMask(labels, a));
    var ib := TrueIndices(LabelMask(labels, b));
    forall i | i in ia
      ensures i !in ib
    {
      var k :| 0 <= k < |ia| && ia[k] == i;
      assert labels[i] == a;
    }
  }

  /** An id that no point carries gives an empty subset rather than an error. */
  lemma MissingClusterIsEmpty(pc: PointCloud, labels: seq<int>, id: int)
    requires |labels| == |pc.points| && |pc.colors| == |pc.points|
    requires id !in labels
    ensures ClusterSubset(pc, labels, id) == EmptyCloud
  {
    var mask := LabelMask(labels, id);
    SelectNone(pc.points, mask);
    SelectNone(pc.colors, mask);
  }

  /** A cluster's mesh: its subset reconstructed and painted grey. */
  function GreyMesh(lib: Library, cluster: PointCloud): Mesh {
    PaintUniformColor(PoissonSurface(lib, cluster), ClusterGrey)
  }

  /** A cluster mesh has one colour per vertex, all of them the grey. */
  lemma GreyMeshIsGrey(lib: Library, cluster: PointCloud)
    ensures var m := GreyMesh(lib, cluster);
      |m.vertexColors| == |m.vertices| && forall k :: 0 <= k < |m.vertexColors| ==> m.vertexColors[k] == ClusterGrey
  {
  }

  /** The subsets for the ids, in order. */
  function ClusterSubsets(pc: PointCloud, labels: seq<int>, ids: seq<int>): (cs: seq<PointCloud>)
    requires |labels| == |pc.points| && |pc.colors| == |pc.points|
    ensures |cs| == |ids| && forall i :: 0 <= i < |ids| ==> cs[i] == ClusterSubset(pc, labels, ids[i])
  {
    seq(|ids|, i requires 0 <= i < |ids| => ClusterSubset(pc, labels, ids[i]))
  }

  /** The grey meshes of the clouds in order, the spec of the per-cluster loop. */
  function GreyMeshes(lib: Library, clusters: seq<PointCloud>): (ms: seq<Mesh>)
    ensures |ms| == |clusters|
  {
    if clusters == [] then []
    else
      var n := |clusters| - 1;
      GreyMeshes(lib, clusters[..n]) + [GreyMesh(lib, clusters[n])]
  }

  /** Mesh i is the one built from cloud i. */
  lemma {:induction false} GreyMeshesAt(lib: Library, clusters: seq<PointCloud>, i: nat)
    requires i < |clusters|
    ensures GreyMeshes(lib, clusters)[i] == GreyMesh(lib, clusters[i])
  {
    var n := |clusters| - 1;
    if i < n {
      GreyMeshesAt(lib, clusters[..n], i);
      assert clusters[..n][i] == clusters[i];
    }
  }

  /** A mesh written to disk, under its file name relative to the mesh directory. */
  datatype SavedMesh = SavedMesh(fileName: string, mesh: Mesh)

  /** The files the per-cluster loop writes: mesh i under its 1-based name. */
  function SavedClusterMeshes(meshes: seq<Mesh>): (saved: seq<SavedMesh>)
    ensures |saved| == |meshes|
  {
    if meshes == [] then []
    else
      var n := |meshes| - 1;
      SavedClusterMeshes(meshes[..n]) + [SavedMesh(ClusterMeshFileName(n), meshes[n])]
  }

  /** File i holds mesh i under the name numbered i + 1, and no two files share a name. */
  lemma {:induction false} SavedClusterMeshesNamed(meshes: seq<Mesh>)
    ensures var saved := SavedClusterMeshes(meshes);
      && (forall i :: 0 <= i < |saved| ==> saved[i] == SavedMesh(ClusterMeshFileName(i), meshes[i]))
      && (forall a, b :: 0 <= a < b < |saved| ==> saved[a].fileName != saved[b].fileName)
  {
    var saved := SavedClusterMeshes(meshes);
    if meshes != [] {
      var n := |meshes| - 1;
      SavedClusterMeshesNamed(meshes[..n]);
      forall i | 0 <= i < |saved|
        ensures saved[i] == SavedMesh(ClusterMeshFileName(i), meshes[i])
      {
        if i < n {
          assert saved[i] == SavedClusterMeshes(meshes[..n])[i];
        }
      }
      forall a, b | 0 <= a < b < |saved|
        ensures saved[a].fileName != saved[b].fileName
      {
        ClusterMeshFileNamesDistinct(a, b);
      }
    }
  }

  /** One more cluster id appends that cluster's grey mesh. */
  lemma GreyMeshesStep(lib: Library, pcd: PointCloud, labels: seq<int>, ids: seq<int>, i: nat)
    requires |labels| == |pcd.points| && |pcd.colors| == |pcd.points| && i < |ids|
    ensures GreyMeshes(lib, ClusterSubsets(pcd, labels, ids[..i + 1]))
      == GreyMeshes(lib, ClusterSubsets(pcd, labels, ids[..i])) + [GreyMesh(lib, ClusterSubset(pcd, labels, ids[i]))]
  {
    var clusters := ClusterSubsets(pcd, labels, ids[..i + 1]);
    assert clusters[..i] == ClusterSubsets(pcd, labels, ids[..i]);
  }

  /**
   * The per-cluster loop: mesh i is built from the points labelled ids[i]
   * and painted grey; when saving, it is written under its 1-based name.
   */
  method BuildClusterMeshes(lib: Library, pcd: PointCloud, labels: seq<int>, ids: seq<int>, saving: bool)
    returns (meshes: seq<Mesh>, saved: seq<SavedMesh>)
    requires |labels| == |pcd.points| && |pcd.colors| == |pcd.points|
    ensures meshes == GreyMeshes(lib, ClusterSubsets(pcd, labels, ids))
    ensures saved == if saving then SavedClusterMeshes(meshes) else []
  {
    meshes := [];
    saved := [];
    for i := 0 to |ids|
      invariant meshes == GreyMeshes(lib, ClusterSubsets(pcd, labels, ids[..i]))
      invariant saved == if saving then SavedClusterMeshes(meshes) else []
    {
      var cluster := ClusterSubset(pcd, labels, ids[i]);
      var mesh := PoissonSurface(lib, cluster);
      mesh := PaintUniformColor(mesh, ClusterGrey);
      GreyMeshesStep(lib, pcd, labels, ids, i);
      meshes := meshes + [mesh];
      if saving {
        saved := saved + [SavedMesh(ClusterMeshFileName(i), mesh)];
      }
    }
    assert ids[..|ids|] == ids;
  }

  /**
   * poisson_mesh_from_pcd. With no cluster ids, one unpainted mesh of the
   * whole cloud. With ids, the cloud is clustered again (the caller's eps,
   * 20 as the minimum cluster size) and mesh i is built from the points
   * labelled ids[i], painted grey. `saving` says whether a mesh directory was
   * given; `saved` lists the files written, in order.
   */
  method PoissonMeshFromPcd(lib: Library, pcd: PointCloud, topClusters: Option<seq<int>>, eps: real, saving: bool)
    returns (meshes: seq<Mesh>, saved: seq<SavedMesh>)
    requires topClusters.Some? ==>
      |lib.clusterDbscan(pcd, eps, ReclusterMinPoints)| == |pcd.points| && |pcd.colors| == |pcd.points|
    ensures topClusters.None? ==> meshes == [PoissonSurface(lib, pcd)]
    ensures topClusters.None? ==> saved == if saving then [SavedMesh(WholeMeshFileName, meshes[0])] else []
    ensures topClusters.Some? ==>
      && |meshes| == |topClusters.value|
      && meshes == GreyMeshes(lib, ClusterSubsets(pcd, lib.clusterDbscan(pcd, eps, ReclusterMinPoints), topClusters.value))
      && saved == if saving then SavedClusterMeshes(meshes) else []
    ensures forall a, b :: 0 <= a < b < |saved| ==> saved[a].fileName != saved[b].fileName
  {
    if topClusters.None? {
      var mesh := PoissonSurface(lib, pcd);
      meshes := [mesh];
      saved := if saving then [SavedMesh(WholeMeshFileName, mesh)] else [];
    } else {
      var labels := lib.clusterDbscan(pcd, eps, ReclusterMinPoints);
      meshes, saved := BuildClusterMeshes(lib, pcd, labels, topClusters.value, saving);
      SavedClusterMeshesNamed(meshes);
    }
  }
}
