# Foot-scanner point-cloud processing, modelled in Dafny

This project models the processing stage of a multi-view 3D foot scanner. Several
depth views of a foot are captured on a circular rig. Each view is

1. cropped to a sphere and a height slab (`filter.py`);
2. placed into a common world frame by a yaw rotation and a rig offset (`transform.py`);
3. registered into one cloud, view by view, with point-to-plane ICP (`merge.py`);
4. cleaned of the green background and of everything but the largest DBSCAN
   clusters (`noise_removal.py`);
5. turned into one Poisson mesh, or one mesh per selected cluster
   (`mesh_reconstruction.py`).

Coordinates are `real`, cluster labels are `int`, and file names are `string`.
The numerical Open3D primitives are the function-valued fields of
`Open3D.Library`. They are voxel downsampling, normal estimation and
orientation, ICP, DBSCAN label assignment, Poisson reconstruction, crop,
Laplacian smoothing and vertex normals. Every property proved here holds for
whatever those primitives compute, under one assumption: the per-cluster
properties of `MeshReconstruction.PoissonMeshFromPcd` require DBSCAN to
return one label per point. The Open3D behaviour the pipeline relies on
is written out:

- `has_colors()`;
- `+=` on clouds, including its colour rule;
- `transform` on points;
- the axis-aligned bounding box;
- `paint_uniform_color`.

numpy boolean-mask indexing is `PointClouds.Select`. Its kept positions are
`PointClouds.TrueIndices`. `np.argsort` does not fix the order of equal
counts, so the permutation it returns is an input constrained by
`Argsort.IsArgsort`. `Argsort.StableArgsort` shows that one always exists.

The pure files (`filter.py`, `transform.py`, `noise_removal.py`) become
functions with lemmas. The two files that work step by step become methods
with loops over local values:

- `merge.py` becomes `Merge.MultiRegistration`, which is proved against the fold
  `Merge.MergedPrefix`;
- `mesh_reconstruction.py` becomes `MeshReconstruction.PoissonMeshFromPcd`.

File loading is left out, so each operation takes the already loaded cloud.
Only `poisson_mesh_from_pcd`'s writes are reported as data: `PoissonMeshFromPcd`
returns the file names and meshes it writes. `MultiRegistration` also returns
the ICP calls it made.

Modules: `Linear` (vectors and 3x3/4x4 matrices), `Wrappers` (Option),
`PointClouds`, `Open3D`, `Filter`, `Placement`, `Merge`, `Argsort`,
`NoiseRemoval`, `Decimal` and `MeshReconstruction`.

For a single view the loop at `src/processing/merge.py:61-70` does not run, so
there is no registration and no downsampling, and the result is just the
axis-flipped view (see `Merge.MultiRegistration`).

## Model

| member | source | states |
|---|---|---|
| Linear.Homogeneous | src/processing/transform.py:32-34 | the 4x4 matrix built from a rotation block and a translation column has exactly that block, that column and the bottom row (0, 0, 0, 1) |
| Linear.ApplyIdentity | src/processing/merge.py:31 | applying `np.eye(4)` to a point leaves it unchanged |
| PointClouds.TrueIndices | src/processing/filter.py:41 | the positions a boolean mask keeps: in range, marked, strictly increasing, and every marked position is listed |
| PointClouds.Select | src/processing/filter.py:41 | `s[mask]` has one element per kept position, and element k is `s` at the k-th kept position (order preserved) |
| PointClouds.SelectKeeps | src/processing/filter.py:41 | an element whose mask bit is set appears in the selection |
| PointClouds.SelectOnlyMarked | src/processing/filter.py:41 | every selected element comes from a position whose mask bit is set |
| PointClouds.SplitByMask | src/processing/noise_removal.py:25-29 | a mask and its negation together keep exactly as many positions as there are elements |
| PointClouds.SelectNone | src/processing/filter.py:41 | an all-false mask selects nothing |
| PointClouds.HasColors | src/processing/filter.py:48 | definition (no contract): Open3D's `has_colors()`, true exactly when the cloud has points and one colour per point |
| PointClouds.Union | src/processing/merge.py:68 | `target += other` concatenates the points; an empty `other` leaves the target as it is; otherwise colours are concatenated when both clouds have colours, an empty target takes a coloured `other`'s colours, and colours are cleared when `other` has none or a non-empty target has none; one-colour-per-point is preserved |
| PointClouds.TransformCloud | src/processing/merge.py:66 | `pcd.transform(T)` maps every point through the affine part of T and keeps count and colours |
| PointClouds.TransformByIdentity | src/processing/merge.py:31-38 | transforming by the identity, the ICP initial guess, leaves a cloud unchanged |
| Open3D.BoundingBox | src/processing/mesh_reconstruction.py:32 | definition (no contract): the axis-aligned box, the componentwise minimum and maximum of the points; its properties are the two lemmas below |
| Open3D.BoundingBoxHoldsPoints | src/processing/mesh_reconstruction.py:32-33 | the axis-aligned box the mesh is cropped to contains every point of the cloud |
| Open3D.BoundingBoxIsTight | src/processing/mesh_reconstruction.py:32-33 | for a non-empty cloud, each of the six faces of that box touches a point of the cloud |
| Open3D.PaintUniformColor | src/processing/mesh_reconstruction.py:77 | every vertex gets the clipped colour, one colour per vertex, and vertices, triangles and normals are unchanged |
| Filter.InsideSphere | src/processing/filter.py:29-30 | definition (no contract): the distance test on squares, false for every radius that is not positive |
| Filter.WithinHeight | src/processing/filter.py:33-35 | definition (no contract): y_min ≤ y ≤ y_max, inclusive at both ends |
| Filter.RetainMask | src/processing/filter.py:29-38 | one bit per point; bit i is "strictly inside the sphere and y in [y_min, y_max]" for point i |
| Filter.SquaredTestIsDistanceTest | src/processing/filter.py:29-30 | for d the non-negative distance to the centre, `d < radius` holds exactly when the squared test `InsideSphere` holds |
| Filter.FilterByDistanceAndHeight | src/processing/filter.py:26-53 | the result is well formed and is the in-order subsequence of the points at the positions the sphere-and-slab mask keeps; colours are taken at the same positions when the input has colours, and the result has none otherwise |
| Filter.FilterKeepsExactlyRetained | src/processing/filter.py:29-41 | every kept point is strictly inside the sphere and has y in [y_min, y_max], and every input point that passes both tests is kept |
| Filter.EmptyRegionKeepsNothing | src/processing/filter.py:29-41 | a non-positive radius or y_min > y_max yields the empty cloud |
| Placement.RigOffset | src/processing/transform.py:28-34 | definition (no contract): the translation column (-r·sin θ, 0, -r·cos θ) |
| Placement.YawRotation | src/processing/transform.py:21-25 | definition (no contract): the yaw matrix with rows (c, 0, s), (0, 1, 0), (-s, 0, c), where s and c are the sine and cosine of the angle |
| Placement.PlacementMatrix | src/processing/transform.py:21-34 | T has the yaw rotation as its upper-left block, (-r sin θ, 0, -r cos θ) as its translation, (0, 0, 0, 1) as its last row and an untouched second row |
| Placement.PlaceCloud | src/processing/transform.py:37 | every point p becomes R p + t, heights are kept, and count and colours are unchanged |
| Placement.YawRotationIsOrthonormal | src/processing/transform.py:21-25 | with sin² + cos² = 1, R Rᵀ = Rᵀ R = I and det R = 1 |
| Placement.PlacementIsRigid | src/processing/transform.py:32-34 | the placement matrix is a rigid transform (orthonormal block, determinant 1, homogeneous last row) |
| Placement.PlacementAtZeroAngle | src/processing/transform.py:21-34 | at θ = 0 the rotation is the identity and the offset is (0, 0, -r) |
| Placement.YawKeepsHorizontalLength | src/processing/transform.py:21-25 | the rotation keeps the height and the horizontal distance from the vertical axis |
| Placement.PlacementRoundTrip | src/processing/transform.py:21-37 | subtracting t and applying Rᵀ recovers the original point |
| Merge.PairwiseRequest | src/processing/merge.py:23-38 | ICP gets both clouds downsampled at the voxel size, with normals estimated by the default search, the identity as initial transform and 2·voxel_size as correspondence distance |
| Merge.PairwiseRegistration | src/processing/merge.py:34-39 | definition (no contract): `pairwise_registration` returns the transform that ICP computes for the call `Merge.PairwiseRequest` describes |
| Merge.MergedPrefix | src/processing/merge.py:60-70 | definition (no contract): the target after the first n views is view 0 for n = 1, and otherwise down(previous ∪ transform(icp(view n-1, previous), view n-1)), where down is voxel downsampling at the voxel size and previous is the target after n - 1 views |
| Merge.FlipYZ | src/processing/merge.py:73-75 | the axis correction keeps the count, the colours and every x |
| Merge.FlipYZIsInvolution | src/processing/merge.py:74 | applying the axis correction twice gives the cloud back |
| Merge.FlipYZNegates | src/processing/merge.py:74 | the axis correction maps (x, y, z) to (x, -y, -z) |
| Merge.RegistrationRequests | src/processing/merge.py:61-64 | the first n views give n - 1 ICP calls |
| Merge.RegistrationRequestsAt | src/processing/merge.py:61-70 | ICP call i - 1 aligns view i against the target accumulated, added and downsampled, from views 0 .. i-1 |
| Merge.MultiRegistration | src/processing/merge.py:60-82 | the result is the axis-flipped fold over the views (each view aligned to the accumulated target, added, downsampled); one ICP call per later view, against the target accumulated so far; a single view gives just its flip |
| Argsort.InsertByKey | src/processing/noise_removal.py:73 | inserting a position adds exactly that one element |
| Argsort.InsertKeepsSorted | src/processing/noise_removal.py:73 | insertion keeps positions sorted by key |
| Argsort.InsertKeepsDistinct | src/processing/noise_removal.py:73 | insertion of a new position keeps positions distinct |
| Argsort.SortPrefix | src/processing/noise_removal.py:73 | the insertion sort of positions 0..n-1 is a permutation of them, sorted by key |
| Argsort.StableArgsort | src/processing/noise_removal.py:73 | every key sequence has an argsort permutation |
| Decimal.DigitChar | src/processing/mesh_reconstruction.py:81 | a digit value prints as a decimal digit |
| Decimal.DigitValue | src/processing/mesh_reconstruction.py:81 | a decimal digit has a value below 10 |
| Decimal.DecimalString | src/processing/mesh_reconstruction.py:81 | `str(n)` is a non-empty digit string without a leading zero |
| Decimal.ParseDecimalString | src/processing/mesh_reconstruction.py:81 | parsing `str(n)` gives n back |
| Decimal.DecimalStringInjective | src/processing/mesh_reconstruction.py:81 | different numbers print differently |
| NoiseRemoval.IsBackground | src/processing/noise_removal.py:22-25 | definition (no contract): a colour is background when its quantised green exceeds the threshold |
| NoiseRemoval.QuantisedGreen | src/processing/noise_removal.py:22 | `(g*255).astype(uint8)` of a channel in [0, 1] is the floor of g·255 and lies in 0..255 |
| NoiseRemoval.ForegroundMask | src/processing/noise_removal.py:25 | one mask bit per colour, set exactly when the quantised green is at most the threshold |
| NoiseRemoval.BackgroundInChannelTerms | src/processing/noise_removal.py:22-25 | a colour is background exactly when g·255 ≥ threshold + 1; with the default threshold 30, exactly when g ≥ 31/255 |
| NoiseRemoval.RemoveBackgroundColor | src/processing/noise_removal.py:21-37 | the kept points are exactly those selected by the non-background mask, in order, each with its own colour, and every kept colour has quantised green at most the threshold |
| NoiseRemoval.BackgroundPartition | src/processing/noise_removal.py:25-29 | a point is kept if and only if its quantised green is at most the threshold; every removed point is background; kept plus removed is the input count |
| NoiseRemoval.Occurrences | src/processing/noise_removal.py:65 | a label's count is positive exactly when the label occurs |
| NoiseRemoval.MaxLabel | src/processing/noise_removal.py:58 | `np.max(labels)` occurs in the labels and bounds them all |
| NoiseRemoval.HistogramFrom | src/processing/noise_removal.py:65 | entries lie in the range, strictly increase by id, and carry each id's occurrence count |
| NoiseRemoval.HistogramFromComplete | src/processing/noise_removal.py:65 | every value in the range that occurs has an entry |
| NoiseRemoval.Histogram | src/processing/noise_removal.py:64-65 | `np.unique(labels[labels != -1], return_counts=True)`: ids are the non-noise labels, each exactly once, increasing, each with its count |
| NoiseRemoval.CountInRangeSplit | src/processing/noise_removal.py:64-65 | the labels in lo..hi are those equal to lo plus those in lo+1..hi |
| NoiseRemoval.CountInEmptyRange | src/processing/noise_removal.py:64-65 | an empty range counts nothing |
| NoiseRemoval.HistogramFromTotal | src/processing/noise_removal.py:64-65 | the counts of a range histogram add up to the labels in the range |
| NoiseRemoval.CountAllValid | src/processing/noise_removal.py:64 | for labels bounded by hi, the labels in 0..hi plus the noise labels are all the labels |
| NoiseRemoval.HistogramTotal | src/processing/noise_removal.py:64-65 | the cluster sizes add up to the number of non-noise points |
| NoiseRemoval.TailSliceStart | src/processing/noise_removal.py:73 | `a[-top_k:]` keeps min(top_k, n) items for top_k ≥ 1, all of them for top_k = 0, and drops the first -top_k items for negative top_k |
| NoiseRemoval.TopClusters | src/processing/noise_removal.py:73 | the selection is the ids at the tail slice of the argsort, in argsort order |
| NoiseRemoval.MembershipMask | src/processing/noise_removal.py:76 | `np.isin(labels, ids)` is set exactly where the label is one of the ids |
| NoiseRemoval.DbscanLargestClusters | src/processing/noise_removal.py:56-94 | with no selection the input cloud comes back unchanged; with one, the output has one colour per point and no more points than the input |
| NoiseRemoval.ValidClusterExists | src/processing/noise_removal.py:58-70 | once some label is not noise, at least one valid cluster exists, so the second "no clusters" return cannot be reached |
| NoiseRemoval.NoClustersSentinel | src/processing/noise_removal.py:58-61 | `(pcd, None)` is returned exactly when every label is noise (including no labels) |
| NoiseRemoval.IdsAreInjective | src/processing/noise_removal.py:65 | different histogram positions carry different ids |
| NoiseRemoval.TopClustersAreDistinctLabels | src/processing/noise_removal.py:73 | the ids at the argsort tail of the histogram are distinct non-noise labels that occur |
| NoiseRemoval.SelectionIsDistinctValidIds | src/processing/noise_removal.py:73 | the selected ids are distinct non-noise labels that occur; there are min(top_k, M) of them for top_k ≥ 1 and all M for top_k = 0 |
| NoiseRemoval.SelectionIsTail | src/processing/noise_removal.py:73 | a returned selection is the argsort tail over the histogram |
| NoiseRemoval.TopClustersDominate | src/processing/noise_removal.py:73 | in argsort order, a cluster outside the tail is no larger than any in it |
| NoiseRemoval.SelectionDominates | src/processing/noise_removal.py:73 | every selected cluster has at least as many points as every valid cluster left out |
| NoiseRemoval.SelectionAscending | src/processing/noise_removal.py:73 | the selection lists its clusters in non-decreasing size |
| NoiseRemoval.SelectionKeepsExactlyMembers | src/processing/noise_removal.py:76-83 | the output is exactly the points whose label is selected, in order, with their own colours, and none of them is noise |
| MeshReconstruction.ClusterMeshFileName | src/processing/mesh_reconstruction.py:81 | definition (no contract): `f"mesh_cluster{i+1}_poisson.ply"`; its shape is stated in ClusterMeshFileNameParts |
| MeshReconstruction.PoissonSurface | src/processing/mesh_reconstruction.py:25-37 | definition (no contract), used for the whole cloud (lines 25-37) and for each cluster (lines 65-74): normals with the hybrid search (radius 0.01, 30 neighbours), orientation over 100 neighbours, Poisson at depth 9, a crop to the input cloud's own axis-aligned bounding box, 5 Laplacian smoothing passes, then vertex normals |
| MeshReconstruction.ClusterMeshFileNameParts | src/processing/mesh_reconstruction.py:81 | the cluster file name is "mesh_cluster", the 1-based index in decimal, then "_poisson.ply" |
| MeshReconstruction.ClusterMeshFileNamesDistinct | src/processing/mesh_reconstruction.py:81 | different clusters get different file names, none equal to "foot_mesh.ply" |
| MeshReconstruction.LabelMask | src/processing/mesh_reconstruction.py:57 | `labels == cluster_id` is set exactly at that id's labels |
| MeshReconstruction.ClusterSubset | src/processing/mesh_reconstruction.py:57-63 | definition (no contract): the points and colours selected by `labels == cluster_id`; its meaning is stated in ClusterSubsetMembers |
| MeshReconstruction.ClusterSubsetMembers | src/processing/mesh_reconstruction.py:57-59 | a cluster's subset is exactly the points with that recomputed label, in order, each with its own colour |
| MeshReconstruction.ClusterSubsetsDisjoint | src/processing/mesh_reconstruction.py:57 | subsets for different ids take disjoint point positions |
| MeshReconstruction.MissingClusterIsEmpty | src/processing/mesh_reconstruction.py:57-59 | an id missing from the recomputed labels gives an empty subset, not an error |
| MeshReconstruction.GreyMesh | src/processing/mesh_reconstruction.py:65-77 | definition (no contract): a cluster's mesh is its PoissonSurface painted (0.8, 0.8, 0.8) |
| MeshReconstruction.GreyMeshIsGrey | src/processing/mesh_reconstruction.py:77 | every vertex of a cluster mesh is coloured (0.8, 0.8, 0.8), one colour per vertex |
| MeshReconstruction.ClusterSubsets | src/processing/mesh_reconstruction.py:54-59 | one subset per id, in order, subset i being the points labelled ids[i] |
| MeshReconstruction.GreyMeshes | src/processing/mesh_reconstruction.py:54-85 | one mesh per cluster cloud |
| MeshReconstruction.GreyMeshesAt | src/processing/mesh_reconstruction.py:54-77 | mesh i is cloud i reconstructed and painted grey |
| MeshReconstruction.GreyMeshesStep | src/processing/mesh_reconstruction.py:54-77 | handling one more id appends exactly that id's grey cluster mesh |
| MeshReconstruction.SavedClusterMeshes | src/processing/mesh_reconstruction.py:80-83 | one file per mesh |
| MeshReconstruction.SavedClusterMeshesNamed | src/processing/mesh_reconstruction.py:80-83 | file i holds mesh i under the name numbered i + 1, and no two files share a name |
| MeshReconstruction.BuildClusterMeshes | src/processing/mesh_reconstruction.py:54-85 | the meshes are the grey meshes of the subsets for the ids, in order; when saving, the files written are those meshes under their 1-based names, and nothing is written otherwise |
| MeshReconstruction.PoissonMeshFromPcd | src/processing/mesh_reconstruction.py:21-90 | with no ids, exactly one unpainted mesh of the whole cloud (saved as "foot_mesh.ply" when saving); with ids, the labels are recomputed with the caller's eps and 20 minimum points, there is one grey mesh per id, in order, and the saved files are numbered from 1; no two saved files share a name |

## Left out

- File reading, `print`, and `draw_geometries` windows are not modelled. Operations take loaded clouds.
- Merge.MultiRegistration: writing the merged cloud to `save_path` (`src/processing/merge.py:78-80`) is not modelled; the function returns the cloud that would be written.
- NoiseRemoval.DbscanLargestClusters: writing `final_filtered_aligned.ply` to `aligned_dir` (`src/processing/noise_removal.py:89-92`) is not modelled; the function returns the cloud that would be written.
- Default argument values are not modelled except `green_threshold=30` (`NoiseRemoval.DefaultGreenThreshold`); voxel size, eps, min_points and top_k are always parameters.
- The internals of the Open3D primitives are not modelled: voxel downsampling, normal estimation and orientation, ICP, DBSCAN, Poisson, crop, Laplacian smoothing and vertex normals. They are opaque functions of `Open3D.Library`, so nothing is claimed about ICP quality, DBSCAN's choice of labels or the mesh geometry.
- MeshReconstruction.PoissonMeshFromPcd: the Open3D primitives are modelled as total functions, so an error one of them raises is not captured. For example, Poisson reconstruction of a cloud without normals raises; an id missing from the recomputed labels gives an empty subset (`MeshReconstruction.MissingClusterIsEmpty`), on which the program would stop while the model still promises one grey mesh per id. ICP on an empty downsampled cloud in `Merge.MultiRegistration` is a similar case. This behaviour comes from Open3D's library code, which is not part of this model.
- Placement.PlaceCloud: `np.radians` and `sin`/`cos` are not modelled; the angle enters as s = sin θ and c = cos θ, and the rigidity lemmas assume s² + c² = 1. The periodicity of the angle is not modelled.
- PointClouds.TransformCloud: only the affine part of `transform` is modelled. There is no division by the fourth coordinate, which is exact for the matrices used here, whose last row is (0, 0, 0, 1).
- Floating-point rounding is not modelled. Distances are compared through their squares (see `Filter.SquaredTestIsDistanceTest`), and the square root is not computed.
- NoiseRemoval.QuantisedGreen: colours outside [0, 1] are not modelled. The model requires every green channel in [0, 1], where the `uint8` cast is the floor.
- NoiseRemoval.RemoveBackgroundColor and NoiseRemoval.DbscanLargestClusters require one colour per point, and MeshReconstruction.PoissonMeshFromPcd requires it for per-cluster meshes. This mirrors the error the source's boolean indexing raises on a cloud with points but no colours, but only on the paths that index colours: the two "no clusters" returns (`src/processing/noise_removal.py:58-61`, `67-70`) and a per-cluster loop over an empty id list (`src/processing/mesh_reconstruction.py:56`) index no colours, and those paths are not modelled for colourless clouds. The callers at `main.py:74-78` pass `dbscan_largest_clusters` the output of `remove_background_color_from_file`, and `poisson_mesh_from_pcd` the output of `dbscan_largest_clusters`, both of which select points and colours with one mask.
- NoiseRemoval.DbscanLargestClusters: the labels are a parameter, standing for what `cluster_dbscan(eps, min_points)` returned. The model assumes them to be -1 or greater, and the argsort of the cluster sizes is a parameter constrained by `Argsort.IsArgsort`.
- NoiseRemoval.SelectionAscending: the order among clusters of equal size is not fixed, because numpy's default sort is not stable.
- Merge.MultiRegistration requires at least one view, because the source indexes `pcds[0]`. The in-place `transform` of `pcds[i]`, and the sharing of `pcds[0]` with the accumulated target, are modelled on values. The caller's list is not shown to change.
- MeshReconstruction.PoissonMeshFromPcd: in whole-cloud mode, `estimate_normals` leaves normals on the caller's cloud. That side effect is not modelled. The mesh directory is reduced to whether one was given, and file names are relative to it.

