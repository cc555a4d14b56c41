/**
 * Rig placement: the 4x4 transform that puts a view taken at angle θ on a
 * rig of radius r into the shared world frame, and its application to a
 * cloud. The angle enters only through s = sin θ and c = cos θ.
 */
module Placement {
  import opened Linear
  import opened PointClouds

  /** The yaw rotation about the vertical (y) axis. */
  function YawRotation(s: real, c: real): Mat3 {
    Mat3(Vec3(c, 0.0, s), Vec3(0.0, 1.0, 0.0), Vec3(-s, 0.0, c))
  }

  /** The translation (-r sin θ, 0, -r cos θ). */
  function RigOffset(s: real, c: real, radius: real): Vec3 {
    Vec3(-(radius * s), 0.0, -(radius * c))
  }

  /**
   * T = eye(4) with the rotation written into its upper-left block and the
   * offset into its last column.
   */
  function PlacementMatrix(s: real, c: real, radius: real): (t: Mat4)
    ensures t.r3 == HomogeneousBottom
    ensures UpperLeft(t) == YawRotation(s, c)
    ensures TranslationOf(t) == Vec3(-(radius * s), 0.0, -(radius * c))
    ensures t.r1 == Row4(0.0, 1.0, 0.0, 0.0)
  {
    Homogeneous(YawRotation(s, c), RigOffset(s, c, radius))
  }

  /**
   * transform_and_save_point_cloud without its file I/O: every point p goes
   * to R p + t, the count and the colours are kept, and no height changes.
   */
  function PlaceCloud(pc: PointCloud, s: real, c: real, radius: real): (r: PointCloud)
    ensures |r.points| == |pc.points| && r.colors == pc.colors
    ensures forall i :: 0 <= i < |pc.points| ==>
      r.points[i] == Add(MulVec(YawRotation(s, c), pc.points[i]), RigOffset(s, c, radius))
    ensures forall i :: 0 <= i < |pc.points| ==> r.points[i].y == pc.points[i].y
  {
    TransformCloud(PlacementMatrix(s, c, radius), pc)
  }

  /** With sin² + cos² = 1 the rotation is orthonormal with determinant 1. */
  lemma YawRotationIsOrthonormal(s: real, c: real)
    requires s * s + c * c == 1.0
    ensures Mul(YawRotation(s, c), Transpose(YawRotation(s, c))) == Identity3
    ensures Mul(Transpose(YawRotation(s, c)), YawRotation(s, c)) == Identity3
    ensures Det(YawRotation(s, c)) == 1.0
  {
    assert c * c + s * s == 1.0;
  }

  /** The placement matrix is a rigid transform. */
  lemma PlacementIsRigid(s: real, c: real, radius: real)
    requires s * s + c * c == 1.0
    ensures IsRigid(PlacementMatrix(s, c, radius))
  {
    YawRotationIsOrthonormal(s, c);
  }

  /** At θ = 0 the rotation is the identity and the offset is (0, 0, -r). */
  lemma PlacementAtZeroAngle(radius: real)
    ensures YawRotation(0.0, 1.0) == Identity3
    ensures PlacementMatrix(0.0, 1.0, radius) == Homogeneous(Identity3, Vec3(0.0, 0.0, -radius))
  {
  }

  /** The rotation keeps the height and the length of the horizontal (xz) part. */
  lemma YawKeepsHorizontalLength(s: real, c: real, p: Vec3)
    requires s * s + c * c == 1.0
    ensures MulVec(YawRotation(s, c), p).y == p.y
    ensures var q := MulVec(YawRotation(s, c), p);
      q.x * q.x + q.z * q.z == p.x * p.x + p.z * p.z
  {
    var q := MulVec(YawRotation(s, c), p);
    calc {
      q.x * q.x + q.z * q.z;
      == (c * p.x + s * p.z) * (c * p.x + s * p.z) + (-s * p.x + c * p.z) * (-s * p.x + c * p.z);
      == (s * s + c * c) * (p.x * p.x) + (s * s + c * c) * (p.z * p.z);
      == p.x * p.x + p.z * p.z;
    }
  }

  /** Placing a point and then undoing it (subtract t, apply Rᵀ) gives the point back. */
  lemma PlacementRoundTrip(s: real, c: real, radius: real, p: Vec3)
    requires s * s + c * c == 1.0
    ensures MulVec(Transpose(YawRotation(s, c)), Sub(Apply(PlacementMatrix(s, c, radius), p), RigOffset(s, c, radius))) == p
  {
    var r := YawRotation(s, c);
    var q := MulVec(r, p);
    assert Sub(Apply(PlacementMatrix(s, c, radius), p), RigOffset(s, c, radius)) == q;
    var back := MulVec(Transpose(r), q);
    calc {
      back.x;
      == c * (c * p.x + s * p.z) - s * (-s * p.x + c * p.z);
      == (s * s + c * c) * p.x;
      == p.x;
    }
    calc {
      back.z;
      == s * (c * p.x + s * p.z) + c * (-s * p.x + c * p.z);
      == (s * s + c * c) * p.z;
      == p.z;
    }
  }
}
