/** Three-vectors, 3x3 matrices and 4x4 homogeneous matrices over exact reals. */
module Linear {

  datatype Vec3 = Vec3(x: real, y: real, z: real)

  function Add(a: Vec3, b: Vec3): Vec3 {
    Vec3(a.x + b.x, a.y + b.y, a.z + b.z)
  }

  function Sub(a: Vec3, b: Vec3): Vec3 {
    Vec3(a.x - b.x, a.y - b.y, a.z - b.z)
  }

  function Dot(a: Vec3, b: Vec3): real {
    a.x * b.x + a.y * b.y + a.z * b.z
  }

  /** A 3x3 matrix given by its rows. */
  datatype Mat3 = Mat3(r0: Vec3, r1: Vec3, r2: Vec3)

  const Identity3: Mat3 := Mat3(Vec3(1.0, 0.0, 0.0), Vec3(0.0, 1.0, 0.0), Vec3(0.0, 0.0, 1.0))

  function Transpose(m: Mat3): Mat3 {
    Mat3(Vec3(m.r0.x, m.r1.x, m.r2.x),
         Vec3(m.r0.y, m.r1.y, m.r2.y),
         Vec3(m.r0.z, m.r1.z, m.r2.z))
  }

  function MulVec(m: Mat3, v: Vec3): Vec3 {
    Vec3(Dot(m.r0, v), Dot(m.r1, v), Dot(m.r2, v))
  }

  /** Row i of a * b is row i of a times b, that is transpose(b) applied to row i of a. */
  function Mul(a: Mat3, b: Mat3): Mat3 {
    var bt := Transpose(b);
    Mat3(MulVec(bt, a.r0), MulVec(bt, a.r1), MulVec(bt, a.r2))
  }

  /** Determinant by cofactor expansion along the first row. */
  function Det(m: Mat3): real {
    m.r0.x * (m.r1.y * m.r2.z - m.r1.z * m.r2.y)
    - m.r0.y * (m.r1.x * m.r2.z - m.r1.z * m.r2.x)
    + m.r0.z * (m.r1.x * m.r2.y - m.r1.y * m.r2.x)
  }

  /** A row of a 4x4 matrix. */
  datatype Row4 = Row4(c0: real, c1: real, c2: real, c3: real)

  /** A 4x4 homogeneous matrix given by its rows. */
  datatype Mat4 = Mat4(r0: Row4, r1: Row4, r2: Row4, r3: Row4)

  const HomogeneousBottom: Row4 := Row4(0.0, 0.0, 0.0, 1.0)

  const Identity4: Mat4 :=
    Mat4(Row4(1.0, 0.0, 0.0, 0.0), Row4(0.0, 1.0, 0.0, 0.0), Row4(0.0, 0.0, 1.0, 0.0), HomogeneousBottom)

  function UpperLeft(t: Mat4): Mat3 {
    Mat3(Vec3(t.r0.c0, t.r0.c1, t.r0.c2),
         Vec3(t.r1.c0, t.r1.c1, t.r1.c2),
         Vec3(t.r2.c0, t.r2.c1, t.r2.c2))
  }

  function TranslationOf(t: Mat4): Vec3 {
    Vec3(t.r0.c3, t.r1.c3, t.r2.c3)
  }

  /**
   * The 4x4 identity with its upper-left block overwritten by r and its
   * last column (first three entries) overwritten by tr.
   */
  function Homogeneous(r: Mat3, tr: Vec3): (t: Mat4)
    ensures UpperLeft(t) == r && TranslationOf(t) == tr && t.r3 == HomogeneousBottom
  {
    Mat4(Row4(r.r0.x, r.r0.y, r.r0.z, tr.x),
         Row4(r.r1.x, r.r1.y, r.r1.z, tr.y),
         Row4(r.r2.x, r.r2.y, r.r2.z, tr.z),
         HomogeneousBottom)
  }

  /** A rigid transform: bottom row (0,0,0,1), orthonormal rotation block with determinant 1. */
  predicate IsRigid(t: Mat4) {
    && t.r3 == HomogeneousBottom
    && Mul(UpperLeft(t), Transpose(UpperLeft(t))) == Identity3
    && Det(UpperLeft(t)) == 1.0
  }

  /** The image of p under the affine part of t (the first three rows applied to (p, 1)). */
  function Apply(t: Mat4, p: Vec3): Vec3 {
    Add(MulVec(UpperLeft(t), p), TranslationOf(t))
  }

  lemma ApplyIdentity(p: Vec3)
    ensures Apply(Identity4, p) == p
  {
  }
}
