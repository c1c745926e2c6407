// Vectors, 3x3 matrices, status codes and the shared payloads
// (core/types.hpp). The algebra is over `real`; the payloads carry doubles,
// because the source checks them for finiteness before computing with them.
module Types {
  import opened Num
  import opened Wrappers

  /** A 3-vector of reals, the algebraic view of the source's Vec3. */
  datatype Vec3 = V3(x: real, y: real, z: real)
  {
    function At(i: nat): real
      requires i < 3
    {
      if i == 0 then x else if i == 1 then y else z
    }
  }

  /** A 3-vector of doubles, as the payloads carry it before the finiteness checks. */
  datatype DVec3 = DV3(x: Double, y: Double, z: Double)

  /** A 3x3 matrix stored row-major, as three rows: A(r, c) is row r, column c. */
  datatype Mat3 = M3(r0: Vec3, r1: Vec3, r2: Vec3)
  {
    function Row(r: nat): Vec3
      requires r < 3
    {
      if r == 0 then r0 else if r == 1 then r1 else r2
    }

    function At(r: nat, c: nat): real
      requires r < 3 && c < 3
    {
      Row(r).At(c)
    }

    /** The matrix with entry (r, c) replaced, as `A(r, c) = v` does in place. */
    function With(r: nat, c: nat, v: real): (m: Mat3)
      requires r < 3 && c < 3
      ensures forall i, j :: 0 <= i < 3 && 0 <= j < 3 ==>
        m.At(i, j) == if i == r && j == c then v else At(i, j)
    {
      var row := Row(r);
      var row' := if c == 0 then row.(x := v) else if c == 1 then row.(y := v) else row.(z := v);
      if r == 0 then this.(r0 := row') else if r == 1 then this.(r1 := row') else this.(r2 := row')
    }
  }

  /** A 3x3 matrix of doubles, row-major. */
  datatype DMat3 = DM3(r0: DVec3, r1: DVec3, r2: DVec3)
  {
    function At(r: nat, c: nat): Double
      requires r < 3 && c < 3
    {
      var row := if r == 0 then r0 else if r == 1 then r1 else r2;
      if c == 0 then row.x else if c == 1 then row.y else row.z
    }
  }

  /** Two vectors with the same components are the same vector. */
  lemma VectorExt(a: Vec3, b: Vec3)
    requires forall i :: 0 <= i < 3 ==> a.At(i) == b.At(i)
    ensures a == b
  {
    assert a.At(0) == b.At(0) && a.At(1) == b.At(1) && a.At(2) == b.At(2);
  }

  /** Two matrices with the same entries are the same matrix. */
  lemma MatrixExt(a: Mat3, b: Mat3)
    requires forall i, j :: 0 <= i < 3 && 0 <= j < 3 ==> a.At(i, j) == b.At(i, j)
    ensures a == b
  {
    assert a.At(0, 0) == b.At(0, 0) && a.At(0, 1) == b.At(0, 1) && a.At(0, 2) == b.At(0, 2);
    assert a.At(1, 0) == b.At(1, 0) && a.At(1, 1) == b.At(1, 1) && a.At(1, 2) == b.At(1, 2);
    assert a.At(2, 0) == b.At(2, 0) && a.At(2, 1) == b.At(2, 1) && a.At(2, 2) == b.At(2, 2);
  }

  // ---------------------------------------------------------------------
  // Vector algebra over the reals
  // ---------------------------------------------------------------------

  const Zero: Vec3 := V3(0.0, 0.0, 0.0)

  function Add(a: Vec3, b: Vec3): Vec3 { V3(a.x + b.x, a.y + b.y, a.z + b.z) }
  function Sub(a: Vec3, b: Vec3): Vec3 { V3(a.x - b.x, a.y - b.y, a.z - b.z) }
  /** `s * v` */
  function Scale(s: real, v: Vec3): Vec3 { V3(s * v.x, s * v.y, s * v.z) }
  /** `v * s`, which the source defines as `s * v` */
  function ScaleRight(v: Vec3, s: real): Vec3 { Scale(s, v) }
  function Neg(v: Vec3): Vec3 { V3(-v.x, -v.y, -v.z) }

  function Dot(a: Vec3, b: Vec3): real { a.x * b.x + a.y * b.y + a.z * b.z }

  function Cross(a: Vec3, b: Vec3): Vec3
  {
    V3(a.y * b.z - a.z * b.y, a.z * b.x - a.x * b.z, a.x * b.y - a.y * b.x)
  }

  /** `norm(v) = sqrt(dot(v, v))` */
  function Norm(e: Elementary, v: Vec3): real { e.sqrt(Dot(v, v)) }

  /** +, - and scalar * act componentwise, and `v * s == s * v`. */
  lemma ComponentwiseOps(a: Vec3, b: Vec3, s: real)
    ensures forall i :: 0 <= i < 3 ==> Add(a, b).At(i) == a.At(i) + b.At(i)
    ensures forall i :: 0 <= i < 3 ==> Sub(a, b).At(i) == a.At(i) - b.At(i)
    ensures forall i :: 0 <= i < 3 ==> Scale(s, a).At(i) == s * a.At(i)
    ensures ScaleRight(a, s) == Scale(s, a)
    ensures Sub(a, a) == Zero && Add(a, Zero) == a
  {
  }

  lemma DotSelfNonNegative(v: Vec3)
    ensures Dot(v, v) >= 0.0
    ensures v == Zero ==> Dot(v, v) == 0.0
  {
  }

  /** The norm is a length: non-negative, zero for the zero vector, and its square is `dot(v, v)`. */
  lemma NormIsLength(e: Elementary, v: Vec3)
    requires SqrtLaw(e.sqrt)
    ensures Norm(e, v) >= 0.0 && Norm(e, v) * Norm(e, v) == Dot(v, v)
    ensures v == Zero ==> Norm(e, v) == 0.0
  {
    DotSelfNonNegative(v);
    SqrtPositive(e, Dot(v, v));
    assert Norm(e, v) == e.sqrt(Dot(v, v));
  }

  lemma NormNonNegative(e: Elementary, v: Vec3)
    requires SqrtLaw(e.sqrt)
    ensures Norm(e, v) >= 0.0
  {
    DotSelfNonNegative(v);
  }

  lemma ZeroNorm(e: Elementary)
    requires SqrtLaw(e.sqrt)
    ensures Norm(e, Zero) == 0.0
  {
    NormIsLength(e, Zero);
  }

  /** cross(a, b) is orthogonal to both factors and anti-symmetric. */
  lemma CrossOrthogonal(a: Vec3, b: Vec3)
    ensures Dot(Cross(a, b), a) == 0.0 && Dot(Cross(a, b), b) == 0.0
    ensures Cross(a, b) == Neg(Cross(b, a))
  {
  }

  /** Scaling commutes with the dot product and the cross product. */
  lemma ScaleBilinear(s: real, a: Vec3, b: Vec3)
    ensures Dot(Scale(s, a), b) == s * Dot(a, b)
    ensures Dot(a, Scale(s, b)) == s * Dot(a, b)
    ensures Cross(Scale(s, a), b) == Scale(s, Cross(a, b))
    ensures Cross(a, Scale(s, b)) == Scale(s, Cross(a, b))
  {
    ScaleDot(s, a, b);
    ScaleCross(s, a, b);
  }

  lemma ScaleDot(s: real, a: Vec3, b: Vec3)
    ensures Dot(Scale(s, a), b) == s * Dot(a, b)
    ensures Dot(a, Scale(s, b)) == s * Dot(a, b)
  {
    Distribute3(s, a.x, a.y, a.z, b.x, b.y, b.z);
  }

  lemma ScaleCross(s: real, a: Vec3, b: Vec3)
    ensures Cross(Scale(s, a), b) == Scale(s, Cross(a, b))
    ensures Cross(a, Scale(s, b)) == Scale(s, Cross(a, b))
  {
    ScaleCrossLeft(s, a, b);
    ScaleCrossRight(s, a, b);
  }

  lemma ScaleCrossRight(s: real, a: Vec3, b: Vec3)
    ensures Cross(a, Scale(s, b)) == Scale(s, Cross(a, b))
  {
    ScaleCrossRightParts(s, a, b);
    var l, r := Cross(a, Scale(s, b)), Scale(s, Cross(a, b));
    assert l == V3(r.x, r.y, r.z);
  }

  lemma ScaleCrossRightParts(s: real, a: Vec3, b: Vec3)
    ensures Cross(a, Scale(s, b)).x == s * Cross(a, b).x
    ensures Cross(a, Scale(s, b)).y == s * Cross(a, b).y
    ensures Cross(a, Scale(s, b)).z == s * Cross(a, b).z
  {
    LiftRight(s, a.y, b.z, a.z, b.y);
    LiftRight(s, a.z, b.x, a.x, b.z);
    LiftRight(s, a.x, b.y, a.y, b.x);
  }

  lemma ScaleCrossLeft(s: real, a: Vec3, b: Vec3)
    ensures Cross(Scale(s, a), b) == Scale(s, Cross(a, b))
  {
    ScaleCrossLeftParts(s, a, b);
    var l, r := Cross(Scale(s, a), b), Scale(s, Cross(a, b));
    assert l == V3(r.x, r.y, r.z);
  }

  lemma ScaleCrossLeftParts(s: real, a: Vec3, b: Vec3)
    ensures Cross(Scale(s, a), b).x == s * Cross(a, b).x
    ensures Cross(Scale(s, a), b).y == s * Cross(a, b).y
    ensures Cross(Scale(s, a), b).z == s * Cross(a, b).z
  {
    LiftLeft(s, a.y, b.z, a.z, b.y);
    LiftLeft(s, a.z, b.x, a.x, b.z);
    LiftLeft(s, a.x, b.y, a.y, b.x);
  }

  lemma Distribute3(s: real, a0: real, a1: real, a2: real, b0: real, b1: real, b2: real)
    ensures (s * a0) * b0 + (s * a1) * b1 + (s * a2) * b2 == s * (a0 * b0 + a1 * b1 + a2 * b2)
    ensures a0 * (s * b0) + a1 * (s * b1) + a2 * (s * b2) == s * (a0 * b0 + a1 * b1 + a2 * b2)
  {
  }

  /** A factor on the left entries of a 2x2 minor comes out of it. */
  lemma LiftLeft(s: real, p: real, q: real, u: real, v: real)
    ensures (s * p) * q - (s * u) * v == s * (p * q - u * v)
  {
  }

  /** A factor on the right entries of a 2x2 minor comes out of it. */
  lemma LiftRight(s: real, p: real, q: real, u: real, v: real)
    ensures p * (s * q) - u * (s * v) == s * (p * q - u * v)
  {
  }

  /** a x (b x c) = b (a . c) - c (a . b) */
  lemma TripleProductExpansion(a: Vec3, b: Vec3, c: Vec3)
    ensures Cross(a, Cross(b, c)) == Sub(Scale(Dot(a, c), b), Scale(Dot(a, b), c))
  {
    TripleX(a, b, c);
    TripleY(a, b, c);
    TripleZ(a, b, c);
    SubScale(Dot(a, c), b, Dot(a, b), c);
  }

  lemma SubScale(s: real, b: Vec3, t: real, c: Vec3)
    ensures Sub(Scale(s, b), Scale(t, c)) == V3(s * b.x - t * c.x, s * b.y - t * c.y, s * b.z - t * c.z)
  {
  }

  lemma TripleX(a: Vec3, b: Vec3, c: Vec3)
    ensures Cross(a, Cross(b, c)).x == Dot(a, c) * b.x - Dot(a, b) * c.x
  {
    BacCabX(a.x, a.y, a.z, b.x, b.y, b.z, c.x, c.y, c.z);
  }

  lemma TripleY(a: Vec3, b: Vec3, c: Vec3)
    ensures Cross(a, Cross(b, c)).y == Dot(a, c) * b.y - Dot(a, b) * c.y
  {
    BacCabY(a.x, a.y, a.z, b.x, b.y, b.z, c.x, c.y, c.z);
  }

  lemma TripleZ(a: Vec3, b: Vec3, c: Vec3)
    ensures Cross(a, Cross(b, c)).z == Dot(a, c) * b.z - Dot(a, b) * c.z
  {
    BacCabZ(a.x, a.y, a.z, b.x, b.y, b.z, c.x, c.y, c.z);
  }

  /** The components of a x (b x c) = b (a . c) - c (a . b), written out. */
  lemma BacCabX(a1: real, a2: real, a3: real, b1: real, b2: real, b3: real, c1: real, c2: real, c3: real)
    ensures a2 * (b1 * c2 - b2 * c1) - a3 * (b3 * c1 - b1 * c3)
         == (a1 * c1 + a2 * c2 + a3 * c3) * b1 - (a1 * b1 + a2 * b2 + a3 * b3) * c1
  {
  }

  lemma BacCabY(a1: real, a2: real, a3: real, b1: real, b2: real, b3: real, c1: real, c2: real, c3: real)
    ensures a3 * (b2 * c3 - b3 * c2) - a1 * (b1 * c2 - b2 * c1)
         == (a1 * c1 + a2 * c2 + a3 * c3) * b2 - (a1 * b1 + a2 * b2 + a3 * b3) * c2
  {
  }

  lemma BacCabZ(a1: real, a2: real, a3: real, b1: real, b2: real, b3: real, c1: real, c2: real, c3: real)
    ensures a1 * (b3 * c1 - b1 * c3) - a2 * (b2 * c3 - b3 * c2)
         == (a1 * c1 + a2 * c2 + a3 * c3) * b3 - (a1 * b1 + a2 * b2 + a3 * b3) * c3
  {
  }

  /** |a x b|^2 = |a|^2 |b|^2 - (a . b)^2 (Lagrange's identity). */
  lemma LagrangeIdentity(a: Vec3, b: Vec3)
    ensures Dot(Cross(a, b), Cross(a, b)) == Dot(a, a) * Dot(b, b) - Dot(a, b) * Dot(a, b)
  {
    Lagrange3(a.x, a.y, a.z, b.x, b.y, b.z);
  }

  lemma Lagrange3(a0: real, a1: real, a2: real, b0: real, b1: real, b2: real)
    ensures (a1 * b2 - a2 * b1) * (a1 * b2 - a2 * b1) + (a2 * b0 - a0 * b2) * (a2 * b0 - a0 * b2) + (a0 * b1 - a1 * b0) * (a0 * b1 - a1 * b0)
         == (a0 * a0 + a1 * a1 + a2 * a2) * (b0 * b0 + b1 * b1 + b2 * b2) - (a0 * b0 + a1 * b1 + a2 * b2) * (a0 * b0 + a1 * b1 + a2 * b2)
  {
  }

  /** Dividing a vector by its (positive) norm gives a unit vector. */
  lemma Normalised(e: Elementary, v: Vec3)
    requires SqrtLaw(e.sqrt) && Norm(e, v) > 0.0
    ensures Dot(Scale(1.0 / Norm(e, v), v), Scale(1.0 / Norm(e, v), v)) == 1.0
  {
    var n := Norm(e, v);
    NormIsLength(e, v);
    ScaleBilinear(1.0 / n, v, Scale(1.0 / n, v));
    ScaleBilinear(1.0 / n, v, v);
    InverseSquare(n, Dot(v, v));
  }

  lemma InverseSquare(n: real, d: real)
    requires n > 0.0 && n * n == d
    ensures (1.0 / n) * ((1.0 / n) * d) == 1.0
  {
    assert (1.0 / n) * n == 1.0;
  }

  /** A unit vector has norm 1. */
  lemma UnitNorm(e: Elementary, v: Vec3)
    requires SqrtLaw(e.sqrt) && Dot(v, v) == 1.0
    ensures Norm(e, v) == 1.0
  {
    SqrtOfSquare(e, 1.0);
  }

  // ---------------------------------------------------------------------
  // Matrices over the reals
  // ---------------------------------------------------------------------

  /** The default-constructed Mat3: the identity. */
  const Identity: Mat3 := M3(V3(1.0, 0.0, 0.0), V3(0.0, 1.0, 0.0), V3(0.0, 0.0, 1.0))

  /** Entry (r, c) of the identity is 1 on the diagonal and 0 elsewhere. */
  lemma IdentityEntries()
    ensures forall r, c :: 0 <= r < 3 && 0 <= c < 3 ==> Identity.At(r, c) == if r == c then 1.0 else 0.0
  {
  }

  /** matrix * vector */
  function MulV(A: Mat3, v: Vec3): Vec3
  {
    V3(Dot(A.r0, v), Dot(A.r1, v), Dot(A.r2, v))
  }

  /** `sum_{k < n} A(r, k) * B(k, c)`, the running sum of the matrix product loop. */
  function ProductSum(A: Mat3, B: Mat3, r: nat, c: nat, n: nat): real
    requires r < 3 && c < 3 && n <= 3
  {
    (if n > 0 then A.At(r, 0) * B.At(0, c) else 0.0)
    + (if n > 1 then A.At(r, 1) * B.At(1, c) else 0.0)
    + (if n > 2 then A.At(r, 2) * B.At(2, c) else 0.0)
  }

  /** Row vector a times B: the row of A * B that row a of A gives. */
  function RowTimes(a: Vec3, B: Mat3): Vec3
  {
    V3(a.x * B.r0.x + a.y * B.r1.x + a.z * B.r2.x,
       a.x * B.r0.y + a.y * B.r1.y + a.z * B.r2.y,
       a.x * B.r0.z + a.y * B.r1.z + a.z * B.r2.z)
  }

  /** matrix * matrix */
  function MulM(A: Mat3, B: Mat3): Mat3
  {
    M3(RowTimes(A.r0, B), RowTimes(A.r1, B), RowTimes(A.r2, B))
  }

  lemma RowTimesAt(a: Vec3, B: Mat3, c: nat)
    requires c < 3
    ensures RowTimes(a, B).At(c) == a.At(0) * B.At(0, c) + a.At(1) * B.At(1, c) + a.At(2) * B.At(2, c)
  {
  }

  /** The loop's running sum, run to the end, is the product entry. */
  lemma MulMAt(A: Mat3, B: Mat3)
    ensures forall r, c :: 0 <= r < 3 && 0 <= c < 3 ==> MulM(A, B).At(r, c) == ProductSum(A, B, r, c, 3)
  {
    forall r, c | 0 <= r < 3 && 0 <= c < 3
      ensures MulM(A, B).At(r, c) == ProductSum(A, B, r, c, 3)
    {
      assert MulM(A, B).Row(r) == RowTimes(A.Row(r), B);
      RowTimesAt(A.Row(r), B, c);
    }
  }

  function Transpose(A: Mat3): Mat3
  {
    M3(V3(A.At(0, 0), A.At(1, 0), A.At(2, 0)),
       V3(A.At(0, 1), A.At(1, 1), A.At(2, 1)),
       V3(A.At(0, 2), A.At(1, 2), A.At(2, 2)))
  }

  lemma TransposeAt(A: Mat3)
    ensures forall r, c :: 0 <= r < 3 && 0 <= c < 3 ==> Transpose(A).At(r, c) == A.At(c, r)
  {
  }

  function Det(A: Mat3): real
  {
    var a, b, c := A.At(0, 0), A.At(0, 1), A.At(0, 2);
    var d, e, f := A.At(1, 0), A.At(1, 1), A.At(1, 2);
    var g, h, i := A.At(2, 0), A.At(2, 1), A.At(2, 2);
    a * (e * i - f * h) - b * (d * i - f * g) + c * (d * h - e * g)
  }

  /** The identity leaves vectors unchanged, on either side of a product. */
  lemma IdentityNeutral(v: Vec3, A: Mat3)
    ensures MulV(Identity, v) == v
    ensures MulM(Identity, A) == A && MulM(A, Identity) == A
  {
    forall r, c | 0 <= r < 3 && 0 <= c < 3
      ensures MulM(Identity, A).At(r, c) == A.At(r, c) && MulM(A, Identity).At(r, c) == A.At(r, c)
    {
      MulMAt(Identity, A);
      MulMAt(A, Identity);
    }
    MatrixExt(MulM(Identity, A), A);
    MatrixExt(MulM(A, Identity), A);
  }

  lemma TransposeInvolutive(A: Mat3)
    ensures Transpose(Transpose(A)) == A
  {
  }

  /** Multiplying by a product is multiplying by each factor in turn. */
  lemma MulAssoc(A: Mat3, B: Mat3, v: Vec3)
    ensures MulV(MulM(A, B), v) == MulV(A, MulV(B, v))
  {
    Assoc3(A.r0.x, A.r0.y, A.r0.z, B.r0.x, B.r0.y, B.r0.z, B.r1.x, B.r1.y, B.r1.z, B.r2.x, B.r2.y, B.r2.z, v.x, v.y, v.z);
    Assoc3(A.r1.x, A.r1.y, A.r1.z, B.r0.x, B.r0.y, B.r0.z, B.r1.x, B.r1.y, B.r1.z, B.r2.x, B.r2.y, B.r2.z, v.x, v.y, v.z);
    Assoc3(A.r2.x, A.r2.y, A.r2.z, B.r0.x, B.r0.y, B.r0.z, B.r1.x, B.r1.y, B.r1.z, B.r2.x, B.r2.y, B.r2.z, v.x, v.y, v.z);
  }

  /** The scalar identity behind MulAssoc: one row of (A B) v against A (B v). */
  lemma Assoc3(a0: real, a1: real, a2: real,
               b00: real, b01: real, b02: real,
               b10: real, b11: real, b12: real,
               b20: real, b21: real, b22: real,
               v0: real, v1: real, v2: real)
    ensures (a0 * b00 + a1 * b10 + a2 * b20) * v0 + (a0 * b01 + a1 * b11 + a2 * b21) * v1 + (a0 * b02 + a1 * b12 + a2 * b22) * v2
         == a0 * (b00 * v0 + b01 * v1 + b02 * v2) + a1 * (b10 * v0 + b11 * v1 + b12 * v2) + a2 * (b20 * v0 + b21 * v1 + b22 * v2)
  {
  }

  /** det(I) == 1, and flipping the sign of entry (2, 2) gives a left-handed matrix with det == -1. */
  lemma DetOfIdentity()
    ensures Det(Identity) == 1.0
    ensures Det(Identity.With(2, 2, -1.0)) == -1.0
  {
  }

  /** MulV is linear. */
  lemma MulVLinear(A: Mat3, a: Vec3, b: Vec3)
    ensures MulV(A, Add(a, b)) == Add(MulV(A, a), MulV(A, b))
    ensures MulV(A, Sub(a, b)) == Sub(MulV(A, a), MulV(A, b))
    ensures MulV(A, Zero) == Zero
  {
    Linear3(A.r0.x, A.r0.y, A.r0.z, a.x, a.y, a.z, b.x, b.y, b.z);
    Linear3(A.r1.x, A.r1.y, A.r1.z, a.x, a.y, a.z, b.x, b.y, b.z);
    Linear3(A.r2.x, A.r2.y, A.r2.z, a.x, a.y, a.z, b.x, b.y, b.z);
  }

  /** The scalar identity behind MulVLinear: one row against a sum and a difference. */
  lemma Linear3(p: real, q: real, t: real, ax: real, ay: real, az: real, bx: real, bY: real, bz: real)
    ensures p * (ax + bx) + q * (ay + bY) + t * (az + bz) == (p * ax + q * ay + t * az) + (p * bx + q * bY + t * bz)
    ensures p * (ax - bx) + q * (ay - bY) + t * (az - bz) == (p * ax + q * ay + t * az) - (p * bx + q * bY + t * bz)
  {
  }

  // ---------------------------------------------------------------------
  // The loops of core/types.hpp, proved against the functions above
  // ---------------------------------------------------------------------

  /** `mul(A, B)`: fills a default (identity) matrix entry by entry with a running sum. */
  method MatMul(A: Mat3, B: Mat3) returns (C: Mat3)
    ensures C == MulM(A, B)
  {
    C := Identity;
    var r := 0;
    while r < 3
      invariant 0 <= r <= 3
      invariant forall i, j :: 0 <= i < 3 && 0 <= j < 3 ==>
        C.At(i, j) == if i < r then ProductSum(A, B, i, j, 3) else Identity.At(i, j)
    {
      var c := 0;
      while c < 3
        invariant 0 <= c <= 3
        invariant forall i, j :: 0 <= i < 3 && 0 <= j < 3 ==>
          C.At(i, j) == if i < r || (i == r && j < c) then ProductSum(A, B, i, j, 3) else Identity.At(i, j)
      {
        var s := 0.0;
        var k := 0;
        while k < 3
          invariant 0 <= k <= 3
          invariant s == ProductSum(A, B, r, c, k)
        {
          s := s + A.At(r, k) * B.At(k, c);
          k := k + 1;
        }
        C := C.With(r, c, s);
        c := c + 1;
      }
      r := r + 1;
    }
    MulMAt(A, B);
    MatrixExt(C, MulM(A, B));
  }

  /** `transpose(A)`: T(r, c) = A(c, r), filled entry by entry. */
  method TransposeLoop(A: Mat3) returns (T: Mat3)
    ensures T == Transpose(A)
  {
    T := Identity;
    var r := 0;
    while r < 3
      invariant 0 <= r <= 3
      invariant forall i, j :: 0 <= i < 3 && 0 <= j < 3 ==>
        T.At(i, j) == if i < r then A.At(j, i) else Identity.At(i, j)
    {
      var c := 0;
      while c < 3
        invariant 0 <= c <= 3
        invariant forall i, j :: 0 <= i < 3 && 0 <= j < 3 ==>
          T.At(i, j) == if i < r || (i == r && j < c) then A.At(j, i) else Identity.At(i, j)
      {
        T := T.With(r, c, A.At(c, r));
        c := c + 1;
      }
      r := r + 1;
    }
    TransposeAt(A);
    MatrixExt(T, Transpose(A));
  }

  // ---------------------------------------------------------------------
  // Doubles to reals
  // ---------------------------------------------------------------------

  predicate FiniteVec(v: DVec3) { v.x.IsFinite() && v.y.IsFinite() && v.z.IsFinite() }

  function RealVec(v: DVec3): Vec3
    requires FiniteVec(v)
  {
    V3(v.x.v, v.y.v, v.z.v)
  }

  function DoubleVec(v: Vec3): DVec3 { DV3(Fin(v.x), Fin(v.y), Fin(v.z)) }

  predicate FiniteMat(m: DMat3) { FiniteVec(m.r0) && FiniteVec(m.r1) && FiniteVec(m.r2) }

  function RealMat(m: DMat3): Mat3
    requires FiniteMat(m)
  {
    M3(RealVec(m.r0), RealVec(m.r1), RealVec(m.r2))
  }

  function DoubleMat(m: Mat3): DMat3 { DM3(DoubleVec(m.r0), DoubleVec(m.r1), DoubleVec(m.r2)) }

  lemma DoubleRealRoundTrip(v: Vec3, m: Mat3)
    ensures FiniteVec(DoubleVec(v)) && RealVec(DoubleVec(v)) == v
    ensures FiniteMat(DoubleMat(m)) && RealMat(DoubleMat(m)) == m
  {
  }

  /** A finite matrix is one whose every entry is finite. */
  lemma FiniteMatEntries(m: DMat3)
    ensures FiniteMat(m) <==> forall r, c :: 0 <= r < 3 && 0 <= c < 3 ==> m.At(r, c).IsFinite()
  {
    if forall r, c :: 0 <= r < 3 && 0 <= c < 3 ==> m.At(r, c).IsFinite() {
      assert m.At(0, 0).IsFinite() && m.At(0, 1).IsFinite() && m.At(0, 2).IsFinite();
      assert m.At(1, 0).IsFinite() && m.At(1, 1).IsFinite() && m.At(1, 2).IsFinite();
      assert m.At(2, 0).IsFinite() && m.At(2, 1).IsFinite() && m.At(2, 2).IsFinite();
    }
  }

  // ---------------------------------------------------------------------
  // Status codes and payloads
  // ---------------------------------------------------------------------

  datatype ProviderCode = KOk | KTimeMissing | KFrameMismatch | KNotAvailable | KInvalidInput | KInternalError

  datatype OmegaCoords = OmegaUnspecified | OmegaRIC | OmegaInertial

  datatype FrameKind = KindUnspecified | BullseyeRIC

  datatype AxisOrder = AxisUnspecified | RIC

  datatype ProviderStatus = ProviderStatus(code: ProviderCode)
  {
    predicate Ok() { code == KOk }
  }

  /**
   * A frame identity: the source passes `const char*` pointers and compares
   * them by address, so an identity is an opaque token and null is None.
   */
  type FrameRef = nat

  datatype ChiefState = ChiefState(
    timeTag: Double,
    r: DVec3,
    v: DVec3,
    frameId: Option<FrameRef>,
    status: ProviderStatus)

  const ZeroD: DVec3 := DV3(Fin(0.0), Fin(0.0), Fin(0.0))
  const IdentityD: DMat3 := DoubleMat(Identity)

  /** A value-initialised ChiefState. */
  const DefaultChief: ChiefState := ChiefState(Fin(0.0), ZeroD, ZeroD, None, ProviderStatus(KOk))

  datatype AdoptedRicFrame = AdoptedRicFrame(
    timeTag: Double,
    origin: DVec3,
    C: DMat3,                 // RIC -> inertial
    hasOmega: bool,
    omegaRic: DVec3,
    omegaCoords: OmegaCoords,
    frameKind: FrameKind,
    axisOrder: AxisOrder,
    frameSourceId: Option<FrameRef>,
    status: ProviderStatus)

  /** A value-initialised AdoptedRicFrame: identity DCM, no omega, nothing declared. */
  const DefaultAdopted: AdoptedRicFrame := AdoptedRicFrame(
    Fin(0.0), ZeroD, IdentityD, false, ZeroD, OmegaUnspecified,
    KindUnspecified, AxisUnspecified, None, ProviderStatus(KOk))
}
