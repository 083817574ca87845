/** Vector arithmetic over the reals: the engine's NiVector3 (three lanes) and
    AlignedVector4 (three lanes and a padding lane), their dot and cross products,
    and length and normalization built on an abstract square root.

    Products that lemmas compare are named (`Sq`, `Mul`): the facts below are
    stated over those names and over `Dot` and `Length`, and each is proved from
    the definitions in a lemma of its own. */
module VectorMath {

  /** A three-lane vector (the engine's NiVector3). */
  datatype Vec3 = Vec3(x: real, y: real, z: real)

  /** A four-lane vector (the engine's AlignedVector4); lane w is padding. */
  datatype Vec4 = Vec4(x: real, y: real, z: real, w: real)

  const Zero3: Vec3 := Vec3(0.0, 0.0, 0.0)
  const Zero4: Vec4 := Vec4(0.0, 0.0, 0.0, 0.0)

  /** std::max(a, b), which yields a unless a < b. */
  function Max(a: real, b: real): real { if a < b then b else a }

  /** std::min(a, b), which yields a unless b < a. */
  function Min(a: real, b: real): real { if b < a then b else a }

  function Sq(a: real): real { a * a }

  function Mul(a: real, b: real): real { a * b }

  /** The three-lane view of a four-lane vector (a cast to NiVector3&). */
  function Xyz(v: Vec4): Vec3 { Vec3(v.x, v.y, v.z) }

  /** A three-lane vector widened to four lanes with a zero padding lane. */
  function Widen(v: Vec3): Vec4 { Vec4(v.x, v.y, v.z, 0.0) }

  function Dot(a: Vec3, b: Vec3): real { a.x * b.x + a.y * b.y + a.z * b.z }

  function Cross(a: Vec3, b: Vec3): Vec3 {
    Vec3(a.y * b.z - a.z * b.y, a.z * b.x - a.x * b.z, a.x * b.y - a.y * b.x)
  }

  function Add3(a: Vec3, b: Vec3): Vec3 { Vec3(a.x + b.x, a.y + b.y, a.z + b.z) }

  function Scale3(v: Vec3, k: real): Vec3 { Vec3(v.x * k, v.y * k, v.z * k) }

  /** Scalar multiplication of all four lanes. */
  function Scale4(v: Vec4, k: real): Vec4 { Vec4(v.x * k, v.y * k, v.z * k, v.w * k) }

  /** Lane-wise sum and difference of all four lanes (packed arithmetic). */
  function Add4(a: Vec4, b: Vec4): Vec4 { Vec4(a.x + b.x, a.y + b.y, a.z + b.z, a.w + b.w) }

  function Sub4(a: Vec4, b: Vec4): Vec4 { Vec4(a.x - b.x, a.y - b.y, a.z - b.z, a.w - b.w) }

  /** Adding a three-lane vector to a four-lane one leaves the padding lane alone. */
  function AddXyz(v: Vec4, d: Vec3): Vec4 { Vec4(v.x + d.x, v.y + d.y, v.z + d.z, v.w) }

  /** `sqrt` is the square root on the non-negative reals. The engine's square
      root is floating point; the model relies only on these facts. (The root of
      zero being zero follows from the rest; it is stated so that the solver need
      not derive it.) */
  ghost predicate IsSqrt(sqrt: real -> real) {
    && sqrt(0.0) == 0.0
    && forall x: real :: 0.0 <= x ==> 0.0 <= sqrt(x) && Sq(sqrt(x)) == x
  }

  /** NiVector3::Length. */
  function Length(sqrt: real -> real, v: Vec3): real { sqrt(Dot(v, v)) }

  /** NiVector3::Normalize: the vector divided by its length; a zero-length vector
      is returned as it is. */
  function Normalize(sqrt: real -> real, v: Vec3): Vec3 {
    var len := Length(sqrt, v);
    if len == 0.0 then v else Scale3(v, 1.0 / len)
  }

  // Products and roots of reals.

  lemma MulPositive(a: real, b: real)
    requires 0.0 < a && 0.0 < b
    ensures 0.0 < Mul(a, b)
  {
  }

  lemma MulNonNegative(a: real, b: real)
    requires !(a < 0.0) && !(b < 0.0)
    ensures !(Mul(a, b) < 0.0)
  {
    if 0.0 < a && 0.0 < b {
      MulPositive(a, b);
    }
  }

  /** A product with a factor in [0, 1] is at most the other factor, when that one
      is non-negative. */
  lemma MulAtMost(k: real, a: real)
    requires !(k < 0.0) && !(1.0 < k) && !(a < 0.0)
    ensures !(a < Mul(k, a))
  {
    MulNonNegative(1.0 - k, a);
    assert Mul(1.0 - k, a) == a - Mul(k, a);
  }

  /** A square is never negative, and positive unless its base is zero. */
  lemma SqFacts(a: real)
    ensures !(Sq(a) < 0.0)
    ensures a < 0.0 || 0.0 < a ==> 0.0 < Sq(a)
  {
    if a < 0.0 {
      MulPositive(-a, -a);
    } else if 0.0 < a {
      MulPositive(a, a);
    }
  }

  lemma SqMul(a: real, b: real)
    ensures Sq(Mul(a, b)) == Mul(Sq(a), Sq(b))
  {
  }

  /** Non-negative square roots are unique. */
  lemma SquareRootUnique(a: real, b: real)
    requires !(a < 0.0) && !(b < 0.0) && Sq(a) == Sq(b)
    ensures a == b
  {
    assert Mul(a - b, a + b) == Sq(a) - Sq(b);
    if a > b {
      MulPositive(a - b, a + b);
    } else if b > a {
      MulPositive(b - a, a + b);
    }
  }

  lemma PositiveRoot(s: real, d: real)
    requires !(s < 0.0) && Sq(s) == d && 0.0 < d
    ensures 0.0 < s
  {
  }

  /** 1/l is the positive inverse of a positive l. */
  lemma InverseTimes(l: real)
    requires 0.0 < l
    ensures Mul(1.0 / l, l) == 1.0
    ensures 0.0 < 1.0 / l
  {
  }

  lemma SqrtAt(sqrt: real -> real, x: real)
    requires IsSqrt(sqrt) && !(x < 0.0)
    ensures !(sqrt(x) < 0.0) && Sq(sqrt(x)) == x
  {
  }

  /** The root of a square of a non-negative number is that number. */
  lemma SqrtOfSquare(sqrt: real -> real, a: real)
    requires IsSqrt(sqrt) && !(a < 0.0)
    ensures sqrt(Sq(a)) == a
  {
    SqFacts(a);
    SqrtAt(sqrt, Sq(a));
    SquareRootUnique(sqrt(Sq(a)), a);
  }

  // Dot products, lengths and normalization.

  lemma DotSelfSq(v: Vec3)
    ensures Dot(v, v) == Sq(v.x) + Sq(v.y) + Sq(v.z)
  {
  }

  /** A vector's squared length is non-negative, and positive unless it is zero. */
  lemma DotSelfNonNegative(v: Vec3)
    ensures !(Dot(v, v) < 0.0)
    ensures v != Zero3 ==> 0.0 < Dot(v, v)
  {
    DotSelfSq(v);
    SqFacts(v.x);
    SqFacts(v.y);
    SqFacts(v.z);
  }

  /** The length is non-negative and squares to the dot product of the vector
      with itself. */
  lemma LengthSquared(sqrt: real -> real, v: Vec3)
    requires IsSqrt(sqrt)
    ensures !(Length(sqrt, v) < 0.0)
    ensures Sq(Length(sqrt, v)) == Dot(v, v)
  {
    DotSelfNonNegative(v);
    SqrtAt(sqrt, Dot(v, v));
  }

  lemma LengthOfZero(sqrt: real -> real)
    requires IsSqrt(sqrt)
    ensures Length(sqrt, Zero3) == 0.0
  {
  }

  lemma LengthPositive(sqrt: real -> real, v: Vec3)
    requires IsSqrt(sqrt) && v != Zero3
    ensures 0.0 < Length(sqrt, v)
  {
    DotSelfNonNegative(v);
    LengthSquared(sqrt, v);
    PositiveRoot(Length(sqrt, v), Dot(v, v));
  }

  lemma DotSymmetric(a: Vec3, b: Vec3)
    ensures Dot(a, b) == Dot(b, a)
  {
  }

  lemma DotAdd(a: Vec3, b: Vec3, c: Vec3)
    ensures Dot(Add3(a, b), c) == Dot(a, c) + Dot(b, c)
  {
  }

  lemma DotScale(a: Vec3, k: real, b: Vec3)
    ensures Dot(Scale3(a, k), b) == Mul(k, Dot(a, b))
    ensures Dot(b, Scale3(a, k)) == Mul(k, Dot(a, b))
  {
    assert Dot(Scale3(a, k), b) == (a.x * k) * b.x + (a.y * k) * b.y + (a.z * k) * b.z;
  }

  lemma DotScaleSelf(v: Vec3, k: real)
    ensures Dot(Scale3(v, k), Scale3(v, k)) == Mul(Sq(k), Dot(v, v))
  {
  }

  /** Scaling by a non-negative factor scales the length by that factor. */
  lemma LengthScale(sqrt: real -> real, v: Vec3, k: real)
    requires IsSqrt(sqrt) && !(k < 0.0)
    ensures Length(sqrt, Scale3(v, k)) == Mul(k, Length(sqrt, v))
  {
    var w := Scale3(v, k);
    var l := Length(sqrt, v);
    LengthSquared(sqrt, v);
    LengthSquared(sqrt, w);
    DotScaleSelf(v, k);
    SqMul(k, l);
    MulNonNegative(k, l);
    SquareRootUnique(Length(sqrt, w), Mul(k, l));
  }

  lemma XyzScale4(v: Vec4, k: real)
    ensures Xyz(Scale4(v, k)) == Scale3(Xyz(v), k)
  {
  }

  /** A non-zero vector normalizes to a positive multiple of itself of unit length. */
  lemma NormalizeUnit(sqrt: real -> real, v: Vec3)
    requires IsSqrt(sqrt) && v != Zero3
    ensures 0.0 < Length(sqrt, v)
    ensures Normalize(sqrt, v) == Scale3(v, 1.0 / Length(sqrt, v))
    ensures Length(sqrt, Normalize(sqrt, v)) == 1.0
  {
    LengthPositive(sqrt, v);
    var l := Length(sqrt, v);
    InverseTimes(l);
    LengthScale(sqrt, v, 1.0 / l);
  }

  /** Normalization yields the zero vector exactly for the zero vector. */
  lemma NormalizeZero(sqrt: real -> real, v: Vec3)
    requires IsSqrt(sqrt)
    ensures Normalize(sqrt, v) == Zero3 <==> v == Zero3
  {
    LengthOfZero(sqrt);
    if v != Zero3 {
      NormalizeUnit(sqrt, v);
    }
  }

  /** |a x b|^2 == |a|^2 |b|^2 - (a . b)^2 (Lagrange's identity). */
  lemma LagrangeIdentity(a: Vec3, b: Vec3)
    ensures Dot(Cross(a, b), Cross(a, b)) == Dot(a, a) * Dot(b, b) - Dot(a, b) * Dot(a, b)
  {
  }

  /** The cross product of two orthonormal vectors completes them to an
      orthonormal triple. */
  lemma CrossOfOrthonormal(f: Vec3, u: Vec3)
    requires Dot(f, f) == 1.0 && Dot(u, u) == 1.0 && Dot(f, u) == 0.0
    ensures Dot(Cross(f, u), Cross(f, u)) == 1.0
    ensures Dot(Cross(f, u), f) == 0.0 && Dot(Cross(f, u), u) == 0.0
  {
    LagrangeIdentity(f, u);
  }

  /** The combination a*f + b*r + c*u of three vectors. */
  function Combine(f: Vec3, r: Vec3, u: Vec3, a: real, b: real, c: real): Vec3 {
    Add3(Add3(Scale3(f, a), Scale3(r, b)), Scale3(u, c))
  }

  /** The squared length of a combination of three orthonormal vectors is the
      sum of the squared coefficients. */
  lemma OrthonormalCombination(f: Vec3, r: Vec3, u: Vec3, a: real, b: real, c: real)
    requires Dot(f, f) == 1.0 && Dot(r, r) == 1.0 && Dot(u, u) == 1.0
    requires Dot(f, r) == 0.0 && Dot(f, u) == 0.0 && Dot(r, u) == 0.0
    ensures var m := Combine(f, r, u, a, b, c);
            Dot(m, m) == Sq(a) + Sq(b) + Sq(c)
  {
    var fa, rb, uc := Scale3(f, a), Scale3(r, b), Scale3(u, c);
    var m := Add3(Add3(fa, rb), uc);
    DotAdd(Add3(fa, rb), uc, m);
    DotAdd(fa, rb, m);
    DotScale(f, a, m);
    DotScale(r, b, m);
    DotScale(u, c, m);
    DotAdd(Add3(fa, rb), uc, f);
    DotAdd(fa, rb, f);
    DotAdd(Add3(fa, rb), uc, r);
    DotAdd(fa, rb, r);
    DotAdd(Add3(fa, rb), uc, u);
    DotAdd(fa, rb, u);
    DotScale(f, a, f); DotScale(r, b, f); DotScale(u, c, f);
    DotScale(f, a, r); DotScale(r, b, r); DotScale(u, c, r);
    DotScale(f, a, u); DotScale(r, b, u); DotScale(u, c, u);
    DotSymmetric(f, r); DotSymmetric(f, u); DotSymmetric(r, u);
    DotSymmetric(m, f); DotSymmetric(m, r); DotSymmetric(m, u);
    assert Dot(m, f) == a;
    assert Dot(m, r) == b;
    assert Dot(m, u) == c;
    assert Dot(m, m) == Mul(a, Dot(f, m)) + Mul(b, Dot(r, m)) + Mul(c, Dot(u, m));
  }
}
