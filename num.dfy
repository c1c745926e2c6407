// IEEE-754 doubles as seen by the guards of the source, and the elementary
// functions (sqrt, sin, cos) that Dafny cannot define.
//
// Arithmetic on finite values is exact over `real`; a computed value counts as
// non-finite exactly when its exact value lies beyond the largest finite
// double (overflow). Rounding is not modelled.
module Num {

  /** A double: a finite value, one of the two infinities, or NaN. */
  datatype Double = Fin(v: real) | PosInf | NegInf | NaN
  {
    /** std::isfinite */
    predicate IsFinite() { Fin? }
  }

  /** DBL_MAX, the largest finite double. */
  const MaxFinite: real := 1.7976931348623157e308

  /** The double that an exact real result becomes: itself, or an infinity on overflow. */
  function Round(x: real): (d: Double)
    ensures d.IsFinite() <==> -MaxFinite <= x <= MaxFinite
    ensures d.IsFinite() ==> d.v == x
    ensures !d.IsFinite() ==> d != NaN && (d == PosInf <==> x > 0.0)
  {
    if x > MaxFinite then PosInf else if x < -MaxFinite then NegInf else Fin(x)
  }

  /** Whether an exact real result stays finite once stored as a double. */
  predicate Representable(x: real) { -MaxFinite <= x <= MaxFinite }

  /** `a == b` on doubles: NaN equals nothing, infinities equal themselves. */
  predicate Eq(a: Double, b: Double) {
    match (a, b)
    case (Fin(x), Fin(y)) => x == y
    case (PosInf, PosInf) => true
    case (NegInf, NegInf) => true
    case _ => false
  }

  /** `a < b` on doubles: false whenever either side is NaN. */
  predicate Lt(a: Double, b: Double) {
    match (a, b)
    case (NaN, _) => false
    case (_, NaN) => false
    case (Fin(x), Fin(y)) => x < y
    case (NegInf, NegInf) => false
    case (NegInf, _) => true
    case (PosInf, _) => false
    case (_, PosInf) => true
    case (_, NegInf) => false
  }

  predicate Le(a: Double, b: Double) { Lt(a, b) || Eq(a, b) }
  predicate Gt(a: Double, b: Double) { Lt(b, a) }
  predicate Ge(a: Double, b: Double) { Le(b, a) }

  /** `a - b` on doubles with IEEE special values; exact (up to overflow) on finite ones. */
  function DSub(a: Double, b: Double): (d: Double)
    ensures a.IsFinite() && b.IsFinite() ==> d == Round(a.v - b.v)
    ensures a == NaN || b == NaN ==> d == NaN
  {
    match (a, b)
    case (Fin(x), Fin(y)) => Round(x - y)
    case (NaN, _) => NaN
    case (_, NaN) => NaN
    case (PosInf, PosInf) => NaN
    case (NegInf, NegInf) => NaN
    case (PosInf, _) => PosInf
    case (NegInf, _) => NegInf
    case (_, PosInf) => NegInf
    case (_, NegInf) => PosInf
  }

  lemma NaNComparesFalse(d: Double)
    ensures !Eq(NaN, d) && !Lt(NaN, d) && !Le(NaN, d) && !Gt(NaN, d) && !Ge(NaN, d)
    ensures !Eq(d, NaN) && !Lt(d, NaN) && !Le(d, NaN) && !Gt(d, NaN) && !Ge(d, NaN)
  {
  }

  /** A positive finite double: what the guard `!(x > 0) || !isfinite(x)` lets through. */
  predicate PositiveFinite(d: Double) { Gt(d, Fin(0.0)) && d.IsFinite() }

  lemma PositiveFiniteMeans(d: Double)
    ensures PositiveFinite(d) <==> d.Fin? && d.v > 0.0
  {
  }

  /** C++ std::floor and std::ceil on reals. */
  function Floor(x: real): (k: int)
    ensures k as real <= x < k as real + 1.0
  {
    x.Floor
  }

  function Ceil(x: real): (k: int)
    ensures k as real - 1.0 < x <= k as real
  {
    -((-x).Floor)
  }

  /**
   * The elementary functions the source takes from <cmath>. Dafny has no
   * definition of them, so they are parameters; `Lawful` lists the only
   * facts the proofs rely on.
   */
  datatype Elementary = Elementary(sqrt: real -> real, sin: real -> real, cos: real -> real)

  ghost predicate SqrtLaw(sqrt: real -> real) {
    forall x: real {:trigger sqrt(x)} :: 0.0 <= x ==> 0.0 <= sqrt(x) && sqrt(x) * sqrt(x) == x
  }

  ghost predicate Lawful(e: Elementary) {
    SqrtLaw(e.sqrt) && e.sin(0.0) == 0.0 && e.cos(0.0) == 1.0
  }

  /** Squaring is strictly monotone on non-negative reals. */
  lemma SquareMonotone(a: real, b: real)
    requires 0.0 <= a < b
    ensures a * a < b * b
  {
    assert a * (b - a) >= 0.0;
    assert a * (b - a) == a * b - a * a;
    assert (b - a) * b > 0.0;
    assert (b - a) * b == b * b - a * b;
  }

  /** A square is non-negative, and positive unless the base is zero. */
  lemma SquareNonNegative(x: real)
    ensures x * x >= 0.0
    ensures x != 0.0 ==> x * x > 0.0
  {
    if x > 0.0 {
      SquareMonotone(0.0, x);
    } else if x < 0.0 {
      SquareMonotone(0.0, -x);
      assert (-x) * (-x) == x * x;
    }
  }

  /** The square root of a square is the absolute value. */
  lemma SqrtOfSquare(e: Elementary, x: real)
    requires SqrtLaw(e.sqrt)
    ensures e.sqrt(x * x) == if x >= 0.0 then x else -x
  {
    var a := if x >= 0.0 then x else -x;
    assert a * a == x * x;
    var s := e.sqrt(a * a);
    assert s >= 0.0 && s * s == a * a;
    if s < a {
      SquareMonotone(s, a);
    } else if s > a {
      SquareMonotone(a, s);
    }
  }

  /** sqrt is strictly positive on positive inputs, and zero at zero. */
  lemma SqrtPositive(e: Elementary, x: real)
    requires SqrtLaw(e.sqrt) && x >= 0.0
    ensures e.sqrt(x) > 0.0 <==> x > 0.0
  {
    var s := e.sqrt(x);
    assert s >= 0.0 && s * s == x;
    if s > 0.0 {
      SquareMonotone(0.0, s);
    }
  }

  /** sqrt is monotone: comparing square roots is comparing the squares. */
  lemma SqrtMonotone(e: Elementary, x: real, y: real)
    requires SqrtLaw(e.sqrt) && 0.0 <= x && 0.0 <= y
    ensures e.sqrt(x) <= e.sqrt(y) <==> x <= y
  {
    var a, b := e.sqrt(x), e.sqrt(y);
    assert a >= 0.0 && a * a == x;
    assert b >= 0.0 && b * b == y;
    if a < b {
      SquareMonotone(a, b);
    } else if b < a {
      SquareMonotone(b, a);
    }
  }

  /** std::fabs on a finite value. */
  function Abs(x: real): (a: real)
    ensures a >= 0.0 && (a == x || a == -x)
  {
    if x < 0.0 then -x else x
  }

  function MinNat(a: nat, b: nat): (m: nat)
    ensures m <= a && m <= b && (m == a || m == b)
  {
    if a < b then a else b
  }
}
