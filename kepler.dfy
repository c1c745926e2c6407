// The universal-variable two-body solve shared by the two-body chief
// provider (core/provider_twobody.cpp) and the eccentric-reference model's
// chief propagation (models/model_ya_stm.cpp): a fixed number of Newton
// iterations on Kepler's universal equation, then the Lagrange f and g
// coefficients. Convergence is not part of this model; the control flow is.
module Kepler {
  import opened Num
  import opened Types
  import opened Wrappers

  /**
   * The Stumpff functions C(z) and S(z) (core/math/stumpff.hpp). Their
   * trigonometric and hyperbolic numerics are not modelled, so they are
   * parameters.
   */
  datatype Stumpff = Stumpff(c: real -> real, s: real -> real)

  /** A computed value that passes `std::isfinite`. */
  predicate FiniteReal(x: real) { Representable(x) }

  predicate FiniteV(v: Vec3) { FiniteReal(v.x) && FiniteReal(v.y) && FiniteReal(v.z) }

  /** The quantities fixed before the Newton loop. */
  datatype Setup = Setup(sqrtMu: real, alpha: real, r0n: real, r0dotv0OverSqrtMu: real, dt: real)
  {
    predicate Wf() { sqrtMu > 0.0 && r0n > 0.0 }
  }

  /** sqrt(mu), the reciprocal semi-major axis 2/|r0| - |v0|^2/mu, and r0.v0/sqrt(mu). */
  function MakeSetup(e: Elementary, mu: real, r0: Vec3, v0: Vec3, dt: real): (su: Setup)
    requires SqrtLaw(e.sqrt) && mu > 0.0 && Norm(e, r0) > 0.0
    ensures su.Wf() && su.dt == dt && su.r0n == Norm(e, r0) && su.sqrtMu * su.sqrtMu == mu
  {
    SqrtPositive(e, mu);
    var sqrtMu := e.sqrt(mu);
    var r0n := Norm(e, r0);
    Setup(sqrtMu, 2.0 / r0n - Dot(v0, v0) / mu, r0n, Dot(r0, v0) / sqrtMu, dt)
  }

  /** The deterministic first guess: sqrt(mu)|alpha| dt, or sqrt(mu) dt / |r0| near parabolic. */
  function InitialGuess(su: Setup): real
    requires su.Wf()
  {
    if Abs(su.alpha) > 1.0e-8 then su.sqrtMu * Abs(su.alpha) * su.dt
    else su.sqrtMu * su.dt / su.r0n
  }

  /** Kepler's universal equation F(x) and its derivative dF(x). */
  function Residual(st: Stumpff, su: Setup, x: real): (real, real)
  {
    var x2 := x * x;
    var z := su.alpha * x2;
    var C := st.c(z);
    var S := st.s(z);
    var x3 := x2 * x;
    var oneMinusAlphaR0 := 1.0 - su.alpha * su.r0n;
    (su.r0dotv0OverSqrtMu * x2 * C + oneMinusAlphaR0 * x3 * S + su.r0n * x - su.sqrtMu * su.dt,
     su.r0dotv0OverSqrtMu * x * (1.0 - z * S) + oneMinusAlphaR0 * x2 * C + su.r0n)
  }

  /**
   * One Newton update from x given F(x) = f and dF(x) = df: x - f/df, the
   * zero of the tangent, or x kept when df is zero or either value is not
   * finite.
   */
  function NewtonUpdate(x: real, f: real, df: real): (x': real)
    ensures if df == 0.0 || !FiniteReal(df) || !FiniteReal(f) then x' == x else x' * df == x * df - f
  {
    if !(df != 0.0) || !FiniteReal(df) || !FiniteReal(f) then x
    else
      TangentRoot(x, f, df);
      x - f / df
  }

  /** x - f/df is where the tangent through (x, f) with slope df meets zero. */
  lemma TangentRoot(x: real, f: real, df: real)
    requires df != 0.0
    ensures (x - f / df) * df == x * df - f
  {
    assert (f / df) * df == f;
  }

  /** One Newton pass on the universal equation. */
  function NewtonStep(st: Stumpff, su: Setup, x: real): real
  {
    var r := Residual(st, su, x);
    NewtonUpdate(x, r.0, r.1)
  }

  /** `n` Newton steps from x. */
  function Iterate(st: Stumpff, su: Setup, x: real, n: nat): real
    decreases n
  {
    if n == 0 then x else Iterate(st, su, NewtonStep(st, su, x), n - 1)
  }

  /** The fixed-count loop: exactly `iters` passes, none skipped, no early exit. */
  method NewtonSolve(st: Stumpff, su: Setup, iters: nat) returns (x: real, passes: nat)
    requires su.Wf()
    ensures x == Iterate(st, su, InitialGuess(su), iters)
    ensures passes == iters
  {
    x := InitialGuess(su);
    passes := 0;
    while passes < iters
      invariant passes <= iters
      invariant Iterate(st, su, InitialGuess(su), iters) == Iterate(st, su, x, iters - passes)
    {
      var (f, df) := Residual(st, su, x);
      passes := passes + 1;
      if !(df != 0.0) || !FiniteReal(df) || !FiniteReal(f) {
        continue;
      }
      x := x - f / df;
    }
  }

  /** The propagated position f r0 + g v0, with f = 1 - x^2 C / |r0| and g = dt - x^3 S / sqrt(mu). */
  function Position(st: Stumpff, su: Setup, x: real, r0: Vec3, v0: Vec3): Vec3
    requires su.Wf()
  {
    var x2 := x * x;
    var z := su.alpha * x2;
    var f := 1.0 - (x2 / su.r0n) * st.c(z);
    var g := su.dt - (x2 * x / su.sqrtMu) * st.s(z);
    Add(Scale(f, r0), Scale(g, v0))
  }

  /**
   * The propagated velocity fdot r0 + gdot v0 given the new radius rn, with
   * fdot = sqrt(mu) / (|r0| rn) (z S - 1) x and gdot = 1 - x^2 C / rn.
   */
  function Velocity(st: Stumpff, su: Setup, x: real, rn: real, r0: Vec3, v0: Vec3): Vec3
    requires su.Wf() && rn > 0.0
  {
    var x2 := x * x;
    var z := su.alpha * x2;
    var fdot := (su.sqrtMu / (su.r0n * rn)) * (z * st.s(z) - 1.0) * x;
    var gdot := 1.0 - (x2 / rn) * st.c(z);
    Add(Scale(fdot, r0), Scale(gdot, v0))
  }

  /**
   * f and g applied to the solved x, with the checks both callers make on
   * the result: |r| positive and in range, then r and v in range. The
   * result, when there is one, is a usable state.
   */
  function Propagated(e: Elementary, st: Stumpff, su: Setup, x: real, r0: Vec3, v0: Vec3): (pv: Option<(Vec3, Vec3)>)
    requires su.Wf()
    ensures pv.Some? ==> FiniteV(pv.value.0) && FiniteV(pv.value.1)
    ensures pv.Some? ==> Norm(e, pv.value.0) > 0.0 && FiniteReal(Norm(e, pv.value.0))
    ensures pv.Some? ==> pv.value.0 == Position(st, su, x, r0, v0)
  {
    var r := Position(st, su, x, r0, v0);
    var rn := Norm(e, r);
    if !(rn > 0.0) || !FiniteReal(rn) then None
    else
      var v := Velocity(st, su, x, rn, r0, v0);
      if !FiniteV(r) || !FiniteV(v) then None
      else Some((r, v))
  }

  /** The statements after the Newton loop, with their two failure exits. */
  method FinishOrbit(e: Elementary, st: Stumpff, su: Setup, x: real, r0: Vec3, v0: Vec3)
      returns (ok: bool, r: Vec3, v: Vec3)
    requires su.Wf()
    ensures ok == Propagated(e, st, su, x, r0, v0).Some?
    ensures ok ==> (r, v) == Propagated(e, st, su, x, r0, v0).value
  {
    r := Position(st, su, x, r0, v0);
    var rn := Norm(e, r);
    if !(rn > 0.0) || !FiniteReal(rn) {
      return false, r, Zero;
    }
    v := Velocity(st, su, x, rn, r0, v0);
    if !FiniteV(r) || !FiniteV(v) {
      return false, r, v;
    }
    ok := true;
  }

  // ---------------------------------------------------------------------
  // No time elapsed: the epoch state comes back
  // ---------------------------------------------------------------------

  /** With dt = 0 the first guess is 0. */
  lemma ZeroDtGuess(su: Setup)
    requires su.Wf() && su.dt == 0.0
    ensures InitialGuess(su) == 0.0
  {
  }

  /** With dt = 0, x = 0 is a fixed point of the Newton update: F(0) = 0 and dF(0) = |r0| != 0. */
  lemma ZeroIsFixedPoint(st: Stumpff, su: Setup)
    requires su.Wf() && su.dt == 0.0
    ensures NewtonStep(st, su, 0.0) == 0.0
  {
    assert Residual(st, su, 0.0) == (0.0, su.r0n);
  }

  /** Hence any number of Newton passes from 0 stays at 0. */
  lemma {:induction false} IterateFromZero(st: Stumpff, su: Setup, n: nat)
    requires su.Wf() && su.dt == 0.0
    ensures Iterate(st, su, 0.0, n) == 0.0
    decreases n
  {
    if n > 0 {
      ZeroIsFixedPoint(st, su);
      IterateFromZero(st, su, n - 1);
    }
  }

  /** At x = 0 and dt = 0: f = 1, g = 0, fdot = 0, gdot = 1, so (r, v) = (r0, v0). */
  lemma EpochCoefficients(st: Stumpff, su: Setup, r0: Vec3, v0: Vec3, rn: real)
    requires su.Wf() && su.dt == 0.0 && rn > 0.0
    ensures Position(st, su, 0.0, r0, v0) == r0
    ensures Velocity(st, su, 0.0, rn, r0, v0) == v0
  {
  }

  /**
   * The solve after any number of passes returns the epoch state when no
   * time has elapsed, and the checks after it pass when that state is
   * usable.
   */
  lemma EpochStateReturned(st: Stumpff, su: Setup, n: nat, r0: Vec3, v0: Vec3, rn: real)
    requires su.Wf() && su.dt == 0.0 && rn > 0.0
    ensures var x := Iterate(st, su, InitialGuess(su), n);
            Position(st, su, x, r0, v0) == r0 && Velocity(st, su, x, rn, r0, v0) == v0
  {
    ZeroDtGuess(su);
    IterateFromZero(st, su, n);
    EpochCoefficients(st, su, r0, v0, rn);
  }

  /** At the epoch the guarded propagation answers the epoch state itself. */
  lemma EpochPropagated(e: Elementary, st: Stumpff, su: Setup, n: nat, r0: Vec3, v0: Vec3)
    requires su.Wf() && su.dt == 0.0
    requires FiniteV(r0) && FiniteV(v0) && Norm(e, r0) > 0.0 && FiniteReal(Norm(e, r0))
    ensures Propagated(e, st, su, Iterate(st, su, InitialGuess(su), n), r0, v0) == Some((r0, v0))
  {
    EpochStateReturned(st, su, n, r0, v0, Norm(e, r0));
  }
}
