// The eccentric-reference relative-dynamics model (models/model_ya_stm.cpp):
// the chief is propagated on a two-body orbit, the deputy's relative state
// obeys the linear time-varying equations of motion in the chief's rotating
// frame, and a fixed-step RK4 integrator carries it across the grid, with
// each grid interval cut into ceil(dt / max_dt) equal substeps. Arithmetic
// is exact once the inputs have passed their finiteness checks; the checks
// the source makes on computed values are checks that the real result is
// within double range.
module YaStm {
  import opened Num
  import opened Types
  import opened Wrappers
  import opened Kepler
  import opened RelativeModel

  /** The Newton pass count of the chief propagation in this model. */
  const KeplerIters: nat := 8

  // ---------------------------------------------------------------------
  // The relative state and its arithmetic
  // ---------------------------------------------------------------------

  /** State6: relative position and velocity in the chief's RIC axes. */
  datatype State6 = S6(x: real, y: real, z: real, xd: real, yd: real, zd: real)

  const Zero6: State6 := S6(0.0, 0.0, 0.0, 0.0, 0.0, 0.0)

  /** `add(a, b, scale_b)`: a + scale_b b, component by component. */
  function Add6(a: State6, b: State6, scale: real): (r: State6)
    ensures scale == 0.0 ==> r == a
    ensures b == Zero6 ==> r == a
  {
    S6(a.x + scale * b.x, a.y + scale * b.y, a.z + scale * b.z,
       a.xd + scale * b.xd, a.yd + scale * b.yd, a.zd + scale * b.zd)
  }

  predicate Finite6(s: State6)
  {
    FiniteReal(s.x) && FiniteReal(s.y) && FiniteReal(s.z)
    && FiniteReal(s.xd) && FiniteReal(s.yd) && FiniteReal(s.zd)
  }

  // ---------------------------------------------------------------------
  // Parameters
  // ---------------------------------------------------------------------

  /** YaStmParams: gravitational parameter, largest RK4 step, chief epoch state (inertial). */
  datatype Params = Params(mu: Double, maxDt: Double, chiefR0: DVec3, chiefV0: DVec3)

  /** RelStateRic: the deputy's initial relative position and velocity. */
  datatype RelState = RelState(r: DVec3, v: DVec3)

  /** The three parameter checks at the head of `predict_ya_stm`, in the source's order. */
  predicate ParamsValid(p: Params)
  {
    PositiveFinite(p.mu)
    && PositiveFinite(p.maxDt)
    && FiniteVec(p.chiefR0) && FiniteVec(p.chiefV0)
  }

  /** ... followed by the check on the initial relative state. */
  predicate InputsValid(p: Params, x0: RelState)
  {
    ParamsValid(p) && FiniteVec(x0.r) && FiniteVec(x0.v)
  }

  /**
   * The validated parameters in exact arithmetic, together with the
   * functions the source takes from <cmath> and core/math/stumpff.hpp, and
   * the Newton pass count (always KeplerIters).
   */
  datatype Ctx = Ctx(e: Elementary, st: Stumpff, mu: real, maxH: real, r0: Vec3, v0: Vec3, iters: nat)
  {
    ghost predicate Wf() { SqrtLaw(e.sqrt) && maxH > 0.0 && iters == KeplerIters }
  }

  function CtxOf(e: Elementary, st: Stumpff, p: Params): (c: Ctx)
    requires SqrtLaw(e.sqrt) && ParamsValid(p)
    ensures c.Wf() && c.mu > 0.0 && c.maxH > 0.0
  {
    PositiveFiniteMeans(p.mu);
    PositiveFiniteMeans(p.maxDt);
    Ctx(e, st, p.mu.v, p.maxDt.v, RealVec(p.chiefR0), RealVec(p.chiefV0), KeplerIters)
  }

  /** The initial relative state, read off x0. */
  function Start(x0: RelState): (s: State6)
    requires FiniteVec(x0.r) && FiniteVec(x0.v)
    ensures x0 == RelState(ZeroD, ZeroD) ==> s == Zero6
  {
    S6(x0.r.x.v, x0.r.y.v, x0.r.z.v, x0.v.x.v, x0.v.y.v, x0.v.z.v)
  }

  // ---------------------------------------------------------------------
  // propagate_two_body_universal
  // ---------------------------------------------------------------------

  /**
   * The chief's inertial position and velocity `dt` after its epoch, or
   * None when mu, dt or the epoch state fail their checks or the solve
   * yields an unusable state.
   */
  function ChiefAt(c: Ctx, dt: real): (pv: Option<(Vec3, Vec3)>)
    requires c.Wf()
    ensures pv.Some? ==> c.mu > 0.0 && FiniteReal(dt) && FiniteV(pv.value.0) && FiniteV(pv.value.1)
  {
    if !(c.mu > 0.0) || !FiniteReal(c.mu) || !FiniteReal(dt) || !FiniteV(c.r0) || !FiniteV(c.v0) then None
    else if !(Norm(c.e, c.r0) > 0.0) || !FiniteReal(Norm(c.e, c.r0)) then None
    else
      var su := MakeSetup(c.e, c.mu, c.r0, c.v0, dt);
      Propagated(c.e, c.st, su, Iterate(c.st, su, InitialGuess(su), c.iters), c.r0, c.v0)
  }

  /** At dt = 0 the chief is at its (usable) epoch state. */
  lemma ChiefAtEpoch(c: Ctx)
    requires c.Wf() && c.mu > 0.0 && FiniteReal(c.mu)
    requires FiniteV(c.r0) && FiniteV(c.v0) && Norm(c.e, c.r0) > 0.0 && FiniteReal(Norm(c.e, c.r0))
    ensures ChiefAt(c, 0.0) == Some((c.r0, c.v0))
  {
    var su := MakeSetup(c.e, c.mu, c.r0, c.v0, 0.0);
    EpochPropagated(c.e, c.st, su, c.iters, c.r0, c.v0);
  }

  /** The guards, exactly `KeplerIters` Newton passes, then f and g with their checks. */
  method PropagateUniversal(c: Ctx, dt: real) returns (ok: bool, r: Vec3, v: Vec3)
    requires c.Wf()
    ensures ok == ChiefAt(c, dt).Some?
    ensures ok ==> FiniteV(r) && FiniteV(v)
    ensures ok ==> (r, v) == ChiefAt(c, dt).value
  {
    if !(c.mu > 0.0) || !FiniteReal(c.mu) || !FiniteReal(dt) || !FiniteV(c.r0) || !FiniteV(c.v0) {
      return false, Zero, Zero;
    }
    var r0n := Norm(c.e, c.r0);
    if !(r0n > 0.0) || !FiniteReal(r0n) {
      return false, Zero, Zero;
    }
    var su := MakeSetup(c.e, c.mu, c.r0, c.v0, dt);
    var x, passes := NewtonSolve(c.st, su, c.iters);
    ok, r, v := FinishOrbit(c.e, c.st, su, x, c.r0, c.v0);
  }

  // ---------------------------------------------------------------------
  // deriv_th_ltv
  // ---------------------------------------------------------------------

  /** The time-varying coefficients: orbit rate, its derivative, and mu / r^3. */
  datatype Ltv = Ltv(omega: real, omegaDot: real, muOverR3: real)

  /**
   * The equations of motion for one set of coefficients: position rates
   * are the velocities; in-plane accelerations couple through the rotation;
   * the cross-track one depends on z alone.
   */
  function Apply(k: Ltv, s: State6): State6
  {
    S6(s.xd, s.yd, s.zd,
       (2.0 * k.muOverR3 + k.omega * k.omega) * s.x + 2.0 * k.omega * s.yd + k.omegaDot * s.y,
       (k.omega * k.omega - k.muOverR3) * s.y - 2.0 * k.omega * s.xd - k.omegaDot * s.x,
       (-k.muOverR3) * s.z)
  }

  /** The coefficients from the chief's state, when |r| and |r x v| are positive and in range. */
  function Coefficients(c: Ctx, rc: Vec3, vc: Vec3): Option<Ltv>
  {
    var r := Norm(c.e, rc);
    if !(r > 0.0) || !FiniteReal(r) then None
    else
      var hmag := Norm(c.e, Cross(rc, vc));
      if !(hmag > 0.0) || !FiniteReal(hmag) then None
      else
        var rdot := Dot(rc, vc) / r;
        var omega := hmag / (r * r);
        var omegaDot := -2.0 * omega * rdot / r;
        var invR3 := 1.0 / (r * r * r);
        Some(Ltv(omega, omegaDot, c.mu * invR3))
  }

  /** Where they exist, the orbit rate is positive and mu / r^3 times r^3 gives back mu. */
  lemma CoefficientsMeaning(c: Ctx, rc: Vec3, vc: Vec3)
    ensures var k := Coefficients(c, rc, vc);
            k.Some? ==> k.value.omega > 0.0 && k.value.muOverR3 * Norm(c.e, rc) * Norm(c.e, rc) * Norm(c.e, rc) == c.mu
  {
    var r := Norm(c.e, rc);
    if Coefficients(c, rc, vc).Some? {
      var hmag := Norm(c.e, Cross(rc, vc));
      assert r * r > 0.0;
      assert r * r * r > 0.0;
      assert (1.0 / (r * r * r)) * (r * r * r) == 1.0;
    }
  }

  /** The coefficient history: at time t after the epoch, the coefficients if the chief is usable then. */
  function CoefficientsAt(c: Ctx, t: real): Option<Ltv>
    requires c.Wf()
  {
    match ChiefAt(c, t)
    case None => None
    case Some((rc, vc)) => Coefficients(c, rc, vc)
  }

  /**
   * `k` is the coefficient history of `c`. The integrator below is stated
   * for any history; this ties it to the chief's.
   */
  ghost predicate History(c: Ctx, k: real -> Option<Ltv>)
  {
    c.Wf() && forall t {:trigger CoefficientsAt(c, t)} :: k(t) == CoefficientsAt(c, t)
  }

  /** The coefficient history of `c` (there is exactly one, by extensionality). */
  ghost function HistoryOf(c: Ctx): (k: real -> Option<Ltv>)
    requires c.Wf()
    ensures History(c, k)
  {
    var byChief := t => CoefficientsAt(c, t);
    assert History(c, byChief);
    var k :| History(c, k); k
  }

  /** ds/dt at time t for the history k, or None where k has no coefficients. */
  function Deriv(k: real -> Option<Ltv>, t: real, s: State6): (d: Option<State6>)
    ensures d.Some? <==> k(t).Some?
    ensures d.Some? ==> d.value.x == s.xd && d.value.y == s.yd && d.value.z == s.zd
  {
    match k(t)
    case None => None
    case Some(l) => Some(Apply(l, s))
  }

  /** The body of `deriv_th_ltv` after the chief is known: the two checks, the coefficients, the rates. */
  method RatesFromChief(c: Ctx, rc: Vec3, vc: Vec3, s: State6) returns (ok: bool, d: State6)
    ensures ok == Coefficients(c, rc, vc).Some?
    ensures ok ==> d == Apply(Coefficients(c, rc, vc).value, s)
  {
    var r := Norm(c.e, rc);
    if !(r > 0.0) || !FiniteReal(r) {
      return false, Zero6;
    }
    var hmag := Norm(c.e, Cross(rc, vc));
    if !(hmag > 0.0) || !FiniteReal(hmag) {
      return false, Zero6;
    }
    var rdot := Dot(rc, vc) / r;
    var omega := hmag / (r * r);
    var omegaDot := -2.0 * omega * rdot / r;
    var invR3 := 1.0 / (r * r * r);
    var muOverR3 := c.mu * invR3;
    assert Coefficients(c, rc, vc).Some?;
    assert Coefficients(c, rc, vc).value.omega == omega;
    assert Coefficients(c, rc, vc).value.omegaDot == omegaDot;
    assert Coefficients(c, rc, vc).value.muOverR3 == muOverR3;
    var omega2 := omega * omega;
    var xdd := (2.0 * muOverR3 + omega2) * s.x + 2.0 * omega * s.yd + omegaDot * s.y;
    var ydd := (omega2 - muOverR3) * s.y - 2.0 * omega * s.xd - omegaDot * s.x;
    var zdd := (-muOverR3) * s.z;
    d := S6(s.xd, s.yd, s.zd, xdd, ydd, zdd);
    ok := true;
  }

  /** `deriv_th_ltv`: the chief at t, then the rates. */
  method DerivThLtv(c: Ctx, ghost k: real -> Option<Ltv>, t: real, s: State6) returns (ok: bool, d: State6)
    requires History(c, k)
    ensures ok == Deriv(k, t, s).Some?
    ensures ok ==> d == Deriv(k, t, s).value
  {
    assert k(t) == CoefficientsAt(c, t);
    var chiefOk, rc, vc := PropagateUniversal(c, t);
    if !chiefOk {
      return false, Zero6;
    }
    ok, d := RatesFromChief(c, rc, vc, s);
  }

  // ---------------------------------------------------------------------
  // Linearity
  // ---------------------------------------------------------------------

  /** A coefficient times a superposed coordinate splits into the two parts. */
  lemma Distrib(w: real, a: real, b: real, lambda: real)
    ensures w * (a + lambda * b) == w * a + lambda * (w * b)
  {
  }

  /** A factor spread over three terms. */
  lemma Spread3(lambda: real, x: real, y: real, z: real)
    ensures lambda * (x + y + z) == lambda * x + lambda * y + lambda * z
    ensures lambda * (x - y - z) == lambda * x - lambda * y - lambda * z
  {
  }

  lemma ApplyAdditiveX(k: Ltv, a: State6, b: State6, lambda: real)
    ensures Apply(k, Add6(a, b, lambda)).xd == Apply(k, a).xd + lambda * Apply(k, b).xd
  {
    var w := 2.0 * k.muOverR3 + k.omega * k.omega;
    var q := 2.0 * k.omega;
    Distrib(w, a.x, b.x, lambda);
    Distrib(q, a.yd, b.yd, lambda);
    Distrib(k.omegaDot, a.y, b.y, lambda);
    Spread3(lambda, w * b.x, q * b.yd, k.omegaDot * b.y);
  }

  lemma ApplyAdditiveY(k: Ltv, a: State6, b: State6, lambda: real)
    ensures Apply(k, Add6(a, b, lambda)).yd == Apply(k, a).yd + lambda * Apply(k, b).yd
  {
    var w := k.omega * k.omega - k.muOverR3;
    var q := 2.0 * k.omega;
    Distrib(w, a.y, b.y, lambda);
    Distrib(q, a.xd, b.xd, lambda);
    Distrib(k.omegaDot, a.x, b.x, lambda);
    Spread3(lambda, w * b.y, q * b.xd, k.omegaDot * b.x);
  }

  /** The equations of motion are linear in the state: superposition holds for each set of coefficients. */
  lemma ApplyLinear(k: Ltv, a: State6, b: State6, lambda: real)
    ensures Apply(k, Add6(a, b, lambda)) == Add6(Apply(k, a), Apply(k, b), lambda)
  {
    ApplyAdditiveX(k, a, b, lambda);
    ApplyAdditiveY(k, a, b, lambda);
    Distrib(-k.muOverR3, a.z, b.z, lambda);
    var l, r := Apply(k, Add6(a, b, lambda)), Add6(Apply(k, a), Apply(k, b), lambda);
    assert l.x == r.x && l.y == r.y && l.z == r.z;
    assert l.xd == r.xd && l.yd == r.yd && l.zd == r.zd;
    assert l == S6(r.x, r.y, r.z, r.xd, r.yd, r.zd);
  }

  /** The rates of a zero state are zero. */
  lemma ApplyZero(k: Ltv)
    ensures Apply(k, Zero6) == Zero6
  {
  }

  /**
   * Whether the rates exist at time t depends on t alone; where they do,
   * the rates of a superposition are the superposition of the rates.
   */
  lemma DerivLinear(k: real -> Option<Ltv>, t: real, a: State6, b: State6, lambda: real)
    ensures Deriv(k, t, a).Some? == Deriv(k, t, b).Some?
    ensures Deriv(k, t, a).Some? ==>
              Deriv(k, t, Add6(a, b, lambda)) == Some(Add6(Deriv(k, t, a).value, Deriv(k, t, b).value, lambda))
  {
    if k(t).Some? {
      ApplyLinear(k(t).value, a, b, lambda);
    }
  }

  // ---------------------------------------------------------------------
  // rk4_step
  // ---------------------------------------------------------------------

  /** The classical RK4 combination s + h/6 (k1 + 2 k2 + 2 k3 + k4). */
  function RkCombine(s: State6, k1: State6, k2: State6, k3: State6, k4: State6, h: real): State6
  {
    S6(s.x + (h / 6.0) * (k1.x + 2.0 * k2.x + 2.0 * k3.x + k4.x),
       s.y + (h / 6.0) * (k1.y + 2.0 * k2.y + 2.0 * k3.y + k4.y),
       s.z + (h / 6.0) * (k1.z + 2.0 * k2.z + 2.0 * k3.z + k4.z),
       s.xd + (h / 6.0) * (k1.xd + 2.0 * k2.xd + 2.0 * k3.xd + k4.xd),
       s.yd + (h / 6.0) * (k1.yd + 2.0 * k2.yd + 2.0 * k3.yd + k4.yd),
       s.zd + (h / 6.0) * (k1.zd + 2.0 * k2.zd + 2.0 * k3.zd + k4.zd))
  }

  /**
   * One RK4 step of size h from time t: four rate evaluations, each of
   * which can fail, then the combination, which must be in range.
   */
  function Rk4(k: real -> Option<Ltv>, t: real, h: real, s: State6): (r: Option<State6>)
    ensures r.Some? ==> Finite6(r.value)
    ensures r.Some? ==> k(t).Some? && k(t + 0.5 * h).Some? && k(t + h).Some?
  {
    match Deriv(k, t, s)
    case None => None
    case Some(k1) =>
      match Deriv(k, t + 0.5 * h, Add6(s, k1, 0.5 * h))
      case None => None
      case Some(k2) =>
        match Deriv(k, t + 0.5 * h, Add6(s, k2, 0.5 * h))
        case None => None
        case Some(k3) =>
          match Deriv(k, t + h, Add6(s, k3, h))
          case None => None
          case Some(k4) =>
            var s' := RkCombine(s, k1, k2, k3, k4, h);
            if Finite6(s') then Some(s') else None
  }

  /** `rk4_step`: the state after the step, and whether it is usable. */
  method Rk4Step(c: Ctx, ghost k: real -> Option<Ltv>, t: real, h: real, s: State6) returns (ok: bool, s': State6)
    requires History(c, k)
    ensures ok == Rk4(k, t, h, s).Some?
    ensures ok ==> s' == Rk4(k, t, h, s).value
  {
    var ok1, k1 := DerivThLtv(c, k, t, s);
    if !ok1 {
      return false, s;
    }
    var ok2, k2 := DerivThLtv(c, k, t + 0.5 * h, Add6(s, k1, 0.5 * h));
    if !ok2 {
      return false, s;
    }
    var ok3, k3 := DerivThLtv(c, k, t + 0.5 * h, Add6(s, k2, 0.5 * h));
    if !ok3 {
      return false, s;
    }
    var ok4, k4 := DerivThLtv(c, k, t + h, Add6(s, k3, h));
    if !ok4 {
      return false, s;
    }
    s' := RkCombine(s, k1, k2, k3, k4, h);
    ok := Finite6(s');
  }

  /** A zero state stays zero through an RK4 step, whenever the step succeeds. */
  lemma Rk4Zero(k: real -> Option<Ltv>, t: real, h: real)
    ensures Rk4(k, t, h, Zero6) == None || Rk4(k, t, h, Zero6) == Some(Zero6)
  {
    if k(t).Some? {
      ApplyZero(k(t).value);
      if k(t + 0.5 * h).Some? {
        ApplyZero(k(t + 0.5 * h).value);
        if k(t + h).Some? {
          ApplyZero(k(t + h).value);
          assert RkCombine(Zero6, Zero6, Zero6, Zero6, Zero6, h) == Zero6;
        }
      }
    }
  }

  // ---------------------------------------------------------------------
  // Substeps between grid points
  // ---------------------------------------------------------------------

  /** `n` RK4 steps of size h from time t, stopping at the first failure. */
  function Substeps(k: real -> Option<Ltv>, t: real, h: real, n: nat, s: State6): Option<State6>
    decreases n
  {
    if n == 0 then Some(s)
    else match Rk4(k, t, h, s)
         case None => None
         case Some(s1) => Substeps(k, t + h, h, n - 1, s1)
  }

  /**
   * One pass of the substep loop with `n` steps still to go: a failed RK4
   * step ends the whole run, a successful one leaves n - 1 steps from where
   * it lands.
   */
  method Substep(c: Ctx, ghost k: real -> Option<Ltv>, t: real, h: real, ghost n: nat, s: State6)
      returns (ok: bool, s1: State6)
    requires History(c, k) && n > 0
    ensures !ok ==> Substeps(k, t, h, n, s) == None
    ensures ok ==> Substeps(k, t, h, n, s) == Substeps(k, t + h, h, n - 1, s1)
  {
    ok, s1 := Rk4Step(c, k, t, h, s);
  }

  /** The substep count ceil(dt / max_h). */
  function SubstepCount(dt: real, maxH: real): (n: nat)
    requires dt > 0.0 && maxH > 0.0
    ensures n >= 1 && (n - 1) as real < dt / maxH <= n as real
  {
    Ceil(dt / maxH)
  }

  /**
   * The substep rule: at least one step, none longer than max_h, and the
   * steps add up to exactly dt.
   */
  lemma Subdivision(dt: real, maxH: real)
    requires dt > 0.0 && maxH > 0.0
    ensures var n := SubstepCount(dt, maxH);
            n >= 1 && dt / n as real <= maxH && n as real * (dt / n as real) == dt
  {
    var n := SubstepCount(dt, maxH);
    var q := dt / maxH;
    assert q * maxH == dt;
    assert q <= n as real;
    assert dt <= n as real * maxH;
    assert (dt / n as real) * n as real == dt;
  }

  /**
   * From tPrev to tTarget: nothing when the interval is empty, otherwise
   * ceil(dt / max_h) equal substeps.
   */
  function Advance(k: real -> Option<Ltv>, maxH: real, tPrev: real, tTarget: real, s: State6): Option<State6>
    requires maxH > 0.0
  {
    var dt := tTarget - tPrev;
    if dt > 0.0 then
      var n := SubstepCount(dt, maxH);
      Substeps(k, tPrev, dt / n as real, n, s)
    else Some(s)
  }

  // ---------------------------------------------------------------------
  // The integrator between grid points
  // ---------------------------------------------------------------------

  /** An integration from a time a to a time b, from a state: the reached state, or None on failure. */
  type Stepper = (real, real, State6) -> Option<State6>

  /** `adv` is the substep integration along the coefficient history k with substeps of at most maxH. */
  ghost predicate Integrates(k: real -> Option<Ltv>, maxH: real, adv: Stepper)
  {
    maxH > 0.0 && forall a, b, s {:trigger Advance(k, maxH, a, b, s)} :: adv(a, b, s) == Advance(k, maxH, a, b, s)
  }

  /** The substep integration along k, as a value. */
  ghost function StepperOf(k: real -> Option<Ltv>, maxH: real): (adv: Stepper)
    requires maxH > 0.0
    ensures Integrates(k, maxH, adv)
  {
    var bySubsteps := (a: real, b: real, s: State6) => Advance(k, maxH, a, b, s);
    assert Integrates(k, maxH, bySubsteps);
    var adv :| Integrates(k, maxH, adv); adv
  }

  /**
   * The integration from one grid point to the next: the substep count and
   * size, then that many RK4 steps, the first failure ending it.
   */
  method AdvanceTo(c: Ctx, ghost k: real -> Option<Ltv>, ghost adv: Stepper, tPrev: real, tTarget: real, s: State6)
      returns (ok: bool, s': State6)
    requires History(c, k) && Integrates(k, c.maxH, adv)
    ensures ok == adv(tPrev, tTarget, s).Some?
    ensures ok ==> s' == adv(tPrev, tTarget, s).value
  {
    assert adv(tPrev, tTarget, s) == Advance(k, c.maxH, tPrev, tTarget, s);
    s' := s;
    var dt := tTarget - tPrev;
    if dt > 0.0 {
      var n := SubstepCount(dt, c.maxH);
      var h := dt / n as real;
      var t := tPrev;
      var m := 0;
      while m < n
        invariant m <= n
        invariant Substeps(k, tPrev, h, n, s) == Substeps(k, t, h, n - m, s')
      {
        var stepOk, s1 := Substep(c, k, t, h, n - m, s');
        if !stepOk {
          return false, s';
        }
        s' := s1;
        t := t + h;
        m := m + 1;
      }
    }
    ok := true;
  }

  /** A repeated grid time performs no step and keeps the state. */
  lemma RepeatedTimeKeepsState(k: real -> Option<Ltv>, maxH: real, t: real, s: State6)
    requires maxH > 0.0
    ensures Advance(k, maxH, t, t, s) == Some(s)
  {
  }

  /** A zero state stays zero across any number of substeps that succeed. */
  lemma {:induction false} SubstepsZero(k: real -> Option<Ltv>, t: real, h: real, n: nat)
    ensures Substeps(k, t, h, n, Zero6) == None || Substeps(k, t, h, n, Zero6) == Some(Zero6)
    decreases n
  {
    if n > 0 {
      Rk4Zero(k, t, h);
      SubstepsZero(k, t + h, h, n - 1);
    }
  }

  /** An integrator that leaves a zero state at zero whenever it succeeds. */
  ghost predicate KeepsZero(adv: Stepper)
  {
    forall a, b :: adv(a, b, Zero6) == None || adv(a, b, Zero6) == Some(Zero6)
  }

  /** An integrator that returns the state unchanged over an empty interval. */
  ghost predicate StandsStill(adv: Stepper)
  {
    forall t, s :: adv(t, t, s) == Some(s)
  }

  /** The substep integration keeps a zero state at zero (the equations are linear). */
  lemma SubstepIntegrationKeepsZero(k: real -> Option<Ltv>, maxH: real, adv: Stepper)
    requires Integrates(k, maxH, adv)
    ensures KeepsZero(adv)
  {
    forall a, b
      ensures adv(a, b, Zero6) == None || adv(a, b, Zero6) == Some(Zero6)
    {
      var dt := b - a;
      if dt > 0.0 {
        var n := SubstepCount(dt, maxH);
        SubstepsZero(k, a, dt / n as real, n);
      }
      assert adv(a, b, Zero6) == Advance(k, maxH, a, b, Zero6);
    }
  }

  /** The substep integration performs no step over an empty interval. */
  lemma SubstepIntegrationStandsStill(k: real -> Option<Ltv>, maxH: real, adv: Stepper)
    requires Integrates(k, maxH, adv)
    ensures StandsStill(adv)
  {
    forall t, s
      ensures adv(t, t, s) == Some(s)
    {
      RepeatedTimeKeepsState(k, maxH, t, s);
    }
  }

  // ---------------------------------------------------------------------
  // The grid walk
  // ---------------------------------------------------------------------

  /**
   * The walk after a number of grid offsets: the states emitted so far, the
   * time and state last reached, and whether the walk is still going.
   */
  datatype Walker = Walker(states: seq<State6>, t: real, s: State6, ok: bool)

  /**
   * One grid offset: it must be non-negative and finite and no earlier than
   * the previous one, and the integration to it must succeed.
   */
  function NextPoint(adv: Stepper, tPrev: real, t: Double, s: State6): (r: Option<State6>)
    ensures r.Some? <==> TauOk(t) && t.v >= tPrev && adv(tPrev, t.v, s).Some?
    ensures r.Some? ==> r == adv(tPrev, t.v, s)
  {
    if TauOk(t) && t.v >= tPrev then adv(tPrev, t.v, s) else None
  }

  /**
   * The walk over the first i grid offsets from time 0 and state s0; the
   * first offset that fails stops it, and it then stays as it was.
   */
  function WalkTo(adv: Stepper, tau: seq<Double>, s0: State6, i: nat): (w: Walker)
    requires i <= |tau|
    ensures w.ok ==> |w.states| == i
    ensures !w.ok ==> |w.states| < i
    ensures w.ok && i > 0 ==> TauOk(tau[i - 1]) && w.t == tau[i - 1].v && w.states[i - 1] == w.s
    ensures forall j :: 0 <= j < |w.states| ==> TauOk(tau[j])
    decreases i
  {
    if i == 0 then Walker([], 0.0, s0, true)
    else
      var w := WalkTo(adv, tau, s0, i - 1);
      if !w.ok then w
      else
        match NextPoint(adv, w.t, tau[i - 1], w.s)
        case None => w.(ok := false)
        case Some(s1) => Walker(w.states + [s1], tau[i - 1].v, s1, true)
  }

  /** A stopped walk stays as it was over any further offsets. */
  lemma {:induction false} StoppedStays(adv: Stepper, tau: seq<Double>, s0: State6, i: nat, n: nat)
    requires i <= n <= |tau| && !WalkTo(adv, tau, s0, i).ok
    ensures WalkTo(adv, tau, s0, n) == WalkTo(adv, tau, s0, i)
    decreases n
  {
    if i < n {
      StoppedStays(adv, tau, s0, i, n - 1);
    }
  }

  /**
   * One more offset from a walk still going: it stops there for good, or
   * emits the state the integration reaches.
   */
  lemma WalkStep(adv: Stepper, tau: seq<Double>, s0: State6, i: nat, done: seq<State6>, tPrev: real, s: State6)
    requires i < |tau| && WalkTo(adv, tau, s0, i) == Walker(done, tPrev, s, true)
    ensures NextPoint(adv, tPrev, tau[i], s).None? ==> WalkTo(adv, tau, s0, |tau|) == Walker(done, tPrev, s, false)
    ensures NextPoint(adv, tPrev, tau[i], s).Some? ==>
              var s1 := NextPoint(adv, tPrev, tau[i], s).value;
              WalkTo(adv, tau, s0, i + 1) == Walker(done + [s1], tau[i].v, s1, true)
  {
    if NextPoint(adv, tPrev, tau[i], s).None? {
      StoppedStays(adv, tau, s0, i + 1, |tau|);
    }
  }

  /** What the walk has emitted it keeps: the states after i offsets begin the states after n >= i. */
  lemma {:induction false} WalkPrefix(adv: Stepper, tau: seq<Double>, s0: State6, i: nat, n: nat)
    requires i <= n <= |tau|
    ensures WalkTo(adv, tau, s0, i).states <= WalkTo(adv, tau, s0, n).states
    decreases n
  {
    if i < n {
      WalkPrefix(adv, tau, s0, i, n - 1);
    }
  }

  /** A zero state stays zero at every grid point the walk reaches. */
  lemma {:induction false} WalkZero(adv: Stepper, tau: seq<Double>, i: nat)
    requires i <= |tau| && KeepsZero(adv)
    ensures forall j :: 0 <= j < |WalkTo(adv, tau, Zero6, i).states| ==> WalkTo(adv, tau, Zero6, i).states[j] == Zero6
    ensures WalkTo(adv, tau, Zero6, i).s == Zero6
    decreases i
  {
    if i > 0 {
      WalkZero(adv, tau, i - 1);
      var w := WalkTo(adv, tau, Zero6, i - 1);
      if w.ok && TauOk(tau[i - 1]) && tau[i - 1].v >= w.t {
        assert adv(w.t, tau[i - 1].v, Zero6) == None || adv(w.t, tau[i - 1].v, Zero6) == Some(Zero6);
      }
    }
  }

  /** An offset that is negative or not finite stops the walk before it: nothing from it on is emitted. */
  lemma BadOffsetStops(adv: Stepper, tau: seq<Double>, s0: State6, j: nat)
    requires j < |tau| && !TauOk(tau[j])
    ensures !WalkTo(adv, tau, s0, |tau|).ok && |WalkTo(adv, tau, s0, |tau|).states| <= j
  {
    assert !WalkTo(adv, tau, s0, j + 1).ok;
    StoppedStays(adv, tau, s0, j + 1, |tau|);
  }

  /** An offset earlier than the one before it stops the walk there: the grid must be nondecreasing. */
  lemma DecreaseStops(adv: Stepper, tau: seq<Double>, s0: State6, j: nat)
    requires 0 < j < |tau| && TauOk(tau[j - 1]) && TauOk(tau[j]) && tau[j].v < tau[j - 1].v
    ensures !WalkTo(adv, tau, s0, |tau|).ok && |WalkTo(adv, tau, s0, |tau|).states| <= j
  {
    assert !WalkTo(adv, tau, s0, j + 1).ok;
    StoppedStays(adv, tau, s0, j + 1, |tau|);
  }

  /** A grid time repeated from one offset to the next re-emits the same state. */
  lemma RepeatedTimeReemits(adv: Stepper, tau: seq<Double>, s0: State6, j: nat)
    requires StandsStill(adv) && 0 < j < |WalkTo(adv, tau, s0, |tau|).states| && tau[j] == tau[j - 1]
    ensures WalkTo(adv, tau, s0, |tau|).states[j] == WalkTo(adv, tau, s0, |tau|).states[j - 1]
  {
    var w := WalkTo(adv, tau, s0, j);
    if !WalkTo(adv, tau, s0, j + 1).ok {
      StoppedStays(adv, tau, s0, j + 1, |tau|);
      assert false;
    }
    assert w.ok;
    assert adv(w.t, w.t, w.s) == Some(w.s);
    WalkPrefix(adv, tau, s0, j + 1, |tau|);
  }

  // ---------------------------------------------------------------------
  // predict_ya_stm
  // ---------------------------------------------------------------------

  /** The walk from x0 over the whole grid, along the chief's coefficient history. */
  ghost function Walk(e: Elementary, st: Stumpff, p: Params, x0: RelState, tau: seq<Double>): Walker
    requires SqrtLaw(e.sqrt) && InputsValid(p, x0)
  {
    var c := CtxOf(e, st, p);
    WalkTo(StepperOf(HistoryOf(c), c.maxH), tau, Start(x0), |tau|)
  }

  /** Whether the call gets as far as the walk: valid inputs, a non-empty grid, room for the positions. */
  predicate Walks(p: Params, x0: RelState, tau: seq<Double>, outR: Span)
  {
    InputsValid(p, x0) && |tau| > 0 && outR.Holds(|tau|)
  }

  /** The states whose positions (and velocities) the call stores, in grid order. */
  ghost function Trajectory(e: Elementary, st: Stumpff, p: Params, x0: RelState, tau: seq<Double>, outR: Span): (t: seq<State6>)
    requires SqrtLaw(e.sqrt)
    ensures |t| <= |tau| && (|t| > 0 ==> outR.Holds(|tau|))
  {
    if Walks(p, x0, tau, outR) then Walk(e, st, p, x0, tau).states else []
  }

  /**
   * What `predict_ya_stm` answers: invalid parameters or state first, then
   * an empty grid (accepted without storage), then missing storage, then
   * the walk, which reports how far it got.
   */
  ghost function Outcome(e: Elementary, st: Stumpff, p: Params, x0: RelState, tau: seq<Double>, outR: Span): (r: Result)
    requires SqrtLaw(e.sqrt)
    ensures r.stepsWritten == |Trajectory(e, st, p, x0, tau, outR)| <= |tau|
    ensures !InputsValid(p, x0) ==> r == Result(MInvalidInput, 0)
    ensures InputsValid(p, x0) && |tau| == 0 ==> r == Result(MOk, 0)
    ensures r.code == MInsufficientOutputCapacity <==> InputsValid(p, x0) && |tau| > 0 && !outR.Holds(|tau|)
    ensures r.code == MOk ==> r.stepsWritten == |tau|
    ensures r.code == MOk <==> InputsValid(p, x0) && (|tau| == 0 || (outR.Holds(|tau|) && Walk(e, st, p, x0, tau).ok))
  {
    if !InputsValid(p, x0) then Result(MInvalidInput, 0)
    else if |tau| == 0 then Result(MOk, 0)
    else if !outR.Holds(|tau|) then Result(MInsufficientOutputCapacity, 0)
    else
      var w := Walk(e, st, p, x0, tau);
      Result(if w.ok then MOk else MInvalidInput, |w.states|)
  }

  /** The stored position and velocity of a state. */
  function PositionCell(s: State6): DVec3 { DoubleVec(V3(s.x, s.y, s.z)) }

  function VelocityCell(s: State6): DVec3 { DoubleVec(V3(s.xd, s.yd, s.zd)) }

  /** The stored positions of a sequence of states, row by row. */
  function Positions(w: seq<State6>): (r: seq<DVec3>)
    ensures |r| == |w| && forall j :: 0 <= j < |w| ==> r[j] == PositionCell(w[j])
  {
    seq(|w|, j requires 0 <= j < |w| => PositionCell(w[j]))
  }

  /** One more state adds one more row of each. */
  lemma CellsSnoc(w: seq<State6>, s: State6)
    ensures Positions(w + [s]) == Positions(w) + [PositionCell(s)]
    ensures Velocities(w + [s]) == Velocities(w) + [VelocityCell(s)]
  {
    assert forall j :: 0 <= j < |w| ==> (w + [s])[j] == w[j];
  }

  /** The stored velocities of a sequence of states, row by row. */
  function Velocities(w: seq<State6>): (r: seq<DVec3>)
    ensures |r| == |w| && forall j :: 0 <= j < |w| ==> r[j] == VelocityCell(w[j])
  {
    seq(|w|, j requires 0 <= j < |w| => VelocityCell(w[j]))
  }

  /**
   * `predict_ya_stm`: the checks, then for each grid offset the substeps
   * of RK4 and the store of the reached state. Rows past the ones written
   * keep their contents; velocities are stored only when their span can
   * hold the whole grid.
   */
  method PredictYa(e: Elementary, st: Stumpff, x0: RelState, p: Params, tau: seq<Double>, outR: Span, outV: Span)
      returns (res: Result)
    requires SqrtLaw(e.sqrt)
    requires outR.InBounds() && outV.InBounds()
    requires outR.data != null && outV.data != null ==> outR.data != outV.data
    modifies outR.data, outV.data
    ensures res == Outcome(e, st, p, x0, tau, outR)
    ensures outR.data != null ==> outR.data[..] == Overwritten(old(outR.data[..]), Positions(Trajectory(e, st, p, x0, tau, outR)))
    ensures outV.Holds(|tau|) ==>
              outV.data[..] == Overwritten(old(outV.data[..]), Velocities(Trajectory(e, st, p, x0, tau, outR)))
    ensures outV.data != null && !outV.Holds(|tau|) ==> outV.data[..] == old(outV.data[..])
  {
    if !(Gt(p.mu, Fin(0.0))) || !p.mu.IsFinite() {
      return Result(MInvalidInput, 0);
    }
    if !(Gt(p.maxDt, Fin(0.0))) || !p.maxDt.IsFinite() {
      return Result(MInvalidInput, 0);
    }
    if !FiniteVec(p.chiefR0) || !FiniteVec(p.chiefV0) {
      return Result(MInvalidInput, 0);
    }
    if !FiniteVec(x0.r) || !FiniteVec(x0.v) {
      return Result(MInvalidInput, 0);
    }
    var steps := |tau|;
    if steps == 0 {
      return Result(MOk, 0);
    }
    if outR.data == null || outR.size < steps {
      return Result(MInsufficientOutputCapacity, 0);
    }
    var wantVel := outV.data != null && outV.size >= steps;

    var c := CtxOf(e, st, p);
    ghost var k := HistoryOf(c);
    res := WalkGrid(c, k, StepperOf(k, c.maxH), Start(x0), tau, outR, outV, wantVel);
  }

  /**
   * One grid point of `predict_ya_stm`: the offset must be non-negative and
   * finite and no earlier than the previous one, and the integration to it
   * must succeed.
   */
  method GridPoint(c: Ctx, ghost k: real -> Option<Ltv>, ghost adv: Stepper, tPrev: real, tTarget: Double, s: State6)
      returns (ok: bool, s': State6)
    requires History(c, k) && Integrates(k, c.maxH, adv)
    ensures ok == NextPoint(adv, tPrev, tTarget, s).Some?
    ensures ok ==> s' == NextPoint(adv, tPrev, tTarget, s).value
  {
    if !(Ge(tTarget, Fin(0.0))) || !tTarget.IsFinite() {
      return false, s;
    }
    if tTarget.v < tPrev {
      return false, s;
    }
    ok, s' := AdvanceTo(c, k, adv, tPrev, tTarget.v, s);
  }

  /**
   * The storage after the rows of `done` are written: the leading rows of
   * positions, and of velocities when they are wanted, hold the states
   * reached; every other row, and the velocity storage when velocities are
   * not wanted, keeps its contents `baseR` and `baseV`.
   */
  ghost predicate Stored(outR: Span, outV: Span, wantVel: bool, baseR: seq<DVec3>, baseV: seq<DVec3>, done: seq<State6>)
    reads outR.data, outV.data
  {
    && outR.data != null && |done| <= |baseR| == outR.data.Length
    && outR.data[..] == Overwritten(baseR, Positions(done))
    && (wantVel ==> outV.data != null && |done| <= |baseV| == outV.data.Length
                    && outV.data[..] == Overwritten(baseV, Velocities(done)))
    && (outV.data != null && !wantVel ==> outV.data[..] == baseV)
  }

  /**
   * The stores after a grid point is reached: the next row of positions,
   * and of velocities when they are wanted, continue the rows already
   * written.
   */
  method StoreState(outR: Span, outV: Span, wantVel: bool, ghost baseR: seq<DVec3>, ghost baseV: seq<DVec3>,
                    ghost done: seq<State6>, i: nat, s: State6)
    requires i == |done| && Stored(outR, outV, wantVel, baseR, baseV, done)
    requires i < |baseR| && (wantVel ==> i < |baseV|)
    requires outV.data != null ==> outR.data != outV.data
    modifies outR.data, outV.data
    ensures Stored(outR, outV, wantVel, baseR, baseV, done + [s])
  {
    StoreRow(outR, outV, wantVel, i, PositionCell(s), VelocityCell(s));
    OverwriteNext(baseR, Positions(done), PositionCell(s));
    if wantVel {
      OverwriteNext(baseV, Velocities(done), VelocityCell(s));
    }
    CellsSnoc(done, s);
  }

  /** The state of the grid loop after i offsets: the walk so far has not stopped, and its rows are stored. */
  ghost predicate Walked(adv: Stepper, tau: seq<Double>, s0: State6, i: nat, done: seq<State6>, tPrev: real, s: State6,
                         outR: Span, outV: Span, wantVel: bool, baseR: seq<DVec3>, baseV: seq<DVec3>)
    reads outR.data, outV.data
  {
    && i <= |tau| && |done| == i
    && WalkTo(adv, tau, s0, i) == Walker(done, tPrev, s, true)
    && Stored(outR, outV, wantVel, baseR, baseV, done)
  }

  /**
   * One pass of the grid loop: the point after i offsets is reached from
   * the walk so far, and its rows are stored; when it cannot be reached the
   * walk ends where it stands and nothing is stored.
   */
  method VisitPoint(c: Ctx, ghost k: real -> Option<Ltv>, ghost adv: Stepper, ghost s0: State6, tau: seq<Double>, i: nat,
                    ghost done: seq<State6>, tPrev: real, s: State6,
                    outR: Span, outV: Span, wantVel: bool, ghost baseR: seq<DVec3>, ghost baseV: seq<DVec3>)
      returns (ok: bool, t': real, s': State6)
    requires History(c, k) && Integrates(k, c.maxH, adv)
    requires i < |tau| && Walked(adv, tau, s0, i, done, tPrev, s, outR, outV, wantVel, baseR, baseV)
    requires i < |baseR| && (wantVel ==> i < |baseV|)
    requires outV.data != null ==> outR.data != outV.data
    modifies outR.data, outV.data
    ensures !ok ==> WalkTo(adv, tau, s0, |tau|) == Walker(done, tPrev, s, false)
    ensures !ok ==> Stored(outR, outV, wantVel, baseR, baseV, done)
    ensures ok ==> Walked(adv, tau, s0, i + 1, done + [s'], t', s', outR, outV, wantVel, baseR, baseV)
  {
    WalkStep(adv, tau, s0, i, done, tPrev, s);
    ok, s' := GridPoint(c, k, adv, tPrev, tau[i], s);
    t' := tPrev;
    if ok {
      t' := tau[i].v;
      StoreState(outR, outV, wantVel, baseR, baseV, done, i, s');
    }
  }

  /**
   * The grid loop of `predict_ya_stm`: for each offset, its checks, the
   * integration to it and the store; `steps_written` counts the points
   * completed.
   */
  method WalkGrid(c: Ctx, ghost k: real -> Option<Ltv>, ghost adv: Stepper, s0: State6, tau: seq<Double>,
                  outR: Span, outV: Span, wantVel: bool)
      returns (res: Result)
    requires History(c, k) && Integrates(k, c.maxH, adv) && |tau| > 0 && outR.Holds(|tau|) && outR.InBounds() && outV.InBounds()
    requires wantVel == outV.Holds(|tau|)
    requires outV.data != null ==> outR.data != outV.data
    modifies outR.data, outV.data
    ensures var w := WalkTo(adv, tau, s0, |tau|);
            res == Result(if w.ok then MOk else MInvalidInput, |w.states|)
    ensures outR.data[..] == Overwritten(old(outR.data[..]), Positions(WalkTo(adv, tau, s0, |tau|).states))
    ensures wantVel ==> outV.data[..] == Overwritten(old(outV.data[..]), Velocities(WalkTo(adv, tau, s0, |tau|).states))
    ensures outV.data != null && !wantVel ==> outV.data[..] == old(outV.data[..])
  {
    var steps := |tau|;
    var s := s0;
    var tPrev := 0.0;
    ghost var done: seq<State6> := [];
    ghost var baseR := outR.data[..];
    ghost var baseV := if outV.data != null then outV.data[..] else [];
    var i := 0;
    while i < steps
      invariant Walked(adv, tau, s0, i, done, tPrev, s, outR, outV, wantVel, baseR, baseV)
    {
      var ok, t', s' := VisitPoint(c, k, adv, s0, tau, i, done, tPrev, s, outR, outV, wantVel, baseR, baseV);
      if !ok {
        return Result(MInvalidInput, i);
      }
      s := s';
      done := done + [s];
      tPrev := t';
      i := i + 1;
    }
    return Result(MOk, steps);
  }

  /** A zero initial relative state is stored as zero position and zero velocity at every grid point written. */
  lemma ZeroStateStaysZero(e: Elementary, st: Stumpff, p: Params, tau: seq<Double>, outR: Span)
    requires SqrtLaw(e.sqrt)
    ensures forall j :: 0 <= j < |Trajectory(e, st, p, RelState(ZeroD, ZeroD), tau, outR)| ==>
              PositionCell(Trajectory(e, st, p, RelState(ZeroD, ZeroD), tau, outR)[j]) == ZeroD
              && VelocityCell(Trajectory(e, st, p, RelState(ZeroD, ZeroD), tau, outR)[j]) == ZeroD
  {
    var x0 := RelState(ZeroD, ZeroD);
    if Walks(p, x0, tau, outR) {
      var c := CtxOf(e, st, p);
      var adv := StepperOf(HistoryOf(c), c.maxH);
      SubstepIntegrationKeepsZero(HistoryOf(c), c.maxH, adv);
      WalkZero(adv, tau, |tau|);
    }
  }
}
