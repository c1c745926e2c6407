// The two-body chief-state provider (core/provider_twobody.cpp): propagates
// a fixed epoch state to the requested time on a Keplerian orbit with the
// universal-variable solve of module Kepler. Arithmetic is carried out on
// exact reals once the inputs have passed their finiteness checks; the
// checks the source makes on computed values are checks that the real
// result is within double range.
module TwoBody {
  import opened Num
  import opened Types
  import opened Wrappers
  import opened Kepler

  /** TwoBodyChiefProvider::kKeplerIters */
  const KeplerIters: nat := 12

  /** The configuration and request checks, in the source's order, that answer kInvalidInput. */
  predicate Admissible(e: Elementary, id: Option<FrameRef>, mu: Double, tEpoch: Double, r0: DVec3, v0: DVec3, t0: Double)
  {
    id.Some?
    && PositiveFinite(mu)
    && t0.IsFinite() && tEpoch.IsFinite() && FiniteVec(r0) && FiniteVec(v0)
    && Norm(e, RealVec(r0)) > 0.0 && FiniteReal(Norm(e, RealVec(r0)))
  }

  /** The state handed back on every failure: value-initialised but for the frame and the code. */
  function Failure(id: Option<FrameRef>, code: ProviderCode): ChiefState
  {
    DefaultChief.(frameId := id, status := ProviderStatus(code))
  }

  /**
   * What `get(t0)` answers. On success the state is tagged with exactly t0;
   * a non-positive or out-of-range |r| after the solve, or an out-of-range
   * r or v, is an internal error.
   */
  function Propagate(e: Elementary, st: Stumpff, id: Option<FrameRef>, mu: Double, tEpoch: Double,
                     r0: DVec3, v0: DVec3, t0: Double): (out: ChiefState)
    requires SqrtLaw(e.sqrt)
    ensures out.frameId == id
    ensures out.status.code in {KOk, KInvalidInput, KInternalError}
    ensures out.status.code == KInvalidInput <==> !Admissible(e, id, mu, tEpoch, r0, v0, t0)
    ensures !out.status.Ok() ==> out == Failure(id, out.status.code)
    ensures out.status.Ok() ==> out.timeTag == t0 && FiniteVec(out.r) && FiniteVec(out.v)
  {
    if !Admissible(e, id, mu, tEpoch, r0, v0, t0) then Failure(id, KInvalidInput)
    else
      PositiveFiniteMeans(mu);
      var su := MakeSetup(e, mu.v, RealVec(r0), RealVec(v0), t0.v - tEpoch.v);
      Finish(e, st, su, Iterate(st, su, InitialGuess(su), KeplerIters), RealVec(r0), RealVec(v0), id, t0)
  }

  /** The part of `get` after the Newton solve: a usable state tagged t0, or an internal error. */
  function Finish(e: Elementary, st: Stumpff, su: Setup, x: real, r0: Vec3, v0: Vec3,
                  id: Option<FrameRef>, t0: Double): (out: ChiefState)
    requires su.Wf()
    ensures out.frameId == id && out.status.code in {KOk, KInternalError}
    ensures !out.status.Ok() ==> out == Failure(id, KInternalError)
    ensures out.status.Ok() ==> out.timeTag == t0 && FiniteVec(out.r) && FiniteVec(out.v)
  {
    match Propagated(e, st, su, x, r0, v0)
    case None => Failure(id, KInternalError)
    case Some((r, v)) => ChiefState(t0, DoubleVec(r), DoubleVec(v), id, ProviderStatus(KOk))
  }

  /**
   * Asked for the epoch itself, the provider returns the epoch state
   * unchanged (whatever the Stumpff functions are): no time elapsed, so the
   * Newton solve stays at x = 0, where f = gdot = 1 and g = fdot = 0.
   */
  lemma EpochAnswered(e: Elementary, st: Stumpff, id: Option<FrameRef>, mu: Double, tEpoch: Double,
                     r0: DVec3, v0: DVec3, t0: Double)
    requires SqrtLaw(e.sqrt)
    requires Admissible(e, id, mu, tEpoch, r0, v0, t0) && Eq(t0, tEpoch)
    requires FiniteV(RealVec(r0)) && FiniteV(RealVec(v0))
    ensures var out := Propagate(e, st, id, mu, tEpoch, r0, v0, t0);
            out.status.Ok() && out.timeTag == t0 && out.r == r0 && out.v == v0
  {
    PositiveFiniteMeans(mu);
    var su := MakeSetup(e, mu.v, RealVec(r0), RealVec(v0), t0.v - tEpoch.v);
    assert su.dt == 0.0;
    EpochPropagated(e, st, su, KeplerIters, RealVec(r0), RealVec(v0));
  }

  /** On admissible input the answer is the tail of the computation after the solve. */
  lemma PropagateAdmitted(e: Elementary, st: Stumpff, id: Option<FrameRef>, mu: Double, tEpoch: Double,
                          r0: DVec3, v0: DVec3, t0: Double, su: Setup, x: real)
    requires SqrtLaw(e.sqrt) && Admissible(e, id, mu, tEpoch, r0, v0, t0) && mu.Fin?
    requires mu.v > 0.0 && su == MakeSetup(e, mu.v, RealVec(r0), RealVec(v0), t0.v - tEpoch.v)
    requires x == Iterate(st, su, InitialGuess(su), KeplerIters)
    ensures Propagate(e, st, id, mu, tEpoch, r0, v0, t0) == Finish(e, st, su, x, RealVec(r0), RealVec(v0), id, t0)
  {
  }

  class TwoBodyChiefProvider {
    const inertialFrameId: Option<FrameRef>
    const mu: Double
    const tEpoch: Double
    const r0: DVec3
    const v0: DVec3
    var invalidLogged: bool

    /** The configuration is stored as given; validation is deferred to `get`. */
    constructor (inertialFrameId: Option<FrameRef>, mu: Double, tEpoch: Double, r0: DVec3, v0: DVec3)
      ensures this.inertialFrameId == inertialFrameId && this.mu == mu && this.tEpoch == tEpoch
      ensures this.r0 == r0 && this.v0 == v0 && !invalidLogged
    {
      this.inertialFrameId := inertialFrameId;
      this.mu := mu;
      this.tEpoch := tEpoch;
      this.r0 := r0;
      this.v0 := v0;
      invalidLogged := false;
    }

    /** `log_invalid_config_once_`: the latch flips to true and stays there. */
    method LogInvalidConfigOnce()
      modifies this
      ensures invalidLogged
    {
      if invalidLogged {
        return;
      }
      invalidLogged := true;
    }

    /**
     * The four checks at the head of `get`, in order: a frame identity, a
     * finite positive mu, finite times and epoch state, and a finite
     * non-zero epoch radius. Any failing one answers kInvalidInput.
     */
    method CheckConfig(e: Elementary, t0: Double) returns (ok: bool)
      ensures ok == Admissible(e, inertialFrameId, mu, tEpoch, r0, v0, t0)
    {
      if inertialFrameId.None? {
        return false;
      }
      if !(Gt(mu, Fin(0.0))) || !mu.IsFinite() {
        return false;
      }
      if !t0.IsFinite() || !tEpoch.IsFinite() || !FiniteVec(r0) || !FiniteVec(v0) {
        return false;
      }
      var r0n := Norm(e, RealVec(r0));
      if !(r0n > 0.0) || !FiniteReal(r0n) {
        return false;
      }
      return true;
    }

    /**
     * `get(t0)`: the guards, the fixed-count Newton solve, f and g, and the
     * final checks. The latch is set exactly when a check at the head fails,
     * which is exactly when the answer is kInvalidInput.
     */
    method Get(e: Elementary, st: Stumpff, t0: Double) returns (out: ChiefState)
      requires SqrtLaw(e.sqrt)
      modifies this
      ensures out == Propagate(e, st, inertialFrameId, mu, tEpoch, r0, v0, t0)
      ensures invalidLogged == (old(invalidLogged) || !Admissible(e, inertialFrameId, mu, tEpoch, r0, v0, t0))
    {
      var admissible := CheckConfig(e, t0);
      if !admissible {
        out := Failure(inertialFrameId, KInvalidInput);
        LogInvalidConfigOnce();
        return;
      }
      var r0r := RealVec(r0);
      var v0r := RealVec(v0);
      PositiveFiniteMeans(mu);
      var su := MakeSetup(e, mu.v, r0r, v0r, t0.v - tEpoch.v);
      var x, passes := NewtonSolve(st, su, KeplerIters);
      var ok, r, v := FinishOrbit(e, st, su, x, r0r, v0r);
      if !ok {
        out := Failure(inertialFrameId, KInternalError);
      } else {
        out := ChiefState(t0, DoubleVec(r), DoubleVec(v), inertialFrameId, ProviderStatus(KOk));
      }
      PropagateAdmitted(e, st, inertialFrameId, mu, tEpoch, r0, v0, t0, su, x);
    }
  }

  /** A provider whose mu is not positive reports invalid input, and logs it, on every call. */
  method NonPositiveMuRejected(e: Elementary, st: Stumpff, id: FrameRef, r0: DVec3, v0: DVec3, t0: Double)
      returns (first: ProviderCode, second: ProviderCode)
    requires SqrtLaw(e.sqrt)
    ensures first == KInvalidInput && second == KInvalidInput
  {
    var p := new TwoBodyChiefProvider(Some(id), Fin(0.0), Fin(0.0), r0, v0);
    var a := p.Get(e, st, t0);
    var b := p.Get(e, st, t0);
    first := a.status.code;
    second := b.status.code;
  }
}
