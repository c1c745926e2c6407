// Validation of an adopted Bullseye RIC frame against the chief state
// (core/bullseye_frame_validator.cpp): a fixed, short-circuiting chain of
// checks, each failure mapped to one reason code.
module Validator {
  import opened Num
  import opened Types
  import opened Wrappers

  datatype Tolerances = Tolerances(centerAbs: real, centerRel: real, orthoMaxAbs: real, detOneAbs: real)

  /** The header's default tolerances. */
  const DefaultTolerances: Tolerances := Tolerances(1.0e-6, 1.0e-12, 1.0e-12, 1.0e-12)

  datatype Reason =
    | ROk | ChiefNotOk | FrameNotOk | TimeMismatch | BadDeclaration
    | CenteringMismatch | NotOrthonormal | NotRightHanded | OmegaBadDeclaration | NonFinite

  datatype ValidationResult = ValidationResult(status: ProviderStatus, reason: Reason)

  function Fail(code: ProviderCode, reason: Reason): ValidationResult
  {
    ValidationResult(ProviderStatus(code), reason)
  }

  // ---------------------------------------------------------------------
  // The pieces of the chain
  // ---------------------------------------------------------------------

  /** Everything the up-front finiteness check looks at (omega excluded). */
  predicate FiniteInputs(t0: Double, chief: ChiefState, frame: AdoptedRicFrame)
  {
    t0.IsFinite() && chief.timeTag.IsFinite() && frame.timeTag.IsFinite()
    && FiniteVec(chief.r) && FiniteVec(chief.v) && FiniteVec(frame.origin) && FiniteMat(frame.C)
  }

  /** `center_bound`: abs + rel * |r|. */
  function CenterBound(e: Elementary, chiefR: Vec3, abs: real, rel: real): real
  {
    abs + rel * Norm(e, chiefR)
  }

  /** |C C^T - I| at entry (r, c). */
  function Deviation(M: Mat3, r: nat, c: nat): real
    requires r < 3 && c < 3
  {
    Abs(M.At(r, c) - Identity.At(r, c))
  }

  function Max(a: real, b: real): real { if b > a then b else a }

  /** The largest entry of |M - I|. */
  function MaxDeviation(M: Mat3): real
  {
    Max(Max(Max(Deviation(M, 0, 0), Deviation(M, 0, 1)), Max(Deviation(M, 0, 2), Deviation(M, 1, 0))),
        Max(Max(Deviation(M, 1, 1), Deviation(M, 1, 2)), Max(Max(Deviation(M, 2, 0), Deviation(M, 2, 1)), Deviation(M, 2, 2))))
  }

  /** MaxDeviation bounds every entry and is attained by one. */
  lemma MaxDeviationIsMax(M: Mat3)
    ensures forall r, c :: 0 <= r < 3 && 0 <= c < 3 ==> Deviation(M, r, c) <= MaxDeviation(M)
    ensures exists r, c :: 0 <= r < 3 && 0 <= c < 3 && Deviation(M, r, c) == MaxDeviation(M)
  {
    var m := MaxDeviation(M);
    if m == Deviation(M, 0, 0) { assert Deviation(M, 0, 0) == m; }
    else if m == Deviation(M, 0, 1) { assert Deviation(M, 0, 1) == m; }
    else if m == Deviation(M, 0, 2) { assert Deviation(M, 0, 2) == m; }
    else if m == Deviation(M, 1, 0) { assert Deviation(M, 1, 0) == m; }
    else if m == Deviation(M, 1, 1) { assert Deviation(M, 1, 1) == m; }
    else if m == Deviation(M, 1, 2) { assert Deviation(M, 1, 2) == m; }
    else if m == Deviation(M, 2, 0) { assert Deviation(M, 2, 0) == m; }
    else if m == Deviation(M, 2, 1) { assert Deviation(M, 2, 1) == m; }
    else { assert Deviation(M, 2, 2) == m; }
  }

  /** `max_abs_CCt_minus_I` as a value. */
  function Orthonormality(C: Mat3): real
  {
    MaxDeviation(MulM(C, Transpose(C)))
  }

  /** The orthonormality check passes iff every entry of C C^T - I is within the tolerance. */
  lemma OrthonormalityCheckMeans(C: Mat3, tol: real)
    ensures Orthonormality(C) <= tol <==>
      forall r, c :: 0 <= r < 3 && 0 <= c < 3 ==> Deviation(MulM(C, Transpose(C)), r, c) <= tol
  {
    MaxDeviationIsMax(MulM(C, Transpose(C)));
  }

  /** The centering check: |origin - r| <= abs + rel * |r|. */
  predicate Centered(e: Elementary, chief: ChiefState, frame: AdoptedRicFrame, tol: Tolerances)
    requires FiniteVec(chief.r) && FiniteVec(frame.origin)
  {
    Norm(e, Sub(RealVec(frame.origin), RealVec(chief.r))) <= CenterBound(e, RealVec(chief.r), tol.centerAbs, tol.centerRel)
  }

  /** The orthonormality check. */
  predicate Orthonormal(C: Mat3, tol: Tolerances)
  {
    Orthonormality(C) <= tol.orthoMaxAbs
  }

  /** The handedness check: det C finite and within the tolerance of +1. */
  predicate RightHanded(C: Mat3, tol: Tolerances)
  {
    Representable(Det(C)) && Abs(Det(C) - 1.0) <= tol.detOneAbs
  }

  // ---------------------------------------------------------------------
  // The chain
  // ---------------------------------------------------------------------

  /** `validate_adopted_bullseye_ric_frame` as a value. */
  function Validation(e: Elementary, t0: Double, chief: ChiefState, frame: AdoptedRicFrame, tol: Tolerances): ValidationResult
  {
    if !chief.status.Ok() then Fail(KInvalidInput, ChiefNotOk)
    else if !frame.status.Ok() then Fail(KInvalidInput, FrameNotOk)
    else if !FiniteInputs(t0, chief, frame) then Fail(KInvalidInput, NonFinite)
    else if frame.hasOmega && !FiniteVec(frame.omegaRic) then Fail(KInvalidInput, NonFinite)
    else if !Eq(frame.timeTag, t0) then Fail(KTimeMissing, TimeMismatch)
    else if frame.frameKind != BullseyeRIC || frame.axisOrder != RIC then Fail(KInvalidInput, BadDeclaration)
    else if !Centered(e, chief, frame, tol) then Fail(KInvalidInput, CenteringMismatch)
    else if !Orthonormal(RealMat(frame.C), tol) then Fail(KInvalidInput, NotOrthonormal)
    else if !RightHanded(RealMat(frame.C), tol) then Fail(KInvalidInput, NotRightHanded)
    else if frame.hasOmega && frame.omegaCoords != OmegaRIC then Fail(KInvalidInput, OmegaBadDeclaration)
    else ValidationResult(ProviderStatus(KOk), ROk)
  }

  /** Every check of the chain passes. */
  predicate AllChecksPass(e: Elementary, t0: Double, chief: ChiefState, frame: AdoptedRicFrame, tol: Tolerances)
  {
    chief.status.Ok() && frame.status.Ok() && FiniteInputs(t0, chief, frame)
    && (frame.hasOmega ==> FiniteVec(frame.omegaRic))
    && frame.timeTag.v == t0.v
    && frame.frameKind == BullseyeRIC && frame.axisOrder == RIC
    && Centered(e, chief, frame, tol)
    && (forall r, c :: 0 <= r < 3 && 0 <= c < 3 ==> Deviation(MulM(RealMat(frame.C), Transpose(RealMat(frame.C))), r, c) <= tol.orthoMaxAbs)
    && RightHanded(RealMat(frame.C), tol)
    && (frame.hasOmega ==> frame.omegaCoords == OmegaRIC)
  }

  /**
   * The result is (kOk, kOk) exactly when every check passes; otherwise the
   * status is not OK and the reason is not kOk. Only a time mismatch reports
   * kTimeMissing; every other failure reports kInvalidInput.
   */
  lemma ValidationOkIff(e: Elementary, t0: Double, chief: ChiefState, frame: AdoptedRicFrame, tol: Tolerances)
    ensures Validation(e, t0, chief, frame, tol).status.Ok() <==> AllChecksPass(e, t0, chief, frame, tol)
    ensures Validation(e, t0, chief, frame, tol).status.Ok() <==> Validation(e, t0, chief, frame, tol).reason == ROk
    ensures Validation(e, t0, chief, frame, tol).status.code == KTimeMissing <==> Validation(e, t0, chief, frame, tol).reason == TimeMismatch
    ensures Validation(e, t0, chief, frame, tol).status.code in {KOk, KTimeMissing, KInvalidInput}
  {
    if chief.status.Ok() && frame.status.Ok() && FiniteInputs(t0, chief, frame) {
      OrthonormalityCheckMeans(RealMat(frame.C), tol.orthoMaxAbs);
    }
  }

  /** A chief that is not OK gives (kInvalidInput, kChiefNotOk) whatever the frame holds. */
  lemma ChiefCheckedFirst(e: Elementary, t0: Double, chief: ChiefState, frame: AdoptedRicFrame, frame': AdoptedRicFrame, tol: Tolerances)
    requires !chief.status.Ok()
    ensures Validation(e, t0, chief, frame, tol) == Validation(e, t0, chief, frame', tol) == Fail(KInvalidInput, ChiefNotOk)
  {
  }

  /** With an OK chief, a frame that is not OK gives kFrameNotOk. */
  lemma FrameStatusCheckedSecond(e: Elementary, t0: Double, chief: ChiefState, frame: AdoptedRicFrame, tol: Tolerances)
    requires chief.status.Ok() && !frame.status.Ok()
    ensures Validation(e, t0, chief, frame, tol) == Fail(KInvalidInput, FrameNotOk)
  {
  }

  /**
   * Past the status checks, any non-finite input gives kNonFinite; omega is
   * looked at only when the frame declares one.
   */
  lemma NonFiniteRejected(e: Elementary, t0: Double, chief: ChiefState, frame: AdoptedRicFrame, tol: Tolerances)
    requires chief.status.Ok() && frame.status.Ok()
    ensures Validation(e, t0, chief, frame, tol).reason == NonFinite <==>
      !FiniteInputs(t0, chief, frame) || (frame.hasOmega && !FiniteVec(frame.omegaRic))
  {
  }

  /** An unused, non-finite omega does not matter. */
  lemma OmegaIgnoredWithoutDeclaration(e: Elementary, t0: Double, chief: ChiefState, frame: AdoptedRicFrame, tol: Tolerances, w: DVec3)
    requires !frame.hasOmega
    ensures Validation(e, t0, chief, frame.(omegaRic := w), tol) == Validation(e, t0, chief, frame, tol)
  {
  }

  /** A time tag that differs from t0 (exact comparison) gives (kTimeMissing, kTimeMismatch). */
  lemma TimeMismatchRejected(e: Elementary, t0: Double, chief: ChiefState, frame: AdoptedRicFrame, tol: Tolerances)
    requires chief.status.Ok() && frame.status.Ok() && FiniteInputs(t0, chief, frame)
    requires !frame.hasOmega || FiniteVec(frame.omegaRic)
    requires frame.timeTag.v != t0.v
    ensures Validation(e, t0, chief, frame, tol) == Fail(KTimeMissing, TimeMismatch)
  {
  }

  /** A wrong declaration is reported before the geometry is looked at: the origin and DCM do not matter. */
  lemma DeclarationBeforeGeometry(e: Elementary, t0: Double, chief: ChiefState, frame: AdoptedRicFrame, tol: Tolerances,
                                  origin: DVec3, C: DMat3)
    requires chief.status.Ok() && frame.status.Ok() && FiniteInputs(t0, chief, frame)
    requires FiniteVec(origin) && FiniteMat(C)
    requires !frame.hasOmega || FiniteVec(frame.omegaRic)
    requires frame.timeTag.v == t0.v
    requires frame.frameKind != BullseyeRIC || frame.axisOrder != RIC
    ensures Validation(e, t0, chief, frame, tol) == Fail(KInvalidInput, BadDeclaration)
    ensures Validation(e, t0, chief, frame.(origin := origin, C := C), tol) == Fail(KInvalidInput, BadDeclaration)
  {
  }

  /** Once reached, centering fails iff |origin - r| > abs + rel * |r|. */
  lemma CenteringFailsIff(e: Elementary, t0: Double, chief: ChiefState, frame: AdoptedRicFrame, tol: Tolerances)
    requires chief.status.Ok() && frame.status.Ok() && FiniteInputs(t0, chief, frame)
    requires !frame.hasOmega || FiniteVec(frame.omegaRic)
    requires frame.timeTag.v == t0.v
    requires frame.frameKind == BullseyeRIC && frame.axisOrder == RIC
    ensures Validation(e, t0, chief, frame, tol).reason == CenteringMismatch <==> !Centered(e, chief, frame, tol)
  {
  }

  /** Past centering, orthonormality fails iff some entry of C C^T - I exceeds the tolerance. */
  lemma OrthonormalityFailsIff(e: Elementary, t0: Double, chief: ChiefState, frame: AdoptedRicFrame, tol: Tolerances)
    requires chief.status.Ok() && frame.status.Ok() && FiniteInputs(t0, chief, frame)
    requires !frame.hasOmega || FiniteVec(frame.omegaRic)
    requires frame.timeTag.v == t0.v
    requires frame.frameKind == BullseyeRIC && frame.axisOrder == RIC
    requires Centered(e, chief, frame, tol)
    ensures Validation(e, t0, chief, frame, tol).reason == NotOrthonormal <==>
      exists r, c :: 0 <= r < 3 && 0 <= c < 3 && Deviation(MulM(RealMat(frame.C), Transpose(RealMat(frame.C))), r, c) > tol.orthoMaxAbs
  {
    OrthonormalityCheckMeans(RealMat(frame.C), tol.orthoMaxAbs);
  }

  /** Handedness is tested only on a frame that passed orthonormality. */
  lemma HandednessAfterOrthonormality(e: Elementary, t0: Double, chief: ChiefState, frame: AdoptedRicFrame, tol: Tolerances)
    ensures Validation(e, t0, chief, frame, tol).reason == NotRightHanded ==>
      FiniteMat(frame.C) && Orthonormal(RealMat(frame.C), tol) && !RightHanded(RealMat(frame.C), tol)
  {
  }

  /** The omega declaration is checked last, and only when omega is present. */
  lemma OmegaDeclarationLast(e: Elementary, t0: Double, chief: ChiefState, frame: AdoptedRicFrame, tol: Tolerances)
    ensures Validation(e, t0, chief, frame, tol).reason == OmegaBadDeclaration ==>
      frame.hasOmega && frame.omegaCoords != OmegaRIC
      && Validation(e, t0, chief, frame.(omegaCoords := OmegaRIC), tol).reason == ROk
  {
  }

  // ---------------------------------------------------------------------
  // The loops of the source, proved against the functions above
  // ---------------------------------------------------------------------

  /** `finite_mat`: scans the entries row by row and stops at the first non-finite one. */
  method FiniteMatLoop(C: DMat3) returns (ok: bool)
    ensures ok == FiniteMat(C)
  {
    FiniteMatEntries(C);
    var r := 0;
    while r < 3
      invariant 0 <= r <= 3
      invariant forall i, j :: 0 <= i < r && 0 <= j < 3 ==> C.At(i, j).IsFinite()
    {
      var c := 0;
      while c < 3
        invariant 0 <= c <= 3
        invariant forall i, j :: (0 <= i < r && 0 <= j < 3) || (i == r && 0 <= j < c) ==> C.At(i, j).IsFinite()
      {
        if !C.At(r, c).IsFinite() {
          return false;
        }
        c := c + 1;
      }
      r := r + 1;
    }
    return true;
  }

  /** `max_abs_CCt_minus_I`: a running maximum of |(C C^T - I)(r, c)| starting from 0. */
  method MaxAbsCCtMinusI(C: Mat3) returns (maxAbs: real)
    ensures maxAbs == Orthonormality(C)
  {
    var Ct := TransposeLoop(C);
    var CCt := MatMul(C, Ct);
    maxAbs := 0.0;
    // where the maximum was found; (0, 0) until something larger than 0 is seen
    ghost var wr, wc := 0, 0;
    var r := 0;
    while r < 3
      invariant 0 <= r <= 3 && wr < 3 && wc < 3
      invariant forall i, j :: 0 <= i < r && 0 <= j < 3 ==> Deviation(CCt, i, j) <= maxAbs
      invariant maxAbs == Deviation(CCt, wr, wc) || (maxAbs == 0.0 && wr == 0 && wc == 0)
    {
      var c := 0;
      while c < 3
        invariant 0 <= c <= 3 && wr < 3 && wc < 3
        invariant forall i, j :: ((0 <= i < r && 0 <= j < 3) || (i == r && 0 <= j < c)) ==> Deviation(CCt, i, j) <= maxAbs
        invariant maxAbs == Deviation(CCt, wr, wc) || (maxAbs == 0.0 && wr == 0 && wc == 0)
      {
        var ideal := if r == c then 1.0 else 0.0;
        var ae := Abs(CCt.At(r, c) - ideal);
        assert ae == Deviation(CCt, r, c);
        if ae > maxAbs {
          maxAbs := ae;
          wr, wc := r, c;
        }
        c := c + 1;
      }
      r := r + 1;
    }
    assert Deviation(CCt, wr, wc) == maxAbs;
    MaxUnique(CCt, maxAbs);
  }

  /** A value that bounds every deviation and is attained by one is MaxDeviation. */
  lemma MaxUnique(M: Mat3, m: real)
    requires forall r, c :: 0 <= r < 3 && 0 <= c < 3 ==> Deviation(M, r, c) <= m
    requires exists r, c :: 0 <= r < 3 && 0 <= c < 3 && Deviation(M, r, c) == m
    ensures m == MaxDeviation(M)
  {
    MaxDeviationIsMax(M);
  }

  /**
   * `validate_adopted_bullseye_ric_frame`: runs the chain with the source's
   * loops for the finiteness and orthonormality checks.
   */
  method Validate(e: Elementary, t0: Double, chief: ChiefState, frame: AdoptedRicFrame, tol: Tolerances)
    returns (res: ValidationResult)
    ensures res == Validation(e, t0, chief, frame, tol)
  {
    if !chief.status.Ok() {
      return Fail(KInvalidInput, ChiefNotOk);
    }
    if !frame.status.Ok() {
      return Fail(KInvalidInput, FrameNotOk);
    }
    var finiteC := FiniteMatLoop(frame.C);
    if !t0.IsFinite() || !chief.timeTag.IsFinite() || !frame.timeTag.IsFinite()
       || !FiniteVec(chief.r) || !FiniteVec(chief.v) || !FiniteVec(frame.origin) || !finiteC {
      return Fail(KInvalidInput, NonFinite);
    }
    if frame.hasOmega && !FiniteVec(frame.omegaRic) {
      return Fail(KInvalidInput, NonFinite);
    }
    if !Eq(frame.timeTag, t0) {
      return Fail(KTimeMissing, TimeMismatch);
    }
    if frame.frameKind != BullseyeRIC || frame.axisOrder != RIC {
      return Fail(KInvalidInput, BadDeclaration);
    }
    var r := RealVec(chief.r);
    var err := Norm(e, Sub(RealVec(frame.origin), r));
    var bound := CenterBound(e, r, tol.centerAbs, tol.centerRel);
    assert Centered(e, chief, frame, tol) <==> err <= bound;
    if !(err <= bound) {
      return Fail(KInvalidInput, CenteringMismatch);
    }
    var C := RealMat(frame.C);
    var ortho := MaxAbsCCtMinusI(C);
    if !(ortho <= tol.orthoMaxAbs) {
      return Fail(KInvalidInput, NotOrthonormal);
    }
    var dC := Det(C);
    if !Representable(dC) || !(Abs(dC - 1.0) <= tol.detOneAbs) {
      return Fail(KInvalidInput, NotRightHanded);
    }
    if frame.hasOmega && frame.omegaCoords != OmegaRIC {
      return Fail(KInvalidInput, OmegaBadDeclaration);
    }
    return ValidationResult(ProviderStatus(KOk), ROk);
  }

  // ---------------------------------------------------------------------
  // Scenarios
  // ---------------------------------------------------------------------

  /** An OK chief at r and a frame centred on it with DCM `C`, declared Bullseye RIC, no omega. */
  function CenteredFrame(t0: real, r: Vec3, C: Mat3): (AdoptedRicFrame, ChiefState)
  {
    (AdoptedRicFrame(Fin(t0), DoubleVec(r), DoubleMat(C), false, ZeroD, OmegaUnspecified,
                     BullseyeRIC, RIC, Some(1), ProviderStatus(KOk)),
     ChiefState(Fin(t0), DoubleVec(r), ZeroD, Some(0), ProviderStatus(KOk)))
  }

  /** A centred frame is never rejected for centering under non-negative tolerances. */
  lemma CenteredPassesCentering(e: Elementary, r: Vec3, tol: Tolerances)
    requires SqrtLaw(e.sqrt) && tol.centerAbs >= 0.0 && tol.centerRel >= 0.0
    ensures Norm(e, Sub(r, r)) <= CenterBound(e, r, tol.centerAbs, tol.centerRel)
  {
    ComponentwiseOps(r, r, 0.0);
    assert Sub(r, r) == Zero;
    ZeroNorm(e);
    NormNonNegative(e, r);
    BoundAtLeastAbs(tol.centerAbs, tol.centerRel, Norm(e, r));
  }

  lemma BoundAtLeastAbs(abs: real, rel: real, n: real)
    requires abs >= 0.0 && rel >= 0.0 && n >= 0.0
    ensures 0.0 <= abs + rel * n
  {
  }

  /** A matrix whose product with its transpose is the identity passes any non-negative orthonormality tolerance. */
  lemma ExactlyOrthonormal(C: Mat3, tol: Tolerances)
    requires MulM(C, Transpose(C)) == Identity && tol.orthoMaxAbs >= 0.0
    ensures Orthonormal(C, tol)
  {
    forall r, c | 0 <= r < 3 && 0 <= c < 3
      ensures Deviation(Identity, r, c) <= tol.orthoMaxAbs
    {
      assert Deviation(Identity, r, c) == 0.0;
    }
    OrthonormalityCheckMeans(C, tol.orthoMaxAbs);
  }

  /** The identity is orthonormal and right-handed under the default tolerances. */
  lemma IdentityGeometry()
    ensures Orthonormal(Identity, DefaultTolerances) && RightHanded(Identity, DefaultTolerances)
  {
    IdentityOrtho();
    IdentityRight();
  }

  lemma IdentityOrtho()
    ensures Orthonormal(Identity, DefaultTolerances)
  {
    var I := Identity;
    assert Transpose(I) == I;
    IdentityNeutral(Zero, I);
    ExactlyOrthonormal(I, DefaultTolerances);
  }

  lemma IdentityRight()
    ensures RightHanded(Identity, DefaultTolerances)
  {
    DetOfIdentity();
    assert Abs(Det(Identity) - 1.0) == 0.0;
  }

  /** Identity with entry (2, 2) negated: orthonormal, but left-handed. */
  lemma FlippedGeometry()
    ensures Orthonormal(Identity.With(2, 2, -1.0), DefaultTolerances)
    ensures !RightHanded(Identity.With(2, 2, -1.0), DefaultTolerances)
  {
    FlippedIsOrthogonal();
    ExactlyOrthonormal(Identity.With(2, 2, -1.0), DefaultTolerances);
    DetOfIdentity();
  }

  /** diag(1, 1, -1) times its transpose is the identity. */
  lemma FlippedIsOrthogonal()
    ensures MulM(Identity.With(2, 2, -1.0), Transpose(Identity.With(2, 2, -1.0))) == Identity
  {
    var F := Identity.With(2, 2, -1.0);
    assert F == M3(V3(1.0, 0.0, 0.0), V3(0.0, 1.0, 0.0), V3(0.0, 0.0, -1.0));
    assert Transpose(F) == F;
  }

  /** The checks a well-formed, centred frame without omega still has to pass: only the geometry of C decides. */
  lemma GeometryDecides(e: Elementary, t0: Double, chief: ChiefState, frame: AdoptedRicFrame, tol: Tolerances)
    requires chief.status.Ok() && frame.status.Ok() && FiniteInputs(t0, chief, frame) && !frame.hasOmega
    requires frame.timeTag.v == t0.v && frame.frameKind == BullseyeRIC && frame.axisOrder == RIC
    requires Centered(e, chief, frame, tol)
    ensures Validation(e, t0, chief, frame, tol) ==
      if !Orthonormal(RealMat(frame.C), tol) then Fail(KInvalidInput, NotOrthonormal)
      else if !RightHanded(RealMat(frame.C), tol) then Fail(KInvalidInput, NotRightHanded)
      else ValidationResult(ProviderStatus(KOk), ROk)
  {
  }

  /** Flipping one axis of the identity gives det = -1: rejected as kNotRightHanded, after passing orthonormality. */
  lemma LeftHandedRejected(e: Elementary, t0: real, r: Vec3)
    requires SqrtLaw(e.sqrt)
    ensures var (frame, chief) := CenteredFrame(t0, r, Identity.With(2, 2, -1.0));
      Validation(e, Fin(t0), chief, frame, DefaultTolerances) == Fail(KInvalidInput, NotRightHanded)
  {
    var F := Identity.With(2, 2, -1.0);
    var (frame, chief) := CenteredFrame(t0, r, F);
    DoubleRealRoundTrip(r, F);
    CenteredPassesCentering(e, r, DefaultTolerances);
    FlippedGeometry();
    GeometryDecides(e, Fin(t0), chief, frame, DefaultTolerances);
  }

  /** The identity frame centred on the chief, at the chief's time, passes every check. */
  lemma IdentityFramePasses(e: Elementary, t0: real, r: Vec3)
    requires SqrtLaw(e.sqrt)
    ensures var (frame, chief) := CenteredFrame(t0, r, Identity);
      Validation(e, Fin(t0), chief, frame, DefaultTolerances) == ValidationResult(ProviderStatus(KOk), ROk)
  {
    var (frame, chief) := CenteredFrame(t0, r, Identity);
    DoubleRealRoundTrip(r, Identity);
    CenteredPassesCentering(e, r, DefaultTolerances);
    IdentityGeometry();
    GeometryDecides(e, Fin(t0), chief, frame, DefaultTolerances);
  }
}
