// The Bullseye frame product (core/bullseye_frame.cpp): each tick either
// adopts an externally supplied RIC frame, when it is enabled and passes
// validation, or falls back to the frame constructed from the chief's state,
// recording why in a degradation bit-set.
module BullseyeFrameProduct {
  import opened Num
  import opened Types
  import opened Contracts
  import opened Wrappers
  import opened Validator
  import opened FrameMath

  datatype BullseyeFrameMode = ConstructedOnly | AdoptedPrefer

  datatype Snapshot = Snapshot(
    timeTag: Double,
    origin: DVec3,
    C: DMat3,                       // RIC -> inertial
    hasOmega: bool,
    omegaRic: DVec3,
    omegaCoords: OmegaCoords,
    frameKind: FrameKind,
    axisOrder: AxisOrder,
    inertialFrameId: Option<FrameRef>,
    adoptedFrameSourceId: Option<FrameRef>,
    usedAdopted: bool,
    degraded: DegradeReason,
    status: ProviderStatus)

  /** A value-initialised snapshot: the header's member defaults. */
  const DefaultSnapshot: Snapshot := Snapshot(
    Fin(0.0), ZeroD, IdentityD, false, ZeroD, OmegaUnspecified, BullseyeRIC, RIC,
    None, None, false, NoReason, ProviderStatus(KOk))

  /**
   * The orchestrator's configuration. The chief provider and the optional
   * adopted-frame provider are what `get(t0)` returns at each time.
   */
  datatype BullseyeFrame = BullseyeFrame(
    chief: Double -> ChiefState,
    adopted: Option<Double -> AdoptedRicFrame>,
    mode: BullseyeFrameMode,
    tol: Tolerances)

  /** `from_constructed`: the snapshot of the frame built from the chief's state. */
  function FromConstructed(e: Elementary, chief: ChiefState, degraded: DegradeReason): (s: Snapshot)
  {
    var c := Construct(e, chief);
    Snapshot(c.timeTag, c.origin, DoubleMat(c.C), c.hasOmega, DoubleVec(c.omegaRic), c.omegaCoords,
             c.frameKind, c.axisOrder, chief.frameId, None, false, degraded, c.status)
  }

  /** `from_adopted`: the adopted frame's fields, tagged with the chief's inertial frame. */
  function FromAdopted(chief: ChiefState, f: AdoptedRicFrame): (s: Snapshot)
    ensures s.usedAdopted && s.degraded == NoReason && s.status.Ok()
    ensures s.timeTag == f.timeTag && s.origin == f.origin && s.C == f.C
    ensures s.hasOmega == f.hasOmega && s.omegaRic == f.omegaRic && s.omegaCoords == f.omegaCoords
    ensures s.frameKind == f.frameKind && s.axisOrder == f.axisOrder
    ensures s.inertialFrameId == chief.frameId && s.adoptedFrameSourceId == f.frameSourceId
  {
    Snapshot(f.timeTag, f.origin, f.C, f.hasOmega, f.omegaRic, f.omegaCoords, f.frameKind, f.axisOrder,
             chief.frameId, f.frameSourceId, true, NoReason, ProviderStatus(KOk))
  }

  /** The constructed snapshot, with kDegenerateChief OR-ed in when construction failed. */
  function Fallback(e: Elementary, chief: ChiefState, degraded: DegradeReason): Snapshot
  {
    var s := FromConstructed(e, chief, degraded);
    if !s.status.Ok() then s.(degraded := Or(s.degraded, DegenerateChief)) else s
  }

  /** `BullseyeFrame::update(t0)` under a given policy for invalid adopted frames. */
  function UpdateUnder(e: Elementary, bf: BullseyeFrame, t0: Double, policy: OnAdoptedInvalid): Snapshot
  {
    var chief := bf.chief(t0);
    if !chief.status.Ok() || chief.frameId.None? then
      DefaultSnapshot.(status := if chief.status.Ok() then ProviderStatus(KInvalidInput) else chief.status)
    else if bf.mode == AdoptedPrefer && bf.adopted.Some? then
      var frame := bf.adopted.value(t0);
      var v := Validation(e, t0, chief, frame, bf.tol);
      if v.status.Ok() then FromAdopted(chief, frame)
      else if policy == AbortTick then DefaultSnapshot.(status := v.status)
      else Fallback(e, chief, AdoptedInvalid)
    else
      Fallback(e, chief, NoReason)
  }

  /** `BullseyeFrame::update(t0)` with the v1 policy. */
  function Update(e: Elementary, bf: BullseyeFrame, t0: Double): Snapshot
  {
    UpdateUnder(e, bf, t0, OnAdoptedInvalidPolicy)
  }

  /** Whether `update` asks the adopted provider for a frame at all. */
  predicate QueriesAdopted(bf: BullseyeFrame, t0: Double)
  {
    bf.chief(t0).status.Ok() && bf.chief(t0).frameId.Some? && bf.mode == AdoptedPrefer && bf.adopted.Some?
  }

  // ---------------------------------------------------------------------
  // Properties
  // ---------------------------------------------------------------------

  /** The constructed snapshot carries the constructor's status, DCM and omega, and never claims adoption. */
  lemma FromConstructedCopies(e: Elementary, chief: ChiefState, d: DegradeReason)
    ensures var s := FromConstructed(e, chief, d);
      && !s.usedAdopted && s.degraded == d && s.adoptedFrameSourceId == None
      && s.status == Construct(e, chief).status
      && RealMat(s.C) == Construct(e, chief).C && RealVec(s.omegaRic) == Construct(e, chief).omegaRic
      && s.timeTag == chief.timeTag && s.origin == chief.r && s.inertialFrameId == chief.frameId
      && s.hasOmega && s.omegaCoords == OmegaRIC
  {
    DoubleRealRoundTrip(Construct(e, chief).omegaRic, Construct(e, chief).C);
  }

  /**
   * A chief that is not OK passes its own code through; an OK chief
   * without an inertial frame id gives kInvalidInput. Either way nothing
   * else of the default snapshot is filled in.
   */
  lemma BadChiefShortCircuits(e: Elementary, bf: BullseyeFrame, t0: Double)
    requires !bf.chief(t0).status.Ok() || bf.chief(t0).frameId.None?
    ensures !QueriesAdopted(bf, t0)
    ensures Update(e, bf, t0).status.code == (if bf.chief(t0).status.Ok() then KInvalidInput else bf.chief(t0).status.code)
    ensures !Update(e, bf, t0).status.Ok()
    ensures Update(e, bf, t0) == DefaultSnapshot.(status := Update(e, bf, t0).status)
  {
  }

  /**
   * A valid adopted frame is used as is: adopted, not degraded, status OK,
   * and tagged with the chief's inertial frame id.
   */
  lemma ValidAdoptedIsUsed(e: Elementary, bf: BullseyeFrame, t0: Double)
    requires QueriesAdopted(bf, t0)
    requires Validation(e, t0, bf.chief(t0), bf.adopted.value(t0), bf.tol).status.Ok()
    ensures Update(e, bf, t0) == FromAdopted(bf.chief(t0), bf.adopted.value(t0))
    ensures Update(e, bf, t0).usedAdopted && Update(e, bf, t0).degraded == NoReason && Update(e, bf, t0).status.Ok()
    ensures Update(e, bf, t0).inertialFrameId == bf.chief(t0).frameId
  {
  }

  /** An adopted frame that fails validation is replaced by the constructed frame, marked kAdoptedInvalid. */
  lemma InvalidAdoptedFallsBack(e: Elementary, bf: BullseyeFrame, t0: Double)
    requires QueriesAdopted(bf, t0)
    requires !Validation(e, t0, bf.chief(t0), bf.adopted.value(t0), bf.tol).status.Ok()
    ensures !Update(e, bf, t0).usedAdopted
    ensures Has(Update(e, bf, t0).degraded, AdoptedInvalid)
    ensures Update(e, bf, t0).status == Construct(e, bf.chief(t0)).status
  {
    var c := Construct(e, bf.chief(t0));
    if !c.status.Ok() {
      assert Or(AdoptedInvalid, DegenerateChief).bits == 3;
    }
  }

  /** Under the abort-tick policy, an invalid adopted frame ends the tick with the validator's status. */
  lemma AbortTickReportsValidation(e: Elementary, bf: BullseyeFrame, t0: Double)
    requires QueriesAdopted(bf, t0)
    requires !Validation(e, t0, bf.chief(t0), bf.adopted.value(t0), bf.tol).status.Ok()
    ensures UpdateUnder(e, bf, t0, AbortTick) == DefaultSnapshot.(status := Validation(e, t0, bf.chief(t0), bf.adopted.value(t0), bf.tol).status)
    ensures !UpdateUnder(e, bf, t0, AbortTick).status.Ok()
  {
  }

  /**
   * Whenever the constructed frame is used, its status is the snapshot's,
   * and kDegenerateChief is recorded exactly when construction failed: a
   * degenerate chief degrades the snapshot rather than aborting the tick.
   */
  lemma ConstructedPathReportsDegenerate(e: Elementary, bf: BullseyeFrame, t0: Double)
    requires bf.chief(t0).status.Ok() && bf.chief(t0).frameId.Some?
    requires !Update(e, bf, t0).usedAdopted
    ensures Update(e, bf, t0).status == Construct(e, bf.chief(t0)).status
    ensures Has(Update(e, bf, t0).degraded, DegenerateChief) <==> !Construct(e, bf.chief(t0)).status.Ok()
  {
    var chief := bf.chief(t0);
    var c := Construct(e, chief);
    if QueriesAdopted(bf, t0) {
      if !c.status.Ok() {
        assert Or(AdoptedInvalid, DegenerateChief).bits == 3;
      }
    } else if !c.status.Ok() {
      assert Or(NoReason, DegenerateChief).bits == 2;
    }
  }

  /**
   * In constructed-only mode, or with no adopted provider, the adopted
   * provider is never consulted: the snapshot is the same whatever it
   * would return, and the only possible degradation is kDegenerateChief.
   */
  lemma ConstructedOnlyIgnoresAdopted(e: Elementary, bf: BullseyeFrame, t0: Double, other: Option<Double -> AdoptedRicFrame>)
    requires bf.mode == ConstructedOnly || bf.adopted.None?
    requires bf.mode == ConstructedOnly || other.None?
    ensures !QueriesAdopted(bf, t0)
    ensures Update(e, bf, t0) == Update(e, bf.(adopted := other), t0)
    ensures Update(e, bf, t0).degraded == NoReason || Update(e, bf, t0).degraded == DegenerateChief
    ensures !Update(e, bf, t0).usedAdopted
  {
    if bf.chief(t0).status.Ok() && bf.chief(t0).frameId.Some? && !Construct(e, bf.chief(t0)).status.Ok() {
      assert Or(NoReason, DegenerateChief) == DegenerateChief;
    }
  }

  /** Adoption and degradation exclude each other; an adopted snapshot is always OK. */
  lemma AdoptedMeansClean(e: Elementary, bf: BullseyeFrame, t0: Double)
    ensures Update(e, bf, t0).usedAdopted ==> Update(e, bf, t0).degraded == NoReason && Update(e, bf, t0).status.Ok()
    ensures Update(e, bf, t0).usedAdopted ==>
              QueriesAdopted(bf, t0) && Validation(e, t0, bf.chief(t0), bf.adopted.value(t0), bf.tol).status.Ok()
  {
  }

  /**
   * An adopted frame that declares no axis order is rejected, so with a
   * chief the constructor accepts the tick still succeeds, on the
   * constructed frame, with a degradation recorded.
   */
  lemma UnspecifiedAxisOrderDegrades(e: Elementary, bf: BullseyeFrame, t0: Double)
    requires QueriesAdopted(bf, t0)
    requires bf.adopted.value(t0).axisOrder == AxisUnspecified
    requires Construct(e, bf.chief(t0)).status.Ok()
    ensures Update(e, bf, t0).status.Ok()
    ensures !Update(e, bf, t0).usedAdopted
    ensures Any(Update(e, bf, t0).degraded)
  {
    ValidationOkIff(e, t0, bf.chief(t0), bf.adopted.value(t0), bf.tol);
    InvalidAdoptedFallsBack(e, bf, t0);
  }
}
