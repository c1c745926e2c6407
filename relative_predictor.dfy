// The HCW end-to-end predictor (core/relative_predictor.cpp): each tick
// builds the time grid, queries the chief and the Bullseye frame, picks the
// mean motion, then predicts every registered vehicle's relative positions
// into the publisher's back buffer and publishes it once.
module RelativePrediction {
  import opened Num
  import opened Types
  import opened Wrappers
  import opened RelativeModel
  import opened Hcw
  import opened TimeGrid
  import opened VehicleIndex
  import opened Publishing
  import opened BullseyeFrameProduct
  import opened Transforms
  import FrameMath
  import Contracts

  /** VehicleState (core/relative_predictor.hpp): a deputy's inertial state at the tick. */
  datatype VehicleState = VehicleState(timeTag: Double, r: DVec3, v: DVec3, frameId: Option<FrameRef>, status: ProviderStatus)

  // ---------------------------------------------------------------------
  // compute_mean_motion
  // ---------------------------------------------------------------------

  /** The frame's own rate is used when it is given, in RIC coordinates, finite and positive. */
  predicate FrameRateUsable(frame: Snapshot)
  {
    frame.hasOmega && frame.omegaCoords == OmegaRIC && frame.omegaRic.z.IsFinite() && Gt(frame.omegaRic.z, Fin(0.0))
  }

  /**
   * The fallback n = |r x v| / |r|^2 from the chief's state: it needs a
   * finite state, a positive finite |r|, and yields a positive finite rate,
   * the one that, times |r|^2, gives back |r x v|.
   */
  function OrbitRate(e: Elementary, chief: ChiefState): (n: Option<real>)
    ensures n.Some? ==> n.value > 0.0 && Representable(n.value)
    ensures n.Some? ==> FiniteVec(chief.r) && FiniteVec(chief.v) && Norm(e, RealVec(chief.r)) > 0.0
  {
    if !FiniteVec(chief.r) || !FiniteVec(chief.v) then None
    else
      var r, v := RealVec(chief.r), RealVec(chief.v);
      var rNorm := Norm(e, r);
      if !(rNorm > 0.0) || !Representable(rNorm) then None
      else
        var n := RateOf(Norm(e, Cross(r, v)), rNorm);
        if !(n > 0.0) || !Representable(n) then None
        else Some(n)
  }

  /** |h| / |r|^2 */
  function RateOf(hNorm: real, rNorm: real): real
    requires rNorm > 0.0
  {
    hNorm / (rNorm * rNorm)
  }

  /** The rate the fallback answers is the one that, times |r|^2, gives back |r x v|. */
  lemma OrbitRateTimesRadiusSquared(e: Elementary, chief: ChiefState)
    requires OrbitRate(e, chief).Some?
    ensures FiniteVec(chief.r) && FiniteVec(chief.v)
    ensures OrbitRate(e, chief).value * (Norm(e, RealVec(chief.r)) * Norm(e, RealVec(chief.r)))
            == Norm(e, Cross(RealVec(chief.r), RealVec(chief.v)))
  {
    QuotientTimesDivisor(Norm(e, Cross(RealVec(chief.r), RealVec(chief.v))), Norm(e, RealVec(chief.r)));
    assert OrbitRate(e, chief).value
           == RateOf(Norm(e, Cross(RealVec(chief.r), RealVec(chief.v))), Norm(e, RealVec(chief.r)));
  }

  lemma QuotientTimesDivisor(h: real, r: real)
    requires r > 0.0
    ensures r * r > 0.0 && (h / (r * r)) * (r * r) == h
  {
    assert r * r > 0.0;
  }

  /**
   * `compute_mean_motion`: the frame's rate first, otherwise the chief's
   * orbit rate. Whatever it answers is a mean motion the HCW model accepts.
   */
  function MeanMotion(e: Elementary, chief: ChiefState, frame: Snapshot): (n: Option<real>)
    ensures n.Some? ==> PositiveFinite(Fin(n.value))
  {
    if FrameRateUsable(frame) then Some(frame.omegaRic.z.v) else OrbitRate(e, chief)
  }

  /** A usable frame rate wins, whatever the chief's state. */
  lemma FrameRateFirst(e: Elementary, chief: ChiefState, chief': ChiefState, frame: Snapshot)
    requires FrameRateUsable(frame)
    ensures MeanMotion(e, chief, frame) == MeanMotion(e, chief', frame) == Some(frame.omegaRic.z.v)
  {
  }

  /** Without one the chief's orbit rate is used, and a chief the fallback cannot use ends the tick. */
  lemma FallbackToOrbitRate(e: Elementary, chief: ChiefState, frame: Snapshot)
    requires !FrameRateUsable(frame)
    ensures MeanMotion(e, chief, frame) == OrbitRate(e, chief)
    ensures !FiniteVec(chief.r) || !FiniteVec(chief.v) ==> MeanMotion(e, chief, frame).None?
  {
  }

  /**
   * On a frame constructed from the chief, the two sources agree: the
   * constructed omega is (0, 0, |r x v| / |r|^2), which is the orbit rate.
   */
  lemma ConstructedRateAgrees(e: Elementary, chief: ChiefState, d: Contracts.DegradeReason)
    requires SqrtLaw(e.sqrt) && FrameMath.Construct(e, chief).status.Ok()
    requires FiniteVec(chief.r) && Representable(Norm(e, RealVec(chief.r)))
    ensures FrameRateUsable(FromConstructed(e, chief, d))
    ensures MeanMotion(e, chief, FromConstructed(e, chief, d)) == OrbitRate(e, chief)
  {
    var c := FrameMath.Construct(e, chief);
    FrameMath.ConstructSuccess(e, chief);
    var r, v := RealVec(chief.r), RealVec(chief.v);
    var rNorm, vNorm, hNorm := Norm(e, r), Norm(e, v), Norm(e, Cross(r, v));
    RatePositive(hNorm, rNorm, vNorm);
    var omega := RateOf(hNorm, rNorm);
    assert c.omegaRic.z == omega > 0.0;
    assert FromConstructed(e, chief, d).omegaRic.z == Fin(omega);
    OrbitRateOf(e, chief);
  }

  /** The fallback's value whenever its guards pass. */
  lemma OrbitRateOf(e: Elementary, chief: ChiefState)
    requires FiniteVec(chief.r) && FiniteVec(chief.v)
    requires Norm(e, RealVec(chief.r)) > 0.0 && Representable(Norm(e, RealVec(chief.r)))
    requires RateOf(Norm(e, Cross(RealVec(chief.r), RealVec(chief.v))), Norm(e, RealVec(chief.r))) > 0.0
    requires Representable(RateOf(Norm(e, Cross(RealVec(chief.r), RealVec(chief.v))), Norm(e, RealVec(chief.r))))
    ensures OrbitRate(e, chief) == Some(RateOf(Norm(e, Cross(RealVec(chief.r), RealVec(chief.v))), Norm(e, RealVec(chief.r))))
  {
  }

  /** A chief that passed the degeneracy check has a positive orbit rate. */
  lemma RatePositive(hNorm: real, rNorm: real, vNorm: real)
    requires rNorm >= Contracts.Rmin && vNorm >= Contracts.Vmin
    requires FrameMath.HHat(hNorm, rNorm, vNorm) >= Contracts.HhatMin
    ensures RateOf(hNorm, rNorm) > 0.0 && RateOf(hNorm, rNorm) == FrameMath.OmegaMagnitude(hNorm, rNorm)
  {
    assert rNorm * vNorm > 0.0;
    PositiveNumerator(hNorm, rNorm * vNorm);
    assert rNorm * rNorm > 0.0;
    PositiveQuotient(hNorm, rNorm * rNorm);
  }

  lemma PositiveNumerator(h: real, d: real)
    requires d > 0.0 && h / d > 0.0
    ensures h > 0.0
  {
    assert h == (h / d) * d;
  }

  lemma PositiveQuotient(h: real, d: real)
    requires d > 0.0 && h > 0.0
    ensures h / d > 0.0
  {
  }

  // ---------------------------------------------------------------------
  // One vehicle
  // ---------------------------------------------------------------------

  /**
   * A deputy's initial relative state in RIC (position, velocity), when the
   * tick can use it: status OK, a frame identity, and the chief's identity
   * (pointer equality). The transform takes C_i2r = transpose(C_r2i).
   * A non-finite input makes some component of the transformed state NaN
   * or infinite, which the HCW model's input check rejects; that case is
   * None here, with the same effect on the row.
   */
  function InitialState(chief: ChiefState, frame: Snapshot, dep: VehicleState): (x0: Option<(DVec3, DVec3)>)
    ensures x0.Some? ==> dep.status.Ok() && dep.frameId.Some? && dep.frameId == chief.frameId
  {
    if !dep.status.Ok() || dep.frameId.None? || dep.frameId != chief.frameId then None
    else if !FiniteVec(dep.r) || !FiniteVec(dep.v) || !FiniteVec(chief.r) || !FiniteVec(chief.v)
            || !FiniteMat(frame.C) || !FiniteVec(frame.omegaRic) then None
    else
      var rel := InertialToRic(RealVec(dep.r), RealVec(dep.v), RealVec(chief.r), RealVec(chief.v),
                               Transpose(RealMat(frame.C)), RealVec(frame.omegaRic));
      Some((RoundVec(rel.r), RoundVec(rel.v)))
  }

  /**
   * The row storage `base` after the HCW call for a vehicle with initial
   * state x0 (none: no call), over the offsets `tau`, into the span `out`
   * over that row: what `predict_hcw` leaves there.
   */
  function RowAfter(e: Elementary, n: real, x0: Option<(DVec3, DVec3)>, tau: seq<Double>, out: Span, base: seq<DVec3>): (r: seq<DVec3>)
    requires out.size <= |base|
    ensures |r| == |base|
  {
    if x0.None? then base
    else
      var (r0, v0) := x0.value;
      Overwritten(base, PositionRows(e, Fin(n), r0, v0, tau, RowsFilled(Fin(n), r0, v0, tau, out)))
  }

  /**
   * The call as the source makes it: the whole grid, but a span of only
   * `steps` = min(|tau|, MAX_STEPS) entries.
   */
  method PredictRowAsWritten(e: Elementary, n: real, r0: DVec3, v0: DVec3, tau: seq<Double>, row: array<DVec3>, steps: nat)
    requires steps <= row.Length
    modifies row
    ensures row[..] == RowAfter(e, n, Some((r0, v0)), tau, Span(row, steps), old(row[..]))
  {
    var res := PredictHcw(e, r0, v0, Fin(n), tau, Span(row, steps), NoSpan);
  }

  /** The call as intended: the first `steps` offsets into a span of `steps` entries. */
  method PredictRow(e: Elementary, n: real, r0: DVec3, v0: DVec3, tau: seq<Double>, row: array<DVec3>, steps: nat)
    requires steps <= |tau| && steps <= row.Length
    modifies row
    ensures row[..] == RowAfter(e, n, Some((r0, v0)), tau[..steps], Span(row, steps), old(row[..]))
  {
    var res := PredictHcw(e, r0, v0, Fin(n), tau[..steps], Span(row, steps), NoSpan);
  }

  /**
   * As written, a grid longer than the span is refused by the model
   * (insufficient output capacity): the vehicle's row keeps its stale
   * contents although its state was usable.
   */
  lemma LongGridLeavesRowStale(e: Elementary, n: real, x0: (DVec3, DVec3), tau: seq<Double>, row: array<DVec3>,
                               steps: nat, base: seq<DVec3>)
    requires steps < |tau| && steps <= |base|
    ensures RowAfter(e, n, Some(x0), tau, Span(row, steps), base) == base
  {
    NothingFilled(e, Fin(n), x0.0, x0.1, tau, base);
  }

  /** A grid with more than MAX_STEPS offsets: 600 s at a 1 s cadence has 601, all usable. */
  lemma LongGridExample()
    ensures |Grid(Fin(600.0), Fin(1.0))| == MaxSteps + 1
    ensures forall k :: 0 <= k < |Grid(Fin(600.0), Fin(1.0))| ==> TauOk(Grid(Fin(600.0), Fin(1.0))[k])
  {
    GridSize(600.0, 1.0);
    assert Floor(600.0 / 1.0) == 600;
    GridOffsetsUsable(600.0, 1.0);
  }

  /** Every offset of a grid from a finite non-negative horizon and a finite positive cadence is usable. */
  lemma GridOffsetsUsable(h: real, c: real)
    requires h >= 0.0 && c > 0.0
    ensures forall k :: 0 <= k < |Grid(Fin(h), Fin(c))| ==> TauOk(Grid(Fin(h), Fin(c))[k])
  {
    GridStrictlyIncreasing(h, c);
    forall k | 0 <= k < |Grid(Fin(h), Fin(c))|
      ensures TauOk(Grid(Fin(h), Fin(c))[k])
    {
      assert k as real * c >= 0.0;
    }
  }

  /**
   * As intended, a usable vehicle over usable offsets gets its first
   * `steps` entries predicted, entry k the HCW position at offset k, and
   * keeps the rest of its row.
   */
  lemma IntendedRowFilled(e: Elementary, n: real, r0: DVec3, v0: DVec3, tau: seq<Double>, row: array<DVec3>,
                          steps: nat, base: seq<DVec3>)
    requires n > 0.0 && FiniteVec(r0) && FiniteVec(v0)
    requires 0 < steps <= |tau| && steps <= |base|
    requires forall k :: 0 <= k < steps ==> TauOk(tau[k])
    ensures var r := RowAfter(e, n, Some((r0, v0)), tau[..steps], Span(row, steps), base);
            (forall k :: 0 <= k < steps ==> r[k] == PositionCell(e, Fin(n), tau[k], r0, v0))
            && (forall k :: steps <= k < |base| ==> r[k] == base[k])
  {
    var t := tau[..steps];
    assert forall k :: 0 <= k < |t| ==> TauOk(t[k]);
    AllUsableFirstBad(t);
    assert RowsFilled(Fin(n), r0, v0, t, Span(row, steps)) == steps;
  }

  /** With every offset usable, the model's loop runs to the end. */
  lemma {:induction false} AllUsableFirstBad(tau: seq<Double>)
    requires forall k :: 0 <= k < |tau| ==> TauOk(tau[k])
    ensures FirstBadTau(tau) == |tau|
    decreases |tau|
  {
    if |tau| > 0 {
      AllUsableFirstBad(tau[1..]);
    }
  }

  // ---------------------------------------------------------------------
  // The tick
  // ---------------------------------------------------------------------

  /**
   * What a tick that gets past its fail-fast checks works from: the grid,
   * the chief's state, the frame snapshot and the mean motion.
   */
  datatype Plan = Plan(tau: seq<Double>, chief: ChiefState, frame: Snapshot, n: real)
  {
    /** min(|tau|, MAX_STEPS): the offsets each vehicle is predicted over. */
    function Steps(): (k: nat)
      ensures k <= |tau| && k <= MaxSteps
    {
      MinNat(|tau|, MaxSteps)
    }
  }

  class RelativePredictor {
    const pub: Publisher
    const registry: VehicleIndexMap
    const chief: Double -> ChiefState
    const veh: (VehicleId, Double) -> VehicleState
    const bullseye: BullseyeFrame

    ghost predicate Valid()
      reads this, pub, pub.buffers, registry, registry.ids
    {
      pub.Valid() && registry.Valid()
    }

    constructor (pub: Publisher, registry: VehicleIndexMap, chief: Double -> ChiefState,
                 veh: (VehicleId, Double) -> VehicleState, bullseye: BullseyeFrame)
      ensures this.pub == pub && this.registry == registry && this.chief == chief && this.veh == veh && this.bullseye == bullseye
    {
      this.pub := pub;
      this.registry := registry;
      this.chief := chief;
      this.veh := veh;
      this.bullseye := bullseye;
    }

    /**
     * The fail-fast checks of a tick over grid `tau`, in order: a non-empty
     * grid, a chief that is OK with a frame identity, a frame snapshot that
     * is OK, and a mean motion. None: the tick returns without publishing.
     */
    function Prepare(e: Elementary, t0: Double, tau: seq<Double>): (p: Option<Plan>)
      ensures p.Some? <==>
                |tau| > 0 && chief(t0).status.Ok() && chief(t0).frameId.Some?
                && Update(e, bullseye, t0).status.Ok() && MeanMotion(e, chief(t0), Update(e, bullseye, t0)).Some?
      ensures p.Some? ==> p.value.tau == tau && p.value.chief == chief(t0) && p.value.frame == Update(e, bullseye, t0)
                          && Some(p.value.n) == MeanMotion(e, chief(t0), Update(e, bullseye, t0))
      ensures p.Some? ==> p.value.n > 0.0 && p.value.Steps() > 0
    {
      var c := chief(t0);
      if |tau| == 0 || !c.status.Ok() || c.frameId.None? then None
      else
        var frame := Update(e, bullseye, t0);
        if !frame.status.Ok() then None
        else
          match MeanMotion(e, c, frame)
          case None => None
          case Some(n) => Some(Plan(tau, c, frame, n))
    }

    /**
     * Row i of the written buffer after a tick with plan p, from its
     * previous contents: registered vehicles get their HCW positions over
     * the first min(|tau|, MAX_STEPS) offsets, when their state is usable and
     * the model accepts it; every other row is left as it was.
     */
    function TargetRow(e: Elementary, t0: Double, p: Plan, i: nat, row: array<DVec3>, base: seq<DVec3>): (r: seq<DVec3>)
      reads registry, registry.ids
      requires registry.Valid() && |base| == MaxSteps
      ensures |r| == MaxSteps
      ensures i >= |registry.Ids()| ==> r == base
    {
      if i < |registry.Ids()| then
        RowAfter(e, p.n, InitialState(p.chief, p.frame, veh(registry.Ids()[i], t0)), p.tau[..p.Steps()],
                 Span(row, p.Steps()), base)
      else base
    }

    /**
     * Row i as the source's call leaves it: the whole grid, into a span of
     * min(|tau|, MAX_STEPS) entries (`PredictRowAsWritten`).
     */
    function TargetRowAsWritten(e: Elementary, t0: Double, p: Plan, i: nat, row: array<DVec3>, base: seq<DVec3>): (r: seq<DVec3>)
      reads registry, registry.ids
      requires registry.Valid() && |base| == MaxSteps
      ensures |r| == MaxSteps
      ensures i >= |registry.Ids()| ==> r == base
    {
      if i < |registry.Ids()| then
        RowAfter(e, p.n, InitialState(p.chief, p.frame, veh(registry.Ids()[i], t0)), p.tau, Span(row, p.Steps()), base)
      else base
    }

    /**
     * As written, a tick over a grid of more than MAX_STEPS offsets leaves
     * every vehicle row as it was, usable vehicles included: the published
     * buffer carries the previous tick's positions.
     */
    lemma LongGridKeepsEveryRow(e: Elementary, t0: Double, p: Plan, i: nat, row: array<DVec3>, base: seq<DVec3>)
      requires registry.Valid() && |base| == MaxSteps && |p.tau| > MaxSteps
      ensures TargetRowAsWritten(e, t0, p, i, row, base) == base
    {
      if i < |registry.Ids()| {
        var x0 := InitialState(p.chief, p.frame, veh(registry.Ids()[i], t0));
        if x0.Some? {
          LongGridLeavesRowStale(e, p.n, x0.value, p.tau, row, p.Steps(), base);
        }
      }
    }

    /** A grid of at most MAX_STEPS offsets fits the span, and then the call as written is the intended one. */
    lemma FittingGridAsIntended(e: Elementary, t0: Double, p: Plan, i: nat, row: array<DVec3>, base: seq<DVec3>)
      requires registry.Valid() && |base| == MaxSteps && |p.tau| <= MaxSteps
      ensures TargetRowAsWritten(e, t0, p, i, row, base) == TargetRow(e, t0, p, i, row, base)
    {
      assert p.tau[..p.Steps()] == p.tau;
    }

    /**
     * The tick's row for a registered vehicle whose initial state is usable,
     * over usable offsets: its first min(|tau|, MAX_STEPS) entries are the
     * HCW positions at those offsets and the rest is left as it was.
     */
    lemma UsableVehicleRowFilled(e: Elementary, t0: Double, p: Plan, i: nat, row: array<DVec3>, base: seq<DVec3>,
                                 r0: DVec3, v0: DVec3)
      requires registry.Valid() && |base| == MaxSteps && i < |registry.Ids()|
      requires InitialState(p.chief, p.frame, veh(registry.Ids()[i], t0)) == Some((r0, v0))
      requires p.n > 0.0 && FiniteVec(r0) && FiniteVec(v0) && |p.tau| > 0
      requires forall k :: 0 <= k < p.Steps() ==> TauOk(p.tau[k])
      ensures var r := TargetRow(e, t0, p, i, row, base);
              (forall k :: 0 <= k < p.Steps() ==> r[k] == PositionCell(e, Fin(p.n), p.tau[k], r0, v0))
              && (forall k :: p.Steps() <= k < MaxSteps ==> r[k] == base[k])
    {
      IntendedRowFilled(e, p.n, r0, v0, p.tau, row, p.Steps(), base);
    }

    /** The rows of `b` after the first i vehicles: theirs are their target rows, the others as they were. */
    ghost predicate RowsWritten(e: Elementary, t0: Double, p: Plan, b: PredictionBuffer, base: seq<seq<DVec3>>, i: nat)
      reads registry, registry.ids, b, b.positions
      requires registry.Valid()
    {
      b.Shaped() && |base| == MaxVehicles
      && (forall j :: 0 <= j < MaxVehicles ==> |base[j]| == MaxSteps)
      && (forall j :: 0 <= j < MaxVehicles ==>
            b.positions[j][..] == if j < i then TargetRow(e, t0, p, j, b.positions[j], base[j]) else base[j])
    }

    /** The vehicle loop's body for index i: skip it, or predict its row. */
    method VisitVehicle(e: Elementary, t0: Double, p: Plan, b: PredictionBuffer, ghost base: seq<seq<DVec3>>, i: nat)
      requires registry.Valid() && i < |registry.Ids()|
      requires RowsWritten(e, t0, p, b, base, i)
      modifies b.positions[i]
      ensures RowsWritten(e, t0, p, b, base, i + 1)
    {
      ghost var before := seq(MaxVehicles, j requires 0 <= j < MaxVehicles reads b, b.positions => b.positions[j][..]);
      var row := b.positions[i];
      FillVehicleRow(e, t0, p, i, row);
      forall j | 0 <= j < MaxVehicles && j != i
        ensures b.positions[j][..] == before[j]
      {
        assert b.positions[j] != row;
      }
    }

    /** Vehicle i's row: its state at t0, and the HCW prediction into its row when the state is usable. */
    method FillVehicleRow(e: Elementary, t0: Double, p: Plan, i: nat, row: array<DVec3>)
      requires registry.Valid() && i < |registry.Ids()| && row.Length == MaxSteps
      modifies row
      ensures row[..] == TargetRow(e, t0, p, i, row, old(row[..]))
    {
      var vid := registry.IdAt(i);
      var x0 := InitialState(p.chief, p.frame, veh(vid.value, t0));
      if x0.Some? {
        PredictRow(e, p.n, x0.value.0, x0.value.1, p.tau, row, p.Steps());
      }
    }

    /** The vehicle loop: indices below min(map size, MAX_VEHICLES), in order. */
    method WriteRows(e: Elementary, t0: Double, p: Plan, b: PredictionBuffer)
      requires registry.Valid() && b.Shaped()
      modifies b.positions
      ensures b.Shaped()
      ensures forall j :: 0 <= j < MaxVehicles ==>
                b.positions[j][..] == TargetRow(e, t0, p, j, b.positions[j], old(b.positions[j][..]))
    {
      ghost var base := seq(MaxVehicles, j requires 0 <= j < MaxVehicles reads b, b.positions => b.positions[j][..]);
      var nveh := MinNat(registry.size, MaxVehicles);
      var i := 0;
      while i < nveh
        invariant i <= nveh == |registry.Ids()|
        invariant RowsWritten(e, t0, p, b, base, i)
      {
        VisitVehicle(e, t0, p, b, base, i);
        i := i + 1;
      }
    }

    /**
     * `RelativePredictor::step(t0, horizon, cadence)`. A tick whose checks
     * fail changes nothing and publishes nothing. One that passes them writes
     * every vehicle row of the back buffer as `TargetRow` says and then
     * publishes it exactly once, stamped t0.
     */
    method Step(e: Elementary, t0: Double, horizon: Double, cadence: Double)
      requires Valid()
      requires horizon != PosInf || !cadence.IsFinite()
      modifies pub, pub.Back(), pub.Back().positions
      ensures Valid()
      ensures Prepare(e, t0, Grid(horizon, cadence)).None? ==>
                unchanged(pub, pub.Back()) && unchanged(pub.Back().positions)
      ensures Prepare(e, t0, Grid(horizon, cadence)).Some? ==> Published(e, t0, Prepare(e, t0, Grid(horizon, cadence)).value)
    {
      var tau := Grid(horizon, cadence);   // what MakeTimeGrid returns
      var plan := Prepare(e, t0, tau);
      if plan.None? {
        return;
      }
      WriteAndPublish(e, t0, plan.value);
    }

    /**
     * The publisher after a tick with plan p: the counter advanced by one
     * (modulo 2^64), the previous back buffer now the front one, stamped t0,
     * and each of its vehicle rows its target row over its previous contents.
     */
    twostate predicate Published(e: Elementary, t0: Double, p: Plan)
      reads this, pub, pub.buffers, registry, registry.ids, pub.Read(), pub.Read().positions
      requires Valid() && old(pub.Valid())
    {
      pub.seqno == (old(pub.seqno) + 1) % U64 && pub.Read() == old(pub.Back()) && pub.Read().t0 == t0
      && forall j :: 0 <= j < MaxVehicles ==>
           pub.Read().positions[j][..] == TargetRow(e, t0, p, j, pub.Read().positions[j], old(pub.Back().positions[j][..]))
    }

    /** Past the checks: begin the write, fill every vehicle row, publish once. */
    method WriteAndPublish(e: Elementary, t0: Double, p: Plan)
      requires Valid()
      modifies pub, pub.Back(), pub.Back().positions
      ensures Valid() && Published(e, t0, p)
    {
      var b := pub.BeginWrite();
      WriteRows(e, t0, p, b);
      var s := pub.Publish(t0);
    }
  }
}
