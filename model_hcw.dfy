// The Hill-Clohessy-Wiltshire model (models/model_hcw.cpp): validates its
// inputs, then writes the closed-form relative position (and optionally
// velocity) for each grid offset into caller-owned storage.
module Hcw {
  import opened Num
  import opened Types
  import opened RelativeModel

  // ---------------------------------------------------------------------
  // The closed form
  // ---------------------------------------------------------------------

  /** a x + b y + c z: each component of the closed form is one of these. */
  function Comb(a: real, x: real, b: real, y: real, c: real, z: real): real
  {
    a * x + b * y + c * z
  }

  /** A combination is additive in (x, y, z). */
  lemma CombAdditive(a: real, b: real, c: real, x0: real, x1: real, y0: real, y1: real, z0: real, z1: real)
    ensures Comb(a, x0 + x1, b, y0 + y1, c, z0 + z1) == Comb(a, x0, b, y0, c, z0) + Comb(a, x1, b, y1, c, z1)
  {
    assert a * (x0 + x1) == a * x0 + a * x1;
    assert b * (y0 + y1) == b * y0 + b * y1;
    assert c * (z0 + z1) == c * z0 + c * z1;
  }

  /**
   * The coefficients of a response that is linear in the initial state
   * (x0, y0, z0, xd0, yd0, zd0): the radial and in-track components combine
   * x0, xd0 and yd0 (the in-track one adds yy * y0), the cross-track one
   * combines z0 and zd0.
   */
  datatype Coeffs = Coeffs(xa: real, xb: real, xc: real, ya: real, yb: real, yc: real, yy: real, za: real, zb: real)

  /** The response with coefficients k to the initial state (r0, v0). */
  function Lin(k: Coeffs, r0: Vec3, v0: Vec3): Vec3
  {
    V3(Comb(k.xa, r0.x, k.xb, v0.x, k.xc, v0.y),
       k.yy * r0.y + Comb(k.ya, r0.x, k.yb, v0.x, k.yc, v0.y),
       Comb(k.za, r0.z, k.zb, v0.z, 0.0, 0.0))
  }

  /** Responses to two initial states add, whatever the coefficients. */
  lemma LinAdditive(k: Coeffs, r0: Vec3, v0: Vec3, r1: Vec3, v1: Vec3)
    ensures Lin(k, Add(r0, r1), Add(v0, v1)) == Add(Lin(k, r0, v0), Lin(k, r1, v1))
  {
    CombAdditive(k.xa, k.xb, k.xc, r0.x, r1.x, v0.x, v1.x, v0.y, v1.y);
    CombAdditive(k.ya, k.yb, k.yc, r0.x, r1.x, v0.x, v1.x, v0.y, v1.y);
    CombAdditive(k.za, k.zb, 0.0, r0.z, r1.z, v0.z, v1.z, 0.0, 0.0);
    assert k.yy * (r0.y + r1.y) == k.yy * r0.y + k.yy * r1.y;
  }

  /** A combination scales with (x, y, z). */
  lemma CombScales(a: real, b: real, c: real, s: real, x: real, y: real, z: real)
    ensures Comb(a, s * x, b, s * y, c, s * z) == s * Comb(a, x, b, y, c, z)
  {
    assert a * (s * x) == s * (a * x);
    assert b * (s * y) == s * (b * y);
    assert c * (s * z) == s * (c * z);
  }

  /** The response to a scaled initial state is the scaled response. */
  lemma LinScales(k: Coeffs, s: real, r0: Vec3, v0: Vec3)
    ensures Lin(k, Scale(s, r0), Scale(s, v0)) == Scale(s, Lin(k, r0, v0))
  {
    CombScales(k.xa, k.xb, k.xc, s, r0.x, v0.x, v0.y);
    CombScales(k.ya, k.yb, k.yc, s, r0.x, v0.x, v0.y);
    CombScales(k.za, k.zb, 0.0, s, r0.z, v0.z, 0.0);
    assert k.yy * (s * r0.y) == s * (k.yy * r0.y);
  }

  /**
   * The HCW position coefficients at offset t (x radial, y in-track,
   * z cross-track) for mean motion n:
   *   x = (4 - 3 cos nt) x0 + (sin nt / n) xd0 + (2/n)(1 - cos nt) yd0
   *   y = y0 + 6 (sin nt - nt) x0 - (2/n)(1 - cos nt) xd0 + (1/n)(4 sin nt - 3 nt) yd0
   *   z = cos nt z0 + (sin nt / n) zd0
   */
  function PositionCoeffs(e: Elementary, n: real, t: real): Coeffs
    requires n != 0.0
  {
    var nt := n * t;
    var s := e.sin(nt);
    var c := e.cos(nt);
    var invN := 1.0 / n;
    Coeffs(4.0 - 3.0 * c, invN * s, (2.0 * invN) * (1.0 - c),
           6.0 * (s - nt), -(2.0 * invN) * (1.0 - c), invN * (4.0 * s - 3.0 * nt), 1.0,
           c, invN * s)
  }

  /**
   * The HCW velocity coefficients at offset t:
   *   xd = 3 n sin nt x0 + cos nt xd0 + 2 sin nt yd0
   *   yd = 6 n (cos nt - 1) x0 - 2 sin nt xd0 + (4 cos nt - 3) yd0
   *   zd = -n sin nt z0 + cos nt zd0
   */
  function VelocityCoeffs(e: Elementary, n: real, t: real): Coeffs
  {
    var nt := n * t;
    var s := e.sin(nt);
    var c := e.cos(nt);
    Coeffs(3.0 * n * s, c, 2.0 * s,
           6.0 * n * (c - 1.0), -2.0 * s, 4.0 * c - 3.0, 0.0,
           -n * s, c)
  }

  /** The HCW position at offset t from the initial state. */
  function Position(e: Elementary, n: real, t: real, r0: Vec3, v0: Vec3): Vec3
    requires n != 0.0
  {
    Lin(PositionCoeffs(e, n, t), r0, v0)
  }

  /** The HCW velocity at offset t from the initial state. */
  function Velocity(e: Elementary, n: real, t: real, r0: Vec3, v0: Vec3): Vec3
  {
    Lin(VelocityCoeffs(e, n, t), r0, v0)
  }

  /** The position is additive in the initial state: responses to two states add. */
  lemma PositionAdditive(e: Elementary, n: real, t: real, r0: Vec3, v0: Vec3, r1: Vec3, v1: Vec3)
    requires n != 0.0
    ensures Position(e, n, t, Add(r0, r1), Add(v0, v1)) == Add(Position(e, n, t, r0, v0), Position(e, n, t, r1, v1))
  {
    LinAdditive(PositionCoeffs(e, n, t), r0, v0, r1, v1);
  }

  /** The velocity is additive in the initial state as well. */
  lemma VelocityAdditive(e: Elementary, n: real, t: real, r0: Vec3, v0: Vec3, r1: Vec3, v1: Vec3)
    ensures Velocity(e, n, t, Add(r0, r1), Add(v0, v1)) == Add(Velocity(e, n, t, r0, v0), Velocity(e, n, t, r1, v1))
  {
    LinAdditive(VelocityCoeffs(e, n, t), r0, v0, r1, v1);
  }

  /** Scaling the initial state scales the position: with additivity, the position is linear. */
  lemma PositionScales(e: Elementary, n: real, t: real, s: real, r0: Vec3, v0: Vec3)
    requires n != 0.0
    ensures Position(e, n, t, Scale(s, r0), Scale(s, v0)) == Scale(s, Position(e, n, t, r0, v0))
  {
    LinScales(PositionCoeffs(e, n, t), s, r0, v0);
  }

  /** Scaling the initial state scales the velocity. */
  lemma VelocityScales(e: Elementary, n: real, t: real, s: real, r0: Vec3, v0: Vec3)
    ensures Velocity(e, n, t, Scale(s, r0), Scale(s, v0)) == Scale(s, Velocity(e, n, t, r0, v0))
  {
    LinScales(VelocityCoeffs(e, n, t), s, r0, v0);
  }

  /** A zero relative state stays zero at every offset. */
  lemma ZeroStateStaysZero(e: Elementary, n: real, t: real)
    requires n != 0.0
    ensures Position(e, n, t, Zero, Zero) == Zero && Velocity(e, n, t, Zero, Zero) == Zero
  {
  }

  /** At offset 0 (sin 0 = 0, cos 0 = 1) the solution is the initial state. */
  lemma AtEpochIsInitialState(e: Elementary, n: real, r0: Vec3, v0: Vec3)
    requires n != 0.0 && e.sin(0.0) == 0.0 && e.cos(0.0) == 1.0
    ensures Position(e, n, 0.0, r0, v0) == r0 && Velocity(e, n, 0.0, r0, v0) == v0
  {
    assert n * 0.0 == 0.0;
  }

  /** The cross-track motion depends only on the cross-track initial state. */
  lemma CrossTrackDecoupled(e: Elementary, n: real, t: real, r0: Vec3, v0: Vec3, r1: Vec3, v1: Vec3)
    requires n != 0.0 && r0.z == r1.z && v0.z == v1.z
    ensures Position(e, n, t, r0, v0).z == Position(e, n, t, r1, v1).z
    ensures Velocity(e, n, t, r0, v0).z == Velocity(e, n, t, r1, v1).z
  {
  }

  /**
   * With the in-track rate yd0 = -2 n x0 the secular in-track drift
   * cancels: the in-track position is the initial one plus terms in sin and
   * cos only, hence bounded whenever sin and cos are.
   */
  lemma NoDriftCondition(e: Elementary, n: real, t: real, r0: Vec3, v0: Vec3)
    requires n != 0.0 && v0.y == -2.0 * n * r0.x
    ensures var s, c := e.sin(n * t), e.cos(n * t);
            Position(e, n, t, r0, v0).y == r0.y - 2.0 * s * r0.x - (2.0 / n) * (1.0 - c) * v0.x
  {
    var nt := n * t;
    var s := e.sin(nt);
    var invN := 1.0 / n;
    assert invN * n == 1.0;
    calc {
      invN * (4.0 * s - 3.0 * nt) * v0.y;
      invN * (4.0 * s - 3.0 * nt) * (-2.0 * n * r0.x);
      (invN * n) * (4.0 * s - 3.0 * nt) * (-2.0 * r0.x);
      (4.0 * s - 3.0 * nt) * (-2.0 * r0.x);
    }
  }

  // ---------------------------------------------------------------------
  // predict_hcw
  // ---------------------------------------------------------------------

  /** The first offset the loop rejects, or |tau| when there is none. */
  function FirstBadTau(tau: seq<Double>): (k: nat)
    ensures k <= |tau|
    ensures forall j :: 0 <= j < k ==> TauOk(tau[j])
    ensures k < |tau| ==> !TauOk(tau[k])
  {
    if |tau| == 0 then 0
    else if !TauOk(tau[0]) then 0
    else 1 + FirstBadTau(tau[1..])
  }

  /** The parameter and state checks, in the order the source makes them. */
  predicate InputsValid(n: Double, r0: DVec3, v0: DVec3)
  {
    PositiveFinite(n) && FiniteVec(r0) && FiniteVec(v0)
  }

  /**
   * The result `predict_hcw` reports. Parameters and state are checked
   * first, then the empty grid (fine even without storage), then the
   * position storage, then each offset.
   */
  function Outcome(n: Double, r0: DVec3, v0: DVec3, tau: seq<Double>, outR: Span): (r: Result)
    ensures r.stepsWritten == (if r.code == MOk then |tau| else 0)
    ensures r.code == MOk <==> InputsValid(n, r0, v0) && (|tau| == 0 || (outR.Holds(|tau|) && FirstBadTau(tau) == |tau|))
    ensures r.code == MInsufficientOutputCapacity <==> InputsValid(n, r0, v0) && |tau| > 0 && !outR.Holds(|tau|)
    ensures r.code == MInvalidInput <==>
              !InputsValid(n, r0, v0) || (|tau| > 0 && outR.Holds(|tau|) && FirstBadTau(tau) < |tau|)
  {
    if !PositiveFinite(n) then Result(MInvalidInput, 0)
    else if !FiniteVec(r0) || !FiniteVec(v0) then Result(MInvalidInput, 0)
    else if |tau| == 0 then Result(MOk, 0)
    else if !outR.Holds(|tau|) then Result(MInsufficientOutputCapacity, 0)
    else if FirstBadTau(tau) < |tau| then Result(MInvalidInput, 0)
    else Result(MOk, |tau|)
  }

  /**
   * How many leading entries of the storage the loop fills: every offset
   * before the first bad one, once the checks before the loop pass. This
   * differs from `stepsWritten`, which is 0 on a bad offset.
   */
  function RowsFilled(n: Double, r0: DVec3, v0: DVec3, tau: seq<Double>, outR: Span): (w: nat)
    ensures w <= |tau|
    ensures w > 0 ==> InputsValid(n, r0, v0) && outR.Holds(|tau|) && forall j :: 0 <= j < w ==> TauOk(tau[j])
    ensures Outcome(n, r0, v0, tau, outR).code == MOk ==> w == |tau|
  {
    if InputsValid(n, r0, v0) && |tau| > 0 && outR.Holds(|tau|) then FirstBadTau(tau) else 0
  }

  /** The stored position for offset t. */
  function PositionCell(e: Elementary, n: Double, t: Double, r0: DVec3, v0: DVec3): DVec3
    requires InputsValid(n, r0, v0) && TauOk(t)
  {
    RoundVec(Position(e, n.v, t.v, RealVec(r0), RealVec(v0)))
  }

  /** The stored velocity for offset t. */
  function VelocityCell(e: Elementary, n: Double, t: Double, r0: DVec3, v0: DVec3): DVec3
    requires InputsValid(n, r0, v0) && TauOk(t)
  {
    RoundVec(Velocity(e, n.v, t.v, RealVec(r0), RealVec(v0)))
  }

  /** The stored positions for the first w offsets, row by row. */
  function PositionRows(e: Elementary, n: Double, r0: DVec3, v0: DVec3, tau: seq<Double>, w: nat): (r: seq<DVec3>)
    requires w <= |tau| && (w > 0 ==> InputsValid(n, r0, v0)) && forall j :: 0 <= j < w ==> TauOk(tau[j])
    ensures |r| == w && forall j :: 0 <= j < w ==> r[j] == PositionCell(e, n, tau[j], r0, v0)
  {
    seq(w, j requires 0 <= j < w => PositionCell(e, n, tau[j], r0, v0))
  }

  /** The stored velocities for the first w offsets, row by row. */
  function VelocityRows(e: Elementary, n: Double, r0: DVec3, v0: DVec3, tau: seq<Double>, w: nat): (r: seq<DVec3>)
    requires w <= |tau| && (w > 0 ==> InputsValid(n, r0, v0)) && forall j :: 0 <= j < w ==> TauOk(tau[j])
    ensures |r| == w && forall j :: 0 <= j < w ==> r[j] == VelocityCell(e, n, tau[j], r0, v0)
  {
    seq(w, j requires 0 <= j < w => VelocityCell(e, n, tau[j], r0, v0))
  }

  /** One more usable offset adds one more row of each. */
  lemma RowsNext(e: Elementary, n: Double, r0: DVec3, v0: DVec3, tau: seq<Double>, w: nat)
    requires w < |tau| && InputsValid(n, r0, v0) && forall j :: 0 <= j <= w ==> TauOk(tau[j])
    ensures PositionRows(e, n, r0, v0, tau, w + 1) == PositionRows(e, n, r0, v0, tau, w) + [PositionCell(e, n, tau[w], r0, v0)]
    ensures VelocityRows(e, n, r0, v0, tau, w + 1) == VelocityRows(e, n, r0, v0, tau, w) + [VelocityCell(e, n, tau[w], r0, v0)]
  {
  }

  /**
   * The loop's state after k offsets: the first k rows of position storage
   * hold the first k positions and the rest is as it was; velocities
   * likewise when they are wanted, and untouched storage otherwise.
   */
  ghost predicate Filled(e: Elementary, n: Double, r0: DVec3, v0: DVec3, tau: seq<Double>, outR: Span, outV: Span,
                         wantVel: bool, baseR: seq<DVec3>, baseV: seq<DVec3>, k: nat)
    reads outR.data, outV.data
  {
    && InputsValid(n, r0, v0) && k <= FirstBadTau(tau)
    && outR.data != null && |tau| <= |baseR| == outR.data.Length
    && outR.data[..] == Overwritten(baseR, PositionRows(e, n, r0, v0, tau, k))
    && (wantVel ==> outV.data != null && |tau| <= |baseV| == outV.data.Length
                    && outV.data[..] == Overwritten(baseV, VelocityRows(e, n, r0, v0, tau, k)))
    && (outV.data != null && !wantVel ==> outV.data[..] == baseV)
  }

  /** One pass of the loop on a usable offset: its position, and velocity when wanted, go into row k. */
  method FillRow(e: Elementary, n: Double, r0: DVec3, v0: DVec3, tau: seq<Double>, outR: Span, outV: Span,
                 wantVel: bool, ghost baseR: seq<DVec3>, ghost baseV: seq<DVec3>, k: nat)
    requires k < |tau| && TauOk(tau[k]) && Filled(e, n, r0, v0, tau, outR, outV, wantVel, baseR, baseV, k)
    requires outV.data != null ==> outR.data != outV.data
    modifies outR.data, outV.data
    ensures Filled(e, n, r0, v0, tau, outR, outV, wantVel, baseR, baseV, k + 1)
  {
    var t := tau[k];
    RowsNext(e, n, r0, v0, tau, k);
    StoreRow(outR, outV, wantVel, k, PositionCell(e, n, t, r0, v0), VelocityCell(e, n, t, r0, v0));
    OverwriteNext(baseR, PositionRows(e, n, r0, v0, tau, k), PositionCell(e, n, t, r0, v0));
    if wantVel {
      OverwriteNext(baseV, VelocityRows(e, n, r0, v0, tau, k), VelocityCell(e, n, t, r0, v0));
    }
  }

  /** Before the loop nothing is written: the storage after no rows is the storage as it was. */
  lemma NothingFilled(e: Elementary, n: Double, r0: DVec3, v0: DVec3, tau: seq<Double>, base: seq<DVec3>)
    ensures Overwritten(base, PositionRows(e, n, r0, v0, tau, 0)) == base
    ensures Overwritten(base, VelocityRows(e, n, r0, v0, tau, 0)) == base
  {
  }

  /**
   * `ModelHCW::predict_hcw`. The result is `Outcome`; the first
   * `RowsFilled` positions are written, even when a later offset fails,
   * and nothing else; velocities likewise, but only into storage that is
   * present and large enough for the whole grid.
   */
  method PredictHcw(e: Elementary, r0: DVec3, v0: DVec3, n: Double, tau: seq<Double>, outR: Span, outV: Span)
      returns (res: Result)
    requires outR.InBounds() && outV.InBounds()
    requires outR.data != null && outV.data != null ==> outR.data != outV.data
    modifies outR.data, outV.data
    ensures res == Outcome(n, r0, v0, tau, outR)
    ensures outR.data != null ==>
              outR.data[..] == Overwritten(old(outR.data[..]), PositionRows(e, n, r0, v0, tau, RowsFilled(n, r0, v0, tau, outR)))
    ensures outV.Holds(|tau|) ==>
              outV.data[..] == Overwritten(old(outV.data[..]), VelocityRows(e, n, r0, v0, tau, RowsFilled(n, r0, v0, tau, outR)))
    ensures outV.data != null && !outV.Holds(|tau|) ==> outV.data[..] == old(outV.data[..])
  {
    if outR.data != null {
      NothingFilled(e, n, r0, v0, tau, outR.data[..]);
    }
    if outV.data != null {
      NothingFilled(e, n, r0, v0, tau, outV.data[..]);
    }
    if !(Gt(n, Fin(0.0))) || !n.IsFinite() {
      return Result(MInvalidInput, 0);
    }
    if !FiniteVec(r0) || !FiniteVec(v0) {
      return Result(MInvalidInput, 0);
    }
    var steps := |tau|;
    if steps == 0 {
      return Result(MOk, 0);
    }
    if outR.data == null || outR.size < steps {
      return Result(MInsufficientOutputCapacity, 0);
    }
    res := FillGrid(e, r0, v0, n, tau, outR, outV);
  }

  /** The loop of `predict_hcw`, once the checks before it have passed. */
  method FillGrid(e: Elementary, r0: DVec3, v0: DVec3, n: Double, tau: seq<Double>, outR: Span, outV: Span)
      returns (res: Result)
    requires InputsValid(n, r0, v0) && |tau| > 0 && outR.Holds(|tau|)
    requires outR.InBounds() && outV.InBounds()
    requires outV.data != null ==> outR.data != outV.data
    modifies outR.data, outV.data
    ensures res == Outcome(n, r0, v0, tau, outR)
    ensures outR.data[..] == Overwritten(old(outR.data[..]), PositionRows(e, n, r0, v0, tau, FirstBadTau(tau)))
    ensures outV.Holds(|tau|) ==>
              outV.data[..] == Overwritten(old(outV.data[..]), VelocityRows(e, n, r0, v0, tau, FirstBadTau(tau)))
    ensures outV.data != null && !outV.Holds(|tau|) ==> outV.data[..] == old(outV.data[..])
  {
    var steps := |tau|;
    var wantVel := outV.data != null && outV.size >= steps;
    ghost var baseR := outR.data[..];
    ghost var baseV := if outV.data != null then outV.data[..] else [];
    NothingFilled(e, n, r0, v0, tau, baseR);
    NothingFilled(e, n, r0, v0, tau, baseV);
    var k := 0;
    while k < steps
      invariant k <= steps && Filled(e, n, r0, v0, tau, outR, outV, wantVel, baseR, baseV, k)
    {
      var t := tau[k];
      if !Ge(t, Fin(0.0)) || !t.IsFinite() {
        assert FirstBadTau(tau) == k;
        return Result(MInvalidInput, 0);
      }
      FillRow(e, n, r0, v0, tau, outR, outV, wantVel, baseR, baseV, k);
      k := k + 1;
    }
    return Result(MOk, steps);
  }

  /** An empty grid succeeds with nothing written, even without any storage. */
  lemma EmptyGridNeedsNoStorage(n: Double, r0: DVec3, v0: DVec3)
    requires InputsValid(n, r0, v0)
    ensures Outcome(n, r0, v0, [], NoSpan) == Result(MOk, 0)
  {
  }

  /** Storage is only checked after the parameters and state: a bad mean motion wins. */
  lemma ParametersBeforeCapacity(n: Double, r0: DVec3, v0: DVec3, tau: seq<Double>, outR: Span)
    requires !PositiveFinite(n)
    ensures Outcome(n, r0, v0, tau, outR) == Result(MInvalidInput, 0)
  {
  }

  /** A NaN mean motion is rejected: `!(n > 0)` holds for NaN. */
  lemma NaNMeanMotionRejected(r0: DVec3, v0: DVec3, tau: seq<Double>, outR: Span)
    ensures Outcome(NaN, r0, v0, tau, outR).code == MInvalidInput
  {
  }
}
