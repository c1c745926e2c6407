// Construction of the Bullseye RIC frame from the chief's inertial state
// (core/bullseye_frame_math.cpp): R along the position, C along the angular
// momentum, I = C x R, re-orthonormalised, with omega = |r x v| / |r|^2
// about C.
module FrameMath {
  import opened Num
  import opened Types
  import opened Contracts
  import opened Wrappers

  datatype ConstructedRicFrame = ConstructedRicFrame(
    timeTag: Double,
    origin: DVec3,          // == chief.r
    C: Mat3,                // RIC -> inertial, columns R, I, C
    omegaRic: Vec3,
    hasOmega: bool,
    omegaCoords: OmegaCoords,
    frameKind: FrameKind,
    axisOrder: AxisOrder,
    status: ProviderStatus)

  /** The output before anything past the time tag and origin is filled in: the header's defaults and `code`. */
  function Blank(chief: ChiefState, code: ProviderCode): ConstructedRicFrame
  {
    ConstructedRicFrame(chief.timeTag, chief.r, Identity, Zero, true, OmegaRIC, BullseyeRIC, RIC, ProviderStatus(code))
  }

  /** `isfinite` on each component of a computed vector. */
  predicate RepresentableVec(v: Vec3) { Representable(v.x) && Representable(v.y) && Representable(v.z) }

  /**
   * `unit_or_fail`: v / n when n is a positive finite number; otherwise the
   * zero vector, with the flag cleared. The flag is never set back.
   */
  function UnitOrFail(v: Vec3, n: real, ok: bool): (res: (Vec3, bool))
    ensures res.1 <==> ok && n > 0.0 && Representable(n)
    ensures !(n > 0.0 && Representable(n)) ==> res.0 == Zero
  {
    if !(n > 0.0) || !Representable(n) then (Zero, false)
    else (Scale(1.0 / n, v), ok)
  }

  /** Dividing by the vector's own norm, when that succeeds, gives a unit vector pointing the same way. */
  lemma UnitOrFailIsUnit(e: Elementary, v: Vec3, ok: bool)
    requires SqrtLaw(e.sqrt) && UnitOrFail(v, Norm(e, v), ok).1
    ensures Dot(UnitOrFail(v, Norm(e, v), ok).0, UnitOrFail(v, Norm(e, v), ok).0) == 1.0
    ensures exists k :: k > 0.0 && UnitOrFail(v, Norm(e, v), ok).0 == Scale(k, v)
  {
    Normalised(e, v);
    assert 1.0 / Norm(e, v) > 0.0;
  }

  /** The three axes, as the source computes them, and the `ok` flag threaded through. */
  datatype Triad = Triad(eR: Vec3, eI: Vec3, eC: Vec3, ok: bool)

  function BuildTriad(e: Elementary, r: Vec3, h: Vec3, rNorm: real, hNorm: real): Triad
  {
    var (eR, ok1) := UnitOrFail(r, rNorm, true);
    var (_, ok2) := UnitOrFail(h, hNorm, ok1);       // first cross-track estimate, replaced below
    var t := Cross(h, r);                              // h x r = |r|^2 v - (r . v) r
    var (eI0, ok3) := UnitOrFail(t, Norm(e, t), ok2);
    var c := Cross(eR, eI0);                           // C = R x I
    var (eC, ok4) := UnitOrFail(c, Norm(e, c), ok3);
    var i := Cross(eC, eR);                            // I = C x R
    var (eI, ok5) := UnitOrFail(i, Norm(e, i), ok4);
    Triad(eR, eI, eC, ok5)
  }

  /** Three mutually orthogonal unit vectors with R x I = C. */
  predicate RightHandedOrthonormal(R: Vec3, I: Vec3, C: Vec3)
  {
    Dot(R, R) == 1.0 && Dot(I, I) == 1.0 && Dot(C, C) == 1.0
    && Dot(R, I) == 0.0 && Dot(R, C) == 0.0 && Dot(I, C) == 0.0
    && Cross(R, I) == C
  }

  /** The matrix with columns a, b, c. */
  function Columns(a: Vec3, b: Vec3, c: Vec3): Mat3
  {
    M3(V3(a.x, b.x, c.x), V3(a.y, b.y, c.y), V3(a.z, b.z, c.z))
  }

  /** Column j of M. */
  function Column(M: Mat3, j: nat): Vec3
    requires j < 3
  {
    V3(M.At(0, j), M.At(1, j), M.At(2, j))
  }

  lemma ColumnsOf(a: Vec3, b: Vec3, c: Vec3)
    ensures Column(Columns(a, b, c), 0) == a && Column(Columns(a, b, c), 1) == b && Column(Columns(a, b, c), 2) == c
  {
  }

  /** `construct_ric_from_chief`. */
  function Construct(e: Elementary, chief: ChiefState): (out: ConstructedRicFrame)
    ensures out.timeTag == chief.timeTag && out.origin == chief.r
    ensures out.hasOmega && out.omegaCoords == OmegaRIC && out.frameKind == BullseyeRIC && out.axisOrder == RIC
  {
    if !chief.status.Ok() then Blank(chief, KNotAvailable)
    else if !FiniteVec(chief.r) || !FiniteVec(chief.v) then Blank(chief, KInvalidInput)
    else
      var r, v := RealVec(chief.r), RealVec(chief.v);
      var rNorm, vNorm := Norm(e, r), Norm(e, v);
      if !(rNorm >= Rmin) || !(vNorm >= Vmin) then Blank(chief, KNotAvailable)
      else
        var h := Cross(r, v);
        var hNorm := Norm(e, h);
        var hHat := HHat(hNorm, rNorm, vNorm);
        if !(hHat >= HhatMin) || !Representable(hHat) then Blank(chief, KNotAvailable)
        else
          var T := BuildTriad(e, r, h, rNorm, hNorm);
          if !T.ok || !RepresentableVec(T.eR) || !RepresentableVec(T.eI) || !RepresentableVec(T.eC) then
            Blank(chief, KInternalError)
          else
            var C := Columns(T.eR, T.eI, T.eC);
            var omegaMag := OmegaMagnitude(hNorm, rNorm);
            if !Representable(omegaMag) then Blank(chief, KInternalError).(C := C)
            else Blank(chief, KOk).(C := C, omegaRic := V3(0.0, 0.0, omegaMag))
  }

  /** The dimensionless degeneracy measure |r x v| / (|r| |v|) = sin(theta). */
  function HHat(hNorm: real, rNorm: real, vNorm: real): real
    requires rNorm >= Rmin && vNorm >= Vmin
  {
    PositiveProduct(rNorm, vNorm);
    hNorm / (rNorm * vNorm)
  }

  /** |h| / |r|^2 */
  function OmegaMagnitude(hNorm: real, rNorm: real): real
    requires rNorm >= Rmin
  {
    PositiveProduct(rNorm, rNorm);
    hNorm / (rNorm * rNorm)
  }

  lemma PositiveProduct(a: real, b: real)
    requires a > 0.0 && b > 0.0
    ensures a * b > 0.0
  {
  }

  /**
   * When every normalisation succeeds, the axes are orthonormal and
   * right-handed, and the in-track axis is h x r scaled by a positive factor.
   */
  lemma TriadOrthonormal(e: Elementary, r: Vec3, h: Vec3, rNorm: real, hNorm: real)
    requires SqrtLaw(e.sqrt) && rNorm == Norm(e, r)
    requires BuildTriad(e, r, h, rNorm, hNorm).ok
    ensures var T := BuildTriad(e, r, h, rNorm, hNorm);
      RightHandedOrthonormal(T.eR, T.eI, T.eC)
    ensures var T := BuildTriad(e, r, h, rNorm, hNorm);
      exists k :: k > 0.0 && T.eI == Scale(k, Cross(h, r))
  {
    var T := BuildTriad(e, r, h, rNorm, hNorm);
    var (eR, ok1) := UnitOrFail(r, rNorm, true);
    var (_, ok2) := UnitOrFail(h, hNorm, ok1);
    var t := Cross(h, r);
    var (eI0, ok3) := UnitOrFail(t, Norm(e, t), ok2);
    var c := Cross(eR, eI0);
    var (eC, ok4) := UnitOrFail(c, Norm(e, c), ok3);
    var i := Cross(eC, eR);
    assert T.eR == eR;
    // R and the first in-track estimate are orthogonal unit vectors
    UnitOrFailIsUnit(e, r, true);
    UnitOrFailIsUnit(e, t, ok2);
    InTrackOrthogonal(e, r, h, rNorm, Norm(e, t));
    assert Dot(eR, eI0) == 0.0;
    // so their cross product is already a unit vector, orthogonal to both
    LagrangeIdentity(eR, eI0);
    UnitNorm(e, c);
    assert eC == c;
    CrossOrthogonal(eR, eI0);
    // and C x R gives back the in-track estimate
    CrossOrthogonal(c, eR);
    TripleProductExpansion(eR, eR, eI0);
    assert i == eI0;
    UnitNorm(e, i);
    assert T.eI == eI0 && T.eC == c;
  }

  /** R = r / |r| is orthogonal to (h x r) / |h x r|. */
  lemma InTrackOrthogonal(e: Elementary, r: Vec3, h: Vec3, rNorm: real, tNorm: real)
    requires rNorm > 0.0 && tNorm > 0.0
    ensures Dot(Scale(1.0 / rNorm, r), Scale(1.0 / tNorm, Cross(h, r))) == 0.0
  {
    CrossOrthogonal(h, r);
    assert Dot(r, Cross(h, r)) == Dot(Cross(h, r), r);
    ScaleBilinear(1.0 / rNorm, r, Scale(1.0 / tNorm, Cross(h, r)));
    ScaleBilinear(1.0 / tNorm, r, Cross(h, r));
  }

  /** The guard chain: an unusable chief is kNotAvailable, a non-finite one kInvalidInput. */
  lemma ConstructRejectsBadChief(e: Elementary, chief: ChiefState)
    ensures !chief.status.Ok() ==> Construct(e, chief).status.code == KNotAvailable
    ensures chief.status.Ok() && (!FiniteVec(chief.r) || !FiniteVec(chief.v)) ==>
      Construct(e, chief).status.code == KInvalidInput
  {
  }

  /** A chief too close to the origin, too slow, or moving (nearly) radially gives kNotAvailable. */
  lemma ConstructRejectsDegenerate(e: Elementary, chief: ChiefState)
    requires chief.status.Ok() && FiniteVec(chief.r) && FiniteVec(chief.v)
    ensures var r, v := RealVec(chief.r), RealVec(chief.v);
      Norm(e, r) < Rmin || Norm(e, v) < Vmin ==> Construct(e, chief).status.code == KNotAvailable
    ensures var r, v := RealVec(chief.r), RealVec(chief.v);
      Norm(e, r) >= Rmin && Norm(e, v) >= Vmin && HHat(Norm(e, Cross(r, v)), Norm(e, r), Norm(e, v)) < HhatMin ==>
        Construct(e, chief).status.code == KNotAvailable
  {
  }

  /** The only status codes the constructor reports. */
  lemma ConstructStatusCodes(e: Elementary, chief: ChiefState)
    ensures Construct(e, chief).status.code in {KOk, KNotAvailable, KInvalidInput, KInternalError}
  {
  }

  /**
   * On success the chief was usable and non-degenerate, the columns of the
   * DCM are a right-handed orthonormal triad, and omega is (0, 0, |r x v| / |r|^2).
   */
  lemma ConstructSuccess(e: Elementary, chief: ChiefState)
    requires SqrtLaw(e.sqrt) && Construct(e, chief).status.Ok()
    ensures chief.status.Ok() && FiniteVec(chief.r) && FiniteVec(chief.v)
    ensures var out, r, v := Construct(e, chief), RealVec(chief.r), RealVec(chief.v);
      Norm(e, r) >= Rmin && Norm(e, v) >= Vmin
      && HHat(Norm(e, Cross(r, v)), Norm(e, r), Norm(e, v)) >= HhatMin
      && out.omegaRic == V3(0.0, 0.0, OmegaMagnitude(Norm(e, Cross(r, v)), Norm(e, r)))
      && Representable(OmegaMagnitude(Norm(e, Cross(r, v)), Norm(e, r)))
    ensures var C := Construct(e, chief).C;
      RightHandedOrthonormal(Column(C, 0), Column(C, 1), Column(C, 2))
  {
    var r, v := RealVec(chief.r), RealVec(chief.v);
    var h := Cross(r, v);
    var T := BuildTriad(e, r, h, Norm(e, r), Norm(e, h));
    TriadOrthonormal(e, r, h, Norm(e, r), Norm(e, h));
    ColumnsOf(T.eR, T.eI, T.eC);
  }

  /** On success the in-track column is h x r = (r x v) x r scaled by a positive factor. */
  lemma ConstructInTrack(e: Elementary, chief: ChiefState)
    requires SqrtLaw(e.sqrt) && Construct(e, chief).status.Ok()
    ensures FiniteVec(chief.r) && FiniteVec(chief.v)
    ensures var r, v := RealVec(chief.r), RealVec(chief.v);
      exists k :: k > 0.0 && Column(Construct(e, chief).C, 1) == Scale(k, Cross(Cross(r, v), r))
  {
    var r, v := RealVec(chief.r), RealVec(chief.v);
    var h := Cross(r, v);
    var T := BuildTriad(e, r, h, Norm(e, r), Norm(e, h));
    TriadOrthonormal(e, r, h, Norm(e, r), Norm(e, h));
    ColumnsOf(T.eR, T.eI, T.eC);
  }

  /** The path through every guard: what the constructor returns once each check passes. */
  lemma ConstructSucceeds(e: Elementary, chief: ChiefState)
    requires chief.status.Ok() && FiniteVec(chief.r) && FiniteVec(chief.v)
    requires Norm(e, RealVec(chief.r)) >= Rmin && Norm(e, RealVec(chief.v)) >= Vmin
    requires var r, v := RealVec(chief.r), RealVec(chief.v);
      HHat(Norm(e, Cross(r, v)), Norm(e, r), Norm(e, v)) >= HhatMin
      && Representable(HHat(Norm(e, Cross(r, v)), Norm(e, r), Norm(e, v)))
    requires var r, v := RealVec(chief.r), RealVec(chief.v);
      var T := BuildTriad(e, r, Cross(r, v), Norm(e, r), Norm(e, Cross(r, v)));
      T.ok && RepresentableVec(T.eR) && RepresentableVec(T.eI) && RepresentableVec(T.eC)
    requires var r, v := RealVec(chief.r), RealVec(chief.v);
      Representable(OmegaMagnitude(Norm(e, Cross(r, v)), Norm(e, r)))
    ensures var r, v := RealVec(chief.r), RealVec(chief.v);
      var T := BuildTriad(e, r, Cross(r, v), Norm(e, r), Norm(e, Cross(r, v)));
      Construct(e, chief) == Blank(chief, KOk).(C := Columns(T.eR, T.eI, T.eC),
                                                 omegaRic := V3(0.0, 0.0, OmegaMagnitude(Norm(e, Cross(r, v)), Norm(e, r))))
  {
  }

  /** A positive multiple x of a coordinate axis has norm x, and unit_or_fail with that norm gives back the axis. */
  lemma AxisUnit(e: Elementary, x: real, ok: bool)
    requires SqrtLaw(e.sqrt) && 0.0 < x <= MaxFinite
    ensures Norm(e, V3(x, 0.0, 0.0)) == x && UnitOrFail(V3(x, 0.0, 0.0), x, ok) == (V3(1.0, 0.0, 0.0), ok)
    ensures Norm(e, V3(0.0, x, 0.0)) == x && UnitOrFail(V3(0.0, x, 0.0), x, ok) == (V3(0.0, 1.0, 0.0), ok)
    ensures Norm(e, V3(0.0, 0.0, x)) == x && UnitOrFail(V3(0.0, 0.0, x), x, ok) == (V3(0.0, 0.0, 1.0), ok)
  {
    SqrtOfSquare(e, x);
    assert Dot(V3(x, 0.0, 0.0), V3(x, 0.0, 0.0)) == x * x;
    assert Dot(V3(0.0, x, 0.0), V3(0.0, x, 0.0)) == x * x;
    assert Dot(V3(0.0, 0.0, x), V3(0.0, 0.0, x)) == x * x;
    assert (1.0 / x) * x == 1.0 && (1.0 / x) * 0.0 == 0.0;
    assert Scale(1.0 / x, V3(x, 0.0, 0.0)) == V3(1.0, 0.0, 0.0);
    assert Scale(1.0 / x, V3(0.0, x, 0.0)) == V3(0.0, 1.0, 0.0);
    assert Scale(1.0 / x, V3(0.0, 0.0, x)) == V3(0.0, 0.0, 1.0);
  }

  /** BuildTriad read off from the outcome of each of its normalisations. */
  lemma TriadSteps(e: Elementary, r: Vec3, h: Vec3, rNorm: real, hNorm: real, eR: Vec3, eI: Vec3, eC: Vec3)
    requires UnitOrFail(r, rNorm, true) == (eR, true) && UnitOrFail(h, hNorm, true).1
    requires UnitOrFail(Cross(h, r), Norm(e, Cross(h, r)), true) == (eI, true)
    requires UnitOrFail(Cross(eR, eI), Norm(e, Cross(eR, eI)), true) == (eC, true)
    requires UnitOrFail(Cross(eC, eR), Norm(e, Cross(eC, eR)), true) == (eI, true)
    ensures BuildTriad(e, r, h, rNorm, hNorm) == Triad(eR, eI, eC, true)
  {
  }

  /** With r along +x and h along +z (so h x r lies along +y), the triad is the inertial axes themselves. */
  lemma AlignedTriad(e: Elementary, a: real, p: real, q: real)
    requires SqrtLaw(e.sqrt) && 0.0 < a <= MaxFinite && 0.0 < p <= MaxFinite && 0.0 < q <= MaxFinite
    requires Cross(V3(0.0, 0.0, p), V3(a, 0.0, 0.0)) == V3(0.0, q, 0.0)
    ensures BuildTriad(e, V3(a, 0.0, 0.0), V3(0.0, 0.0, p), a, p) == Triad(V3(1.0, 0.0, 0.0), V3(0.0, 1.0, 0.0), V3(0.0, 0.0, 1.0), true)
  {
    AxisUnit(e, a, true);
    AxisUnit(e, p, true);
    AxisUnit(e, q, true);
    AxisUnit(e, 1.0, true);
    assert Cross(V3(1.0, 0.0, 0.0), V3(0.0, 1.0, 0.0)) == V3(0.0, 0.0, 1.0);
    assert Cross(V3(0.0, 0.0, 1.0), V3(1.0, 0.0, 0.0)) == V3(0.0, 1.0, 0.0);
    TriadSteps(e, V3(a, 0.0, 0.0), V3(0.0, 0.0, p), a, p, V3(1.0, 0.0, 0.0), V3(0.0, 1.0, 0.0), V3(0.0, 0.0, 1.0));
  }

  /** The scalar side of the aligned case: |h| = a b, hHat = 1 and omega = b / a. */
  lemma AlignedArithmetic(a: real, b: real)
    requires a >= Rmin && b >= Vmin
    ensures 0.0 < b <= a * b <= a * b * a
    ensures HHat(a * b, a, b) == 1.0
    ensures OmegaMagnitude(a * b, a) == b / a && 0.0 < b / a <= b
  {
    PositiveProduct(a, b);
    assert a * b - b == (a - 1.0) * b;
    assert a * b * a - a * b == (a * b) * (a - 1.0);
    PositiveProduct(a, a);
    assert (a * b) / (a * a) == b / a;
    assert b / a * a == b;
  }

  /** The norms and the triad for r = (a, 0, 0), v = (0, b, 0). */
  lemma AlignedFrameParts(e: Elementary, a: real, b: real)
    requires SqrtLaw(e.sqrt)
    requires a >= Rmin && b >= Vmin && a * b * a <= MaxFinite
    ensures var r, v := V3(a, 0.0, 0.0), V3(0.0, b, 0.0);
      Norm(e, r) == a && Norm(e, v) == b && Norm(e, Cross(r, v)) == a * b
      && BuildTriad(e, r, Cross(r, v), a, a * b) == Triad(V3(1.0, 0.0, 0.0), V3(0.0, 1.0, 0.0), V3(0.0, 0.0, 1.0), true)
  {
    var r, v := V3(a, 0.0, 0.0), V3(0.0, b, 0.0);
    AlignedArithmetic(a, b);
    var p, q := a * b, a * b * a;
    assert Cross(r, v) == V3(0.0, 0.0, p);
    assert Cross(V3(0.0, 0.0, p), r) == V3(0.0, q, 0.0);
    AxisUnit(e, a, true);
    AxisUnit(e, b, true);
    AxisUnit(e, p, true);
    AlignedTriad(e, a, p, q);
  }

  /** Every guard of the constructor passes for r = (a, 0, 0), v = (0, b, 0), and the axes form the identity. */
  lemma AlignedGuards(e: Elementary, a: real, b: real)
    requires SqrtLaw(e.sqrt)
    requires a >= Rmin && b >= Vmin && a * b * a <= MaxFinite
    ensures var r, v := V3(a, 0.0, 0.0), V3(0.0, b, 0.0);
      Norm(e, r) >= Rmin && Norm(e, v) >= Vmin
      && HHat(Norm(e, Cross(r, v)), Norm(e, r), Norm(e, v)) >= HhatMin
      && Representable(HHat(Norm(e, Cross(r, v)), Norm(e, r), Norm(e, v)))
    ensures var r, v := V3(a, 0.0, 0.0), V3(0.0, b, 0.0);
      var T := BuildTriad(e, r, Cross(r, v), Norm(e, r), Norm(e, Cross(r, v)));
      T.ok && RepresentableVec(T.eR) && RepresentableVec(T.eI) && RepresentableVec(T.eC)
      && Columns(T.eR, T.eI, T.eC) == Identity
    ensures var r, v := V3(a, 0.0, 0.0), V3(0.0, b, 0.0);
      OmegaMagnitude(Norm(e, Cross(r, v)), Norm(e, r)) == b / a
      && Representable(OmegaMagnitude(Norm(e, Cross(r, v)), Norm(e, r)))
  {
    AlignedArithmetic(a, b);
    AlignedFrameParts(e, a, b);
    assert Columns(V3(1.0, 0.0, 0.0), V3(0.0, 1.0, 0.0), V3(0.0, 0.0, 1.0)) == Identity;
  }

  /**
   * A chief on the +x axis moving along +y (r = (a, 0, 0), v = (0, b, 0)) gets
   * the inertial frame itself (R = +x, I = +y, C = +z) and omega = b / a about
   * C, whenever |r| and |v| pass their floors and |h x r| = a^2 b is finite.
   */
  lemma AlignedChiefFrame(e: Elementary, chief: ChiefState, a: real, b: real)
    requires SqrtLaw(e.sqrt)
    requires chief.status.Ok()
    requires chief.r == DV3(Fin(a), Fin(0.0), Fin(0.0)) && chief.v == DV3(Fin(0.0), Fin(b), Fin(0.0))
    requires a >= Rmin && b >= Vmin && a * b * a <= MaxFinite
    ensures Construct(e, chief) == Blank(chief, KOk).(C := Identity, omegaRic := V3(0.0, 0.0, b / a))
  {
    assert RealVec(chief.r) == V3(a, 0.0, 0.0) && RealVec(chief.v) == V3(0.0, b, 0.0);
    AlignedGuards(e, a, b);
    ConstructSucceeds(e, chief);
  }

  /**
   * The circular example r = (7000 km, 0, 0), v = (0, 7.5 km/s, 0): the
   * identity DCM and omega = |v| / |r| = 7500 / 7000e3 rad/s about C.
   */
  lemma CircularChiefFrame(e: Elementary, chief: ChiefState)
    requires SqrtLaw(e.sqrt)
    requires chief.status.Ok()
    requires chief.r == DV3(Fin(7000.0e3), Fin(0.0), Fin(0.0)) && chief.v == DV3(Fin(0.0), Fin(7500.0), Fin(0.0))
    ensures Construct(e, chief).status.Ok() && Construct(e, chief).C == Identity
    ensures Construct(e, chief).omegaRic == V3(0.0, 0.0, chief.v.y.v / chief.r.x.v)
  {
    AlignedChiefFrame(e, chief, 7000.0e3, 7500.0);
  }
}
