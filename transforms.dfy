// Relative-state transforms between the inertial frame and a rotating RIC
// frame (core/frame_transforms.cpp), over the reals.
module Transforms {
  import opened Num
  import opened Types
  import opened FrameMath

  /** A relative state: position and velocity. */
  datatype RelState = RelState(r: Vec3, v: Vec3)

  /**
   * `inertial_to_ric_relative`: rotate the inertial offset from the chief
   * into RIC, and remove the frame's rotation omega x r from the velocity.
   */
  function InertialToRic(vehR: Vec3, vehV: Vec3, chiefR: Vec3, chiefV: Vec3, Ci2r: Mat3, omega: Vec3): (s: RelState)
  {
    var rRic := MulV(Ci2r, Sub(vehR, chiefR));
    RelState(rRic, Sub(MulV(Ci2r, Sub(vehV, chiefV)), Cross(omega, rRic)))
  }

  /** `ric_to_inertial_relative`: the inverse map, adding the rotation back before rotating out. */
  function RicToInertial(relR: Vec3, relV: Vec3, chiefR: Vec3, chiefV: Vec3, Cr2i: Mat3, omega: Vec3): (s: RelState)
  {
    RelState(Add(chiefR, MulV(Cr2i, relR)), Add(chiefV, MulV(Cr2i, Add(relV, Cross(omega, relR)))))
  }

  lemma AddSubCancel(a: Vec3, b: Vec3)
    ensures Add(b, Sub(a, b)) == a
    ensures Add(Sub(a, b), b) == a
    ensures Sub(Add(a, b), b) == a
    ensures Sub(Add(b, a), b) == a
  {
  }

  /**
   * Out to RIC and back is the identity whenever the two DCMs are inverse,
   * C_r2i * C_i2r = I: the original inertial state comes back exactly.
   */
  lemma RoundTrip(vehR: Vec3, vehV: Vec3, chiefR: Vec3, chiefV: Vec3, Ci2r: Mat3, Cr2i: Mat3, omega: Vec3)
    requires MulM(Cr2i, Ci2r) == Identity
    ensures var rel := InertialToRic(vehR, vehV, chiefR, chiefV, Ci2r, omega);
      RicToInertial(rel.r, rel.v, chiefR, chiefV, Cr2i, omega) == RelState(vehR, vehV)
  {
    var rel := InertialToRic(vehR, vehV, chiefR, chiefV, Ci2r, omega);
    var dr, dv := Sub(vehR, chiefR), Sub(vehV, chiefV);
    var w := Cross(omega, rel.r);
    assert MulV(Cr2i, rel.r) == dr by {
      MulAssoc(Cr2i, Ci2r, dr);
      IdentityNeutral(dr, Ci2r);
    }
    assert Add(rel.v, w) == MulV(Ci2r, dv) by {
      AddSubCancel(MulV(Ci2r, dv), w);
    }
    assert MulV(Cr2i, MulV(Ci2r, dv)) == dv by {
      MulAssoc(Cr2i, Ci2r, dv);
      IdentityNeutral(dv, Ci2r);
    }
    AddSubCancel(vehR, chiefR);
    AddSubCancel(vehV, chiefV);
  }

  /** The other direction: into inertial and back to RIC, when C_i2r * C_r2i = I. */
  lemma RoundTripFromRic(relR: Vec3, relV: Vec3, chiefR: Vec3, chiefV: Vec3, Ci2r: Mat3, Cr2i: Mat3, omega: Vec3)
    requires MulM(Ci2r, Cr2i) == Identity
    ensures var st := RicToInertial(relR, relV, chiefR, chiefV, Cr2i, omega);
      InertialToRic(st.r, st.v, chiefR, chiefV, Ci2r, omega) == RelState(relR, relV)
  {
    var st := RicToInertial(relR, relV, chiefR, chiefV, Cr2i, omega);
    var u := Add(relV, Cross(omega, relR));
    AddSubCancel(MulV(Cr2i, relR), chiefR);
    AddSubCancel(MulV(Cr2i, u), chiefV);
    assert Sub(st.r, chiefR) == MulV(Cr2i, relR);
    assert Sub(st.v, chiefV) == MulV(Cr2i, u);
    assert MulV(Ci2r, MulV(Cr2i, relR)) == relR by {
      MulAssoc(Ci2r, Cr2i, relR);
      IdentityNeutral(relR, Cr2i);
    }
    assert MulV(Ci2r, MulV(Cr2i, u)) == u by {
      MulAssoc(Ci2r, Cr2i, u);
      IdentityNeutral(u, Cr2i);
    }
    AddSubCancel(relV, Cross(omega, relR));
  }

  /** A deputy in exactly the chief's state is at the RIC origin, at rest. */
  lemma ChiefMapsToZero(chiefR: Vec3, chiefV: Vec3, Ci2r: Mat3, omega: Vec3)
    ensures InertialToRic(chiefR, chiefV, chiefR, chiefV, Ci2r, omega) == RelState(Zero, Zero)
  {
    assert Sub(chiefR, chiefR) == Zero && Sub(chiefV, chiefV) == Zero;
    MulVLinear(Ci2r, Zero, Zero);
  }

  /**
   * Without rotation the velocity is just the rotated velocity difference,
   * and the inverse just rotates back.
   */
  lemma NoRotation(vehR: Vec3, vehV: Vec3, chiefR: Vec3, chiefV: Vec3, C: Mat3)
    ensures InertialToRic(vehR, vehV, chiefR, chiefV, C, Zero).v == MulV(C, Sub(vehV, chiefV))
    ensures RicToInertial(vehR, vehV, chiefR, chiefV, C, Zero).v == Add(chiefV, MulV(C, vehV))
  {
  }

  /** The RIC position does not depend on velocities or on omega. */
  lemma PositionIgnoresVelocity(vehR: Vec3, vehV: Vec3, vehV': Vec3, chiefR: Vec3, chiefV: Vec3, chiefV': Vec3,
                                C: Mat3, omega: Vec3, omega': Vec3)
    ensures InertialToRic(vehR, vehV, chiefR, chiefV, C, omega).r == InertialToRic(vehR, vehV', chiefR, chiefV', C, omega').r
  {
  }

  /** The Gram matrix of a matrix's columns: C^T C holds the dot products of columns. */
  lemma GramOfColumns(C: Mat3)
    ensures var a, b, c := Column(C, 0), Column(C, 1), Column(C, 2);
      MulM(Transpose(C), C) == M3(V3(Dot(a, a), Dot(a, b), Dot(a, c)),
                                  V3(Dot(b, a), Dot(b, b), Dot(b, c)),
                                  V3(Dot(c, a), Dot(c, b), Dot(c, c)))
  {
    var a, b, c := Column(C, 0), Column(C, 1), Column(C, 2);
    assert a == V3(C.r0.x, C.r1.x, C.r2.x) && b == V3(C.r0.y, C.r1.y, C.r2.y) && c == V3(C.r0.z, C.r1.z, C.r2.z);
    assert Transpose(C) == M3(a, b, c);
    assert RowTimes(a, C) == V3(Dot(a, a), Dot(a, b), Dot(a, c));
    assert RowTimes(b, C) == V3(Dot(b, a), Dot(b, b), Dot(b, c));
    assert RowTimes(c, C) == V3(Dot(c, a), Dot(c, b), Dot(c, c));
  }

  /** A matrix with orthonormal columns is inverted by its transpose on the left. */
  lemma OrthonormalColumnsInverse(C: Mat3)
    requires RightHandedOrthonormal(Column(C, 0), Column(C, 1), Column(C, 2))
    ensures MulM(Transpose(C), C) == Identity
  {
    GramOfColumns(C);
    var a, b, c := Column(C, 0), Column(C, 1), Column(C, 2);
    assert Dot(b, a) == Dot(a, b) && Dot(c, a) == Dot(a, c) && Dot(c, b) == Dot(b, c);
  }

  /**
   * For a frame the constructor accepts, with C_i2r = transpose(C_r2i) as
   * the predictor passes it, a RIC state sent to inertial and back is
   * unchanged.
   */
  lemma ConstructedFrameRoundTrip(e: Elementary, chief: Types.ChiefState, relR: Vec3, relV: Vec3, omega: Vec3)
    requires SqrtLaw(e.sqrt) && Construct(e, chief).status.Ok()
    ensures var C := Construct(e, chief).C;
      var cr, cv := RealVec(chief.r), RealVec(chief.v);
      var st := RicToInertial(relR, relV, cr, cv, C, omega);
      InertialToRic(st.r, st.v, cr, cv, Transpose(C), omega) == RelState(relR, relV)
  {
    var C := Construct(e, chief).C;
    ConstructSuccess(e, chief);
    OrthonormalColumnsInverse(C);
    RoundTripFromRic(relR, relV, RealVec(chief.r), RealVec(chief.v), Transpose(C), C, omega);
  }
}
