// The pieces the relative-dynamics models share (models/relative_model.hpp):
// the status codes, the result record and the caller-owned output view.
module RelativeModel {
  import opened Num
  import opened Types

  /** ModelCode */
  datatype ModelCode = MOk | MInvalidInput | MInsufficientOutputCapacity

  /** IRelativeModel::Result: a code and the number of grid steps written. */
  datatype Result = Result(code: ModelCode, stepsWritten: nat)

  /**
   * Span<Vec3>: a raw pointer (possibly null) and a length. The source does
   * no bounds checking, so a caller's view never runs past its storage.
   */
  datatype Span = Span(data: array?<DVec3>, size: nat)
  {
    predicate InBounds() { data != null ==> size <= data.Length }

    /** Non-null and holding at least `n` elements. */
    predicate Holds(n: nat) { data != null && size >= n }
  }

  /** The empty span `{nullptr, 0}`. */
  const NoSpan: Span := Span(null, 0)

  /** A usable grid offset (both models test it the same way): `!(t >= 0) || !isfinite(t)` rejects everything else, NaN included. */
  predicate TauOk(t: Double) { Ge(t, Fin(0.0)) && t.IsFinite() }

  /** The storage after its leading rows are overwritten with `cells`; the rows past them keep their contents. */
  function Overwritten(base: seq<DVec3>, cells: seq<DVec3>): (r: seq<DVec3>)
    requires |cells| <= |base|
    ensures |r| == |base|
    ensures forall j :: 0 <= j < |cells| ==> r[j] == cells[j]
    ensures forall j :: |cells| <= j < |base| ==> r[j] == base[j]
  {
    cells + base[|cells|..]
  }

  /** Writing one more row after the overwritten ones extends the overwrite by that row. */
  lemma OverwriteNext(base: seq<DVec3>, cells: seq<DVec3>, x: DVec3)
    requires |cells| < |base|
    ensures Overwritten(base, cells)[|cells| := x] == Overwritten(base, cells + [x])
  {
  }

  /**
   * The stores of one grid step: the position into row i, and the velocity
   * into row i of its own storage when velocities are wanted.
   */
  method StoreRow(outR: Span, outV: Span, wantVel: bool, i: nat, pos: DVec3, vel: DVec3)
    requires outR.data != null && i < outR.data.Length
    requires wantVel ==> outV.data != null && i < outV.data.Length
    requires outV.data != null ==> outR.data != outV.data
    modifies outR.data, outV.data
    ensures outR.data[..] == old(outR.data[..])[i := pos]
    ensures outV.data != null ==> outV.data[..] == if wantVel then old(outV.data[..])[i := vel] else old(outV.data[..])
  {
    outR.data[i] := pos;
    if wantVel {
      outV.data[i] := vel;
    }
  }

  /** A double vector holding an exact real vector (overflow to infinity per component). */
  function RoundVec(v: Vec3): (d: DVec3)
    ensures FiniteVec(d) ==> RealVec(d) == v
  {
    DV3(Round(v.x), Round(v.y), Round(v.z))
  }

  /** The zero vector stays zero once stored. */
  lemma RoundZero()
    ensures RoundVec(Zero) == ZeroD
  {
  }
}
