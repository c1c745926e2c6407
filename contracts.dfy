// Thresholds, policy constants and the degradation bit-set (core/contracts.hpp).
module Contracts {
  import opened Types

  // ---- Tolerances (Tol) ----
  const DcmOrthonormality: real := 1.0e-12
  const DeterminantOne: real := 1.0e-12

  /** An absolute floor plus a relative term: ||dx|| <= abs + rel * ||x||. */
  datatype VecAbsRel = VecAbsRel(abs: real, rel: real)

  const AdoptedCentering: VecAbsRel := VecAbsRel(1.0e-3, 1.0e-12)

  /** Chief state sanity floors and the dimensionless angular-momentum floor. */
  const Rmin: real := 1.0
  const Vmin: real := 1.0e-6
  const HhatMin: real := 1.0e-10

  /** An absolute tolerance scaled by a reference norm, never below the floor. */
  function ScaledAbs(absFloor: real, rel: real, refNorm: real): (t: real)
    ensures t >= absFloor && t >= refNorm * rel
    ensures t == absFloor || t == refNorm * rel
  {
    var scaled := refNorm * rel;
    if scaled > absFloor then scaled else absFloor
  }

  // ---- Adopted RIC compatibility and the degraded policy ----
  const RequiredFrameKind: FrameKind := BullseyeRIC
  const RequiredAxisOrder: AxisOrder := RIC

  datatype OnAdoptedInvalid = AbortTick | FallbackConstructedDegraded

  /** The v1 policy: an invalid adopted frame falls back to the constructed frame. */
  const OnAdoptedInvalidPolicy: OnAdoptedInvalid := FallbackConstructedDegraded

  /** Why a snapshot is degraded: a uint32 bit-set. */
  datatype DegradeReason = DegradeReason(bits: bv32)

  const NoReason: DegradeReason := DegradeReason(0)
  const AdoptedInvalid: DegradeReason := DegradeReason(1)
  const DegenerateChief: DegradeReason := DegradeReason(2)
  const ProviderJitter: DegradeReason := DegradeReason(4)

  /** `a | b` on the underlying uint32; `a |= b` stores this value in `a`. */
  function Or(a: DegradeReason, b: DegradeReason): DegradeReason
  {
    DegradeReason(a.bits | b.bits)
  }

  /** `any(r)`: some reason is set. */
  predicate Any(r: DegradeReason) { r.bits != 0 }

  /** Whether the single-bit reason `flag` is set in `r`. */
  predicate Has(r: DegradeReason, flag: DegradeReason) { r.bits & flag.bits != 0 }

  /** `any` of a union is the disjunction; `kNone` is the identity of `|`. */
  lemma AnyOr(a: DegradeReason, b: DegradeReason)
    ensures Any(Or(a, b)) <==> Any(a) || Any(b)
  {
    BitsOrZero(a.bits, b.bits);
  }

  lemma NoReasonIsIdentity(a: DegradeReason)
    ensures Or(a, NoReason) == a && Or(NoReason, a) == a
  {
    OrZero(a.bits);
  }

  /** `any(kNone)` is false. */
  lemma NoReasonIsNotAny()
    ensures !Any(NoReason)
  {
  }

  lemma OrZero(x: bv32)
    ensures x | 0 == x && 0 | x == x
  {
  }

  lemma BitsOrZero(x: bv32, y: bv32)
    ensures x | y == 0 <==> x == 0 && y == 0
  {
  }

  /** `|` is commutative, associative and idempotent. */
  lemma OrAlgebra(a: DegradeReason, b: DegradeReason, c: DegradeReason)
    ensures Or(a, b) == Or(b, a)
    ensures Or(Or(a, b), c) == Or(a, Or(b, c))
    ensures Or(a, a) == a
  {
  }

  /** The three reasons are distinct single bits, each testable in a combined value. */
  lemma ReasonsIndependent(r: DegradeReason)
    ensures Has(Or(r, AdoptedInvalid), AdoptedInvalid)
    ensures Has(Or(r, DegenerateChief), DegenerateChief)
    ensures Has(Or(r, ProviderJitter), ProviderJitter)
    ensures !Has(AdoptedInvalid, DegenerateChief) && !Has(AdoptedInvalid, ProviderJitter)
    ensures !Has(DegenerateChief, ProviderJitter)
    ensures Has(Or(AdoptedInvalid, DegenerateChief), AdoptedInvalid) && !Has(Or(AdoptedInvalid, DegenerateChief), ProviderJitter)
  {
  }
}
