# Bullseye relative-motion predictor, modelled in Dafny

This project models the core of the Bullseye predictor. The predictor is a C++ library. On every tick it:

- queries a chief spacecraft's inertial state at the tick time t0;
- builds or adopts a Bullseye RIC frame (radial, in-track, cross-track) centred on the chief;
- transforms each registered deputy vehicle into that frame;
- propagates the deputies' relative motion over a time grid with the Hill–Clohessy–Wiltshire closed form;
- publishes the positions through a double-buffered publisher.

The model covers:

- the vector and matrix types and the contract constants;
- construction of the RIC frame from the chief's state, and validation of an adopted frame;
- selection of the frame snapshot (adopted, constructed, or degraded);
- the inertial/RIC transforms;
- the time grid;
- the vehicle index map;
- the publisher;
- the Cartesian chief and frame providers, and the two-body chief provider with its universal-variable Kepler solve;
- the HCW model, and the eccentric-reference (YA-family, linear time-varying) model integrated with RK4;
- the relative predictor's tick, and the dummy predictor's tick.

How the C++ code is represented:

- **Doubles.** A `double` is `Num.Double`: a finite real, +inf, -inf or NaN.
  - Comparisons follow IEEE rules, so every comparison with NaN is false.
  - An arithmetic result that leaves the double range becomes an infinity.
  - Rounding inside the range is not modelled; see "Left out".
- **Library functions.** `std::sqrt`, `std::sin` and `std::cos` are parameters (`Types.Elementary`). So are the Stumpff functions C(z) and S(z) (`Kepler.Stumpff`).
  - Where a proof needs more, it assumes only stated laws. For example, `SqrtLaw` says that the square root of x >= 0 is non-negative and squares back to x.
- **State the source changes in place becomes a Dafny class**, with a `modifies` clause on each method:
  - the vehicle index map;
  - the publisher and its prediction buffers, whose rows are arrays;
  - the two Cartesian providers;
  - the two-body provider's log latch;
  - the two predictors.
- **Loops stay loops**, each with invariants. They are the matrix product and transpose, the validator's finiteness and deviation scans, the binary search, the Newton iteration, the HCW and YA grid walks, and the predictors' vehicle and step loops.
  - Each method is proved equal to a specification function.
  - The properties are proved about those functions as lemmas.
- **Providers the predictors call** through interfaces are functions of t0 (`chief`, `veh`, `adopted`).

## Model

| member | source | states |
|---|---|---|
| Types.ComponentwiseOps | core/types.hpp:39-50 | vector +, - and scalar * act component by component, and v*s equals s*v |
| Types.DotSelfNonNegative | core/types.hpp:52-54 | dot(v, v) is never negative, and it is zero for the zero vector |
| Types.NormIsLength | core/types.hpp:61 | norm(v) is non-negative and squares to dot(v, v); the zero vector has norm 0 |
| Types.NormNonNegative | core/types.hpp:61 | norm is never negative |
| Types.ZeroNorm | core/types.hpp:61 | the zero vector has norm 0 |
| Types.CrossOrthogonal | core/types.hpp:55-60 | cross(a, b) is orthogonal to a and to b, and it is antisymmetric |
| Types.ScaleBilinear | core/types.hpp:45-60 | dot and cross are linear in each argument under scalar multiplication |
| Types.TripleProductExpansion | core/types.hpp:52-60 | a x (b x c) = (a.c) b - (a.b) c; this is the identity the frame construction relies on for h x r |
| Types.LagrangeIdentity | core/types.hpp:52-60 | \|a x b\|^2 = \|a\|^2 \|b\|^2 - (a.b)^2 |
| Types.Normalised | core/types.hpp:45-61 | v scaled by 1/norm(v) has unit length whenever norm(v) > 0 |
| Types.UnitNorm | core/types.hpp:61 | a vector with dot(v, v) = 1 has norm 1 |
| Types.IdentityEntries | core/types.hpp:64-73 | the default Mat3 is the identity: 1 on the diagonal and 0 elsewhere |
| Types.MulMAt | core/types.hpp:86-98 | entry (r, c) of A*B is the sum over k of A(r,k) B(k,c) |
| Types.TransposeAt | core/types.hpp:100-108 | entry (r, c) of transpose(A) is A(c, r) |
| Types.IdentityNeutral | core/types.hpp:79-98 | the identity is neutral for matrix-vector and matrix-matrix products |
| Types.TransposeInvolutive | core/types.hpp:100-108 | transposing twice gives the matrix back |
| Types.MulAssoc | core/types.hpp:79-98 | (A*B)*v = A*(B*v) |
| Types.DetOfIdentity | core/types.hpp:110-116 | det(I) = 1, and det of the identity with its (2,2) entry negated is -1 |
| Types.MulVLinear | core/types.hpp:79-84 | matrix-vector product is linear: it maps a+b, a-b and 0 accordingly |
| Types.MatMul | core/types.hpp:86-98 | the triple loop computes exactly the matrix product |
| Types.TransposeLoop | core/types.hpp:100-108 | the double loop computes exactly the transpose |
| Num.NaNComparesFalse | core/bullseye_frame_validator.cpp:67-74 | every ordered or equality comparison with NaN is false, on either side; this is why the source tests finiteness first |
| Num.PositiveFiniteMeans | models/model_hcw.cpp:37 | the guard `n > 0 and isfinite(n)` passes exactly for finite positive doubles, so NaN and +inf are refused |
| Num.Floor | core/time_grid.cpp:26 | floor(x) is the integer k with k <= x < k + 1 |
| Num.Ceil | models/model_ya_stm.cpp:328 | ceil(x) is the integer k with k - 1 < x <= k |
| Contracts.ScaledAbs | core/contracts.hpp:89-93 | the scaled tolerance is the larger of the floor and ref_norm*rel, and it is one of the two |
| Contracts.AnyOr | core/contracts.hpp:191-203 | any(a \| b) holds iff any(a) or any(b) |
| Contracts.NoReasonIsIdentity | core/contracts.hpp:183-199 | kNone is the identity of `\|` on degrade reasons |
| Contracts.NoReasonIsNotAny | core/contracts.hpp:185 | any(kNone) is false |
| Contracts.OrAlgebra | core/contracts.hpp:191-194 | `\|` on degrade reasons is commutative, associative and idempotent |
| Contracts.ReasonsIndependent | core/contracts.hpp:183-189 | or-ing in a reason sets its bit; the three reasons are distinct bits, and none of them implies another |
| Validator.MaxDeviationIsMax | core/bullseye_frame_validator.cpp:22-37 | the orthonormality measure bounds every \|CC^T - I\| entry and equals one of them |
| Validator.OrthonormalityCheckMeans | core/bullseye_frame_validator.cpp:107-113 | the measure is within tol iff every entry of CC^T - I is within tol |
| Validator.FiniteMatLoop | core/bullseye_frame_validator.cpp:13-20 | the loop returns true iff all nine entries are finite |
| Validator.MaxAbsCCtMinusI | core/bullseye_frame_validator.cpp:22-37 | the loop computes the maximum absolute entry of CC^T - I |
| Validator.Validate | core/bullseye_frame_validator.cpp:48-135 | the imperative validation returns exactly the specification's verdict |
| Validator.ValidationOkIff | core/bullseye_frame_validator.cpp:48-135 | validation passes iff every check passes; a failure has a non-OK reason, and OK status goes with reason kOk |
| Validator.ChiefCheckedFirst | core/bullseye_frame_validator.cpp:56-60 | a chief that is not OK fails with kChiefNotOk, whatever the frame |
| Validator.FrameStatusCheckedSecond | core/bullseye_frame_validator.cpp:61-65 | with an OK chief, a frame that is not OK fails with kFrameNotOk |
| Validator.NonFiniteRejected | core/bullseye_frame_validator.cpp:67-81 | after the status checks, the reason is kNonFinite iff some time, vector, matrix entry or declared omega is not finite |
| Validator.OmegaIgnoredWithoutDeclaration | core/bullseye_frame_validator.cpp:75-81 | when has_omega is false, the omega vector does not affect the verdict |
| Validator.TimeMismatchRejected | core/bullseye_frame_validator.cpp:84-88 | with finite inputs, a time tag different from t0 fails with status kTimeMissing and reason kTimeMismatch |
| Validator.DeclarationBeforeGeometry | core/bullseye_frame_validator.cpp:91-95 | a wrong frame kind or axis order fails with kBadDeclaration, whatever the origin and matrix |
| Validator.CenteringFailsIff | core/bullseye_frame_validator.cpp:98-105 | once the declaration passes, the verdict is kCenteringMismatch iff \|origin - r\| > abs + rel*\|r\| |
| Validator.OrthonormalityFailsIff | core/bullseye_frame_validator.cpp:108-113 | once centred, the verdict is kNotOrthonormal iff max\|CC^T - I\| > ortho_max_abs |
| Validator.HandednessAfterOrthonormality | core/bullseye_frame_validator.cpp:116-121 | kNotRightHanded is reported only for an orthonormal matrix whose determinant is not within det_one_abs of 1 |
| Validator.OmegaDeclarationLast | core/bullseye_frame_validator.cpp:124-130 | kOmegaBadDeclaration is reported only when omega is declared in non-RIC coordinates and every geometric check passed |
| Validator.CenteredPassesCentering | core/bullseye_frame_validator.cpp:39-44 | an origin equal to the chief position is always within the centring bound |
| Validator.ExactlyOrthonormal | core/bullseye_frame_validator.cpp:22-37 | a matrix with CC^T = I passes the orthonormality check for any non-negative tolerance |
| Validator.IdentityGeometry | core/bullseye_frame_validator.hpp:23-33 | under the default tolerances, the identity is orthonormal and right-handed |
| Validator.IdentityOrtho | core/bullseye_frame_validator.hpp:28-29 | under the default tolerance, the identity passes the orthonormality check |
| Validator.IdentityRight | core/bullseye_frame_validator.hpp:31-32 | under the default tolerance, the identity passes the handedness check |
| Validator.FlippedGeometry | core/bullseye_frame_validator.cpp:108-121 | the identity with C(2,2) = -1 is orthonormal but fails the handedness check |
| Validator.GeometryDecides | core/bullseye_frame_validator.cpp:97-121 | for a centred, well-declared frame without omega, the verdict is decided by orthonormality first, then handedness |
| Validator.LeftHandedRejected | core/bullseye_frame_validator.cpp:116-121 | a centred left-handed frame is rejected with kNotRightHanded |
| Validator.IdentityFramePasses | core/bullseye_frame_validator.cpp:48-135 | a centred, well-declared identity frame at t0 passes validation |
| FrameMath.UnitOrFail | core/bullseye_frame_math.cpp:15-23 | the flag survives iff it was set and n is finite and positive; a bad n yields the zero vector |
| FrameMath.UnitOrFailIsUnit | core/bullseye_frame_math.cpp:15-23 | a successful unit_or_fail by the norm gives a unit vector that is a positive multiple of the input |
| FrameMath.ColumnsOf | core/bullseye_frame_math.cpp:90-105 | the matrix assembled from eR, eI, eC has exactly those vectors as its columns |
| FrameMath.Construct | core/bullseye_frame_math.cpp:25-118 | the constructed frame always copies the time tag and origin and declares Bullseye RIC in RIC axes, with omega present and in RIC coordinates, whatever the outcome |
| FrameMath.TriadOrthonormal | core/bullseye_frame_math.cpp:63-88 | when every normalisation succeeds, the re-orthonormalised triad (eR, eI, eC) is right-handed and orthonormal |
| FrameMath.InTrackOrthogonal | core/bullseye_frame_math.cpp:67-71 | the in-track direction h x r is orthogonal to the radial unit vector |
| FrameMath.ConstructRejectsBadChief | core/bullseye_frame_math.cpp:32-41 | a chief that is not OK gives kNotAvailable; a non-finite chief gives kInvalidInput |
| FrameMath.ConstructRejectsDegenerate | core/bullseye_frame_math.cpp:43-61 | \|r\| < Rmin, \|v\| < Vmin, or h_hat below HhatMin gives kNotAvailable |
| FrameMath.ConstructStatusCodes | core/bullseye_frame_math.cpp:25-118 | the status is one of kOk, kNotAvailable, kInvalidInput, kInternalError |
| FrameMath.ConstructSuccess | core/bullseye_frame_math.cpp:90-116 | on success, the chief was OK and finite, the columns of C are a right-handed orthonormal triad, and omega is the representable \|h\|/\|r\|^2 |
| FrameMath.ConstructInTrack | core/bullseye_frame_math.cpp:67-82 | on success, the in-track column is a positive multiple of \|r\|^2 v - (r.v) r |
| FrameMath.ConstructSucceeds | core/bullseye_frame_math.cpp:43-116 | a finite OK chief above the three degeneracy floors, whose norms and rate are representable, yields kOk, with the triad as the columns of C and omega (0, 0, \|h\|/\|r\|^2) |
| FrameMath.AxisUnit | core/bullseye_frame_math.cpp:15-23 | a positive coordinate axis vector of length x has norm x and normalises to the unit axis without failing |
| FrameMath.AlignedTriad | core/bullseye_frame_math.cpp:63-88 | for r along +x and h along +z, the radial, in-track and cross-track directions are the unit x, y and z axes |
| FrameMath.AlignedGuards | core/bullseye_frame_math.cpp:43-88 | for r = (a, 0, 0), v = (0, b, 0) with a >= Rmin, b >= Vmin and a^2 b representable, every degeneracy and finiteness guard passes, C is the identity and the rate is b/a |
| FrameMath.AlignedChiefFrame | tests/unit/test_bullseye_math.cpp:43-76 | an OK chief at (a, 0, 0) moving with (0, b, 0), a >= Rmin, b >= Vmin, gives kOk, C = identity and omega = (0, 0, b/a) |
| FrameMath.CircularChiefFrame | tests/unit/test_bullseye_math.cpp:43-76 | the chief at 7000 km moving at 7500 m/s along +y gives kOk, C = identity and omega = (0, 0, 7500/7000e3) |
| BullseyeFrameProduct.FromAdopted | core/bullseye_frame.cpp:29-46 | a snapshot from an adopted frame copies its geometry and omega, is marked adopted, is not degraded, and is OK |
| BullseyeFrameProduct.FromConstructedCopies | core/bullseye_frame.cpp:8-27 | a snapshot from the constructed frame copies its geometry and status and carries the given degrade reason |
| BullseyeFrameProduct.BadChiefShortCircuits | core/bullseye_frame.cpp:52-57 | a failed chief, or one without a frame id, skips the adopted provider and reports the chief's code (kInvalidInput for a missing id) |
| BullseyeFrameProduct.ValidAdoptedIsUsed | core/bullseye_frame.cpp:59-69 | in adopted-prefer mode, a frame that passes validation is the snapshot |
| BullseyeFrameProduct.InvalidAdoptedFallsBack | core/bullseye_frame.cpp:78-84 | an invalid adopted frame falls back to the constructed one: not marked adopted, flagged kAdoptedInvalid, with construction's status |
| BullseyeFrameProduct.AbortTickReportsValidation | core/bullseye_frame.cpp:71-76 | under the abort-tick policy, an invalid adopted frame gives an empty snapshot with the validator's status |
| BullseyeFrameProduct.ConstructedPathReportsDegenerate | core/bullseye_frame.cpp:78-93 | on the constructed path, the status is construction's, and kDegenerateChief is set iff construction failed |
| BullseyeFrameProduct.ConstructedOnlyIgnoresAdopted | core/bullseye_frame.cpp:87-93 | in constructed-only mode, or without an adopted provider, the adopted provider is never queried and does not affect the snapshot |
| BullseyeFrameProduct.AdoptedMeansClean | core/bullseye_frame.cpp:48-94 | a snapshot marked adopted is OK and not degraded, and it comes from a frame that passed validation |
| BullseyeFrameProduct.UnspecifiedAxisOrderDegrades | core/bullseye_frame.cpp:59-84 | an adopted frame with unspecified axis order is not used: when construction succeeds, the snapshot is the OK constructed frame, marked degraded |
| Transforms.RoundTrip | core/frame_transforms.cpp:8-32 | inertial to RIC and back returns the deputy's inertial state when the two matrices are mutually inverse |
| Transforms.RoundTripFromRic | core/frame_transforms.cpp:8-32 | RIC to inertial and back returns the relative state when the two matrices are mutually inverse |
| Transforms.ChiefMapsToZero | core/frame_transforms.cpp:8-19 | the chief itself maps to the zero relative state |
| Transforms.NoRotation | core/frame_transforms.cpp:8-32 | with omega = 0, the relative velocity is just the rotated velocity difference, in both directions |
| Transforms.PositionIgnoresVelocity | core/frame_transforms.cpp:13-16 | the relative position depends on neither velocity nor omega |
| Transforms.OrthonormalColumnsInverse | core/relative_predictor.cpp:92-93 | for a matrix with right-handed orthonormal columns, the transpose is its inverse |
| Transforms.ConstructedFrameRoundTrip | core/relative_predictor.cpp:92-93 | with a successfully constructed frame and C_i2r = transpose(C_r2i), RIC to inertial to RIC is the identity |
| TimeGrid.MakeTimeGrid | core/time_grid.cpp:13-40 | the loop produces exactly the grid specification |
| TimeGrid.InvalidInputsEmpty | core/time_grid.cpp:19-24 | the grid is empty iff horizon < 0 or cadence <= 0 (NaN passes both tests) |
| TimeGrid.GridSize | core/time_grid.cpp:26-33 | a valid grid has floor(h/c) + 1 offsets and starts at 0 |
| TimeGrid.GridStrictlyIncreasing | core/time_grid.cpp:30-33 | offset k is k*c, and the offsets strictly increase |
| TimeGrid.GridWithinHorizon | core/time_grid.cpp:26-33 | the last offset is within the horizon, and less than one cadence before it |
| TimeGrid.TenByTwo | core/time_grid.hpp:56-61 | a horizon of 10 at cadence 2 gives 0, 2, 4, 6, 8, 10 |
| TimeGrid.NaNHorizonSinglePoint | core/time_grid.cpp:19-33 | a NaN horizon with a valid cadence gives the single offset 0 |
| TimeGrid.NaNCadenceSinglePoint | core/time_grid.cpp:19-33 | a NaN cadence with a horizon that is not negative and not +inf gives the single offset NaN |
| ExactTime.EqMeansSame | core/provider_cartesian.cpp:125 | the exact comparison `a == b` holds iff both are the same non-NaN double |
| ExactTime.SortByTime | core/provider_cartesian.cpp:60-67 | sorting by time is a permutation of the samples |
| ExactTime.SortSorted | core/provider_cartesian.cpp:60-67 | the sorted samples are in non-decreasing time order |
| ExactTime.LowerBound | core/provider_cartesian.cpp:122-123 | the binary search returns the first index whose time is not below t0 |
| ExactTime.LookupExact | core/provider_cartesian.cpp:122-136 | the lower bound hits a sample with time exactly t0 iff one exists, and the hit is such a sample |
| ExactTime.SortSortable | core/provider_cartesian.cpp:60-67 | sorting a series that std::sort may be given yields a time-ordered permutation; a series of fewer than two samples is left as it is |
| ExactTime.SameSamplesSameMatches | core/provider_cartesian.cpp:119-125 | reordering the samples does not change whether t0 is present |
| ExactTime.WarnDecision | core/provider_cartesian.cpp:69-78 | with period <= 0, always warn and keep the last time; otherwise warn iff t0 - last >= period, recording t0 only on a warning |
| ExactTime.WarningsSpaced | core/provider_cartesian.cpp:69-78 | after a warning at t0, no warning is issued at any t1 less than one period later |
| VehicleIndex.FirstIndex | core/vehicle_index_map.cpp:9-19 | the lookup finds an id iff it is registered, at its first position |
| VehicleIndex.FirstIndexOfDistinct | core/vehicle_index_map.hpp:13-22 | in a duplicate-free registry, each id is found at its own index |
| VehicleIndex.VehicleIndexMap.constructor | core/vehicle_index_map.hpp:34 | a new map is empty |
| VehicleIndex.VehicleIndexMap.Capacity | core/vehicle_index_map.hpp:29-32 | the capacity is MAX_VEHICLES = 32 |
| VehicleIndex.VehicleIndexMap.Clear | core/vehicle_index_map.hpp:37-40 | clear empties the map |
| VehicleIndex.VehicleIndexMap.Empty | core/vehicle_index_map.hpp:49-52 | empty() is true iff no id is registered |
| VehicleIndex.VehicleIndexMap.IndexOf | core/vehicle_index_map.cpp:9-19 | the linear search returns the id's first index, or nothing |
| VehicleIndex.VehicleIndexMap.Contains | core/vehicle_index_map.hpp:67-70 | contains holds iff the id is registered |
| VehicleIndex.VehicleIndexMap.IdAt | core/vehicle_index_map.cpp:49-56 | id_at returns the id at an index below size, and nothing at or past it |
| VehicleIndex.VehicleIndexMap.RegisterVehicle | core/vehicle_index_map.cpp:21-47 | a known id returns its index unchanged; a full map refuses; otherwise the id is appended and gets the old size as its index; registered ids stay distinct |
| VehicleIndex.IndexOfIdAt | core/vehicle_index_map.hpp:72-76 | index_of(id_at(i)) = i for every registered index |
| Publishing.PredictionBuffer.constructor | core/prediction_buffer.hpp:13-17 | a new buffer has seqno 0, t0 0, and every position zero |
| Publishing.Publisher.constructor | core/publisher.hpp:50-59 | a new publisher has front index 0 and seqno 0, and two fresh buffers stamped t0 = 0, the back one with seqno 0 |
| Publishing.Publisher.Back | core/publisher.cpp:18-20 | the back buffer is buffers[1 - front], which is not the front buffer when the two buffers are distinct |
| Publishing.Publisher.Read | core/publisher.cpp:36-39 | read() returns buffers[front] |
| Publishing.Publisher.BeginWrite | core/publisher.cpp:9-13 | begin_write returns the back buffer, which shares no row with the visible one |
| Publishing.Publisher.Publish | core/publisher.cpp:15-34 | publish increments seqno modulo 2^64, stamps it and t0 into the back buffer, and swaps: the written buffer becomes visible and the old front becomes the back |
| Publishing.Publisher.PublishedSeqno | core/publisher.cpp:41-46 | the seqno stamped in the front buffer equals the publisher's counter |
| Publishing.SuccessivePublishes | core/publisher.cpp:15-46 | a fresh publisher reports seqno 0, and two successive publishes return 1 and then 2 |
| Publishing.WriteVisibleOnlyAfterPublish | core/publisher.hpp:11-27 | a write to the back buffer is invisible to readers until publish, and visible after it |
| CartesianChief.CartesianChiefProvider.constructor | core/provider_cartesian.cpp:14-29 | a new provider has a NaN current time, no samples, and the log latch and rate limiter reset |
| CartesianChief.CartesianChiefProvider.SetCurrent | core/provider_cartesian.cpp:31-39 | set_current replaces the current sample and changes nothing else |
| CartesianChief.CartesianChiefProvider.AddSample | core/provider_cartesian.cpp:41-48 | add_sample appends the sample and marks the series unsorted |
| CartesianChief.CartesianChiefProvider.ClearSamples | core/provider_cartesian.cpp:50-58 | clear_samples empties the series and marks it sorted |
| CartesianChief.CartesianChiefProvider.EnsureSorted | core/provider_cartesian.cpp:60-67 | afterwards the series is sorted by time and is a permutation of before; an already sorted series is untouched; only a series of two or more samples that has to be sorted must be free of NaN times |
| CartesianChief.CartesianChiefProvider.ShouldWarnTimeMissing | core/provider_cartesian.cpp:69-78 | the warning and the new last-warning time are the rate-limit decision |
| CartesianChief.CartesianChiefProvider.LogInvalidInputOnce | core/provider_cartesian.cpp:80-87 | the latch is set afterwards, and nothing else changes |
| CartesianChief.CartesianChiefProvider.Get | core/provider_cartesian.cpp:89-143 | a missing frame id gives kInvalidInput; an exact time match returns that sample with kOk; otherwise kTimeMissing, and the warning stamp moves as the rate limiter decides; a time-series lookup leaves the series sorted; a missing-id or current-mode lookup leaves the series and its sorted flag as they were, an already sorted series is never reordered, and the log latch changes only when the id is missing; failures carry default payloads |
| CartesianChief.NaNSampleNeverMatches | core/provider_cartesian.cpp:122-136 | a time series holding one sample with a NaN time never matches, so a lookup gives kTimeMissing |
| CartesianChief.FreshCurrentNeverMatches | core/provider_cartesian.cpp:22-23 | on a fresh provider in current mode, get(t0) reports kTimeMissing for every t0 |
| CartesianChief.OutOfOrderSamplesFound | core/provider_cartesian.hpp:43-47 | samples added out of order are still found by exact time |
| CartesianFrame.FrameOf | core/frame_provider_cartesian.cpp:185-196 | a matched sample is reported OK as Bullseye RIC in RIC axes, with omega declared in RIC iff the sample has one |
| CartesianFrame.CartesianFrameProvider.constructor | core/frame_provider_cartesian.cpp:13-27 | a new provider has a NaN current time, identity attitude, no omega and no samples |
| CartesianFrame.CartesianFrameProvider.SetCurrent | core/frame_provider_cartesian.cpp:29-39 | set_current replaces time, origin and matrix, and keeps the omega setting |
| CartesianFrame.CartesianFrameProvider.SetCurrentOmegaRic | core/frame_provider_cartesian.cpp:41-47 | the current sample gains the declared omega |
| CartesianFrame.CartesianFrameProvider.ClearCurrentOmega | core/frame_provider_cartesian.cpp:49-55 | the current sample loses its omega, which is reset to zero |
| CartesianFrame.CartesianFrameProvider.AddSample | core/frame_provider_cartesian.cpp:57-66 | appends a sample without omega and marks the series unsorted |
| CartesianFrame.CartesianFrameProvider.SetLastSampleOmegaRic | core/frame_provider_cartesian.cpp:68-79 | with no samples, nothing changes; otherwise only the last sample gains the omega |
| CartesianFrame.CartesianFrameProvider.ClearSamples | core/frame_provider_cartesian.cpp:81-89 | empties the series and marks it sorted |
| CartesianFrame.CartesianFrameProvider.EnsureSorted | core/frame_provider_cartesian.cpp:91-98 | afterwards the series is sorted and is a permutation of before; only a series of two or more samples that has to be sorted must be free of NaN times |
| CartesianFrame.CartesianFrameProvider.ShouldWarnTimeMissing | core/frame_provider_cartesian.cpp:100-109 | the warning and the new last-warning time are the rate-limit decision |
| CartesianFrame.CartesianFrameProvider.LogInvalidInputOnce | core/frame_provider_cartesian.cpp:111-118 | the latch is set afterwards |
| CartesianFrame.CartesianFrameProvider.Get | core/frame_provider_cartesian.cpp:120-197 | kInvalidInput iff the source id is missing or t0 is not finite; an exact time match gives that sample's frame with kOk; otherwise kTimeMissing; the warning stamp moves only on kTimeMissing, as the rate limiter decides; a valid time-series lookup leaves the series sorted; an invalid or current-mode lookup leaves the series and its sorted flag as they were, an already sorted series is never reordered, and the log latch changes only on kInvalidInput |
| CartesianFrame.CurrentOmegaDeclared | core/frame_provider_cartesian.cpp:142-164 | after set_current and set_current_omega_ric at t0, get(t0) reports that frame with omega declared in RIC |
| CartesianFrame.LastSampleOmegaFound | core/frame_provider_cartesian.cpp:68-79 | an omega attached to the last-added sample is reported when that sample's time is queried, even after sorting |
| Kepler.MakeSetup | core/provider_twobody.cpp:81-84 | the set-up is well formed (sqrt(mu) > 0 and \|r0\| > 0); it holds sqrt(mu) with sqrt(mu)^2 = mu, \|r0\| and dt |
| Kepler.NewtonUpdate | core/provider_twobody.cpp:120-127 | a step with F' = 0 or a non-finite F or F' keeps x; otherwise x' F' = x F' - F, the Newton root of the linearisation |
| Kepler.NewtonSolve | core/provider_twobody.cpp:86-128 | the fixed-count loop returns the iterate after exactly `iters` passes from the initial guess |
| Kepler.Propagated | core/provider_twobody.cpp:130-165 | when the f and g evaluation succeeds, the propagated position and velocity are finite, \|r\| > 0 and finite, and the position is f r0 + g v0 |
| Kepler.FinishOrbit | core/provider_twobody.cpp:130-165 | the imperative f/g evaluation succeeds exactly when the specification does, with the same state |
| Kepler.ZeroDtGuess | core/provider_twobody.cpp:86-97 | with dt = 0, the initial guess is 0 on both branches |
| Kepler.ZeroIsFixedPoint | core/provider_twobody.cpp:103-128 | with dt = 0, x = 0 is a fixed point of the Newton step |
| Kepler.IterateFromZero | core/provider_twobody.cpp:103-128 | with dt = 0, every number of iterations from 0 stays at 0 |
| Kepler.EpochCoefficients | core/provider_twobody.cpp:130-158 | at x = 0 and dt = 0, f = 1, g = 0, fdot = 0 and gdot = 1, so the state is unchanged |
| Kepler.EpochStateReturned | core/provider_twobody.cpp:86-158 | with dt = 0, the whole solve returns the epoch position and velocity |
| Kepler.EpochPropagated | core/provider_twobody.cpp:130-171 | with dt = 0 and a finite non-zero epoch state, propagation succeeds with the epoch state |
| TwoBody.Propagate | core/provider_twobody.cpp:47-172 | the frame id is always copied; kInvalidInput iff the configuration or t0 is inadmissible; success is stamped with t0 and finite |
| TwoBody.Finish | core/provider_twobody.cpp:130-171 | after the solve, the result is kOk with finite state tagged t0, or kInternalError with a default payload |
| TwoBody.EpochAnswered | core/provider_twobody.cpp:47-172 | querying at the epoch time returns the epoch state with kOk |
| TwoBody.PropagateAdmitted | core/provider_twobody.cpp:81-171 | an admissible query is the solve from the configured epoch state over t0 - t_epoch |
| TwoBody.TwoBodyChiefProvider.constructor | core/provider_twobody.cpp:22-34 | the provider stores its configuration, with the log latch clear |
| TwoBody.TwoBodyChiefProvider.LogInvalidConfigOnce | core/provider_twobody.cpp:36-45 | the latch is set afterwards |
| TwoBody.TwoBodyChiefProvider.CheckConfig | core/provider_twobody.cpp:52-79 | the check chain accepts exactly the admissible configurations and times |
| TwoBody.TwoBodyChiefProvider.Get | core/provider_twobody.cpp:47-172 | get returns the propagation specification, and it latches the log iff the configuration was inadmissible |
| TwoBody.NonPositiveMuRejected | core/provider_twobody.cpp:59-64 | mu <= 0 is refused with kInvalidInput on every call |
| RelativeModel.StoreRow | models/model_hcw.cpp:118-128 | writes the position into row i of out_r, and the velocity only when wanted; nothing else changes |
| Hcw.PositionAdditive | models/model_hcw.cpp:102-116 | the HCW position is additive in the initial state: the responses to two initial states add |
| Hcw.PositionScales | models/model_hcw.cpp:102-116 | scaling the initial state scales the HCW position; with `PositionAdditive`, the position is linear in the initial state |
| Hcw.VelocityAdditive | models/model_hcw.cpp:120-128 | the HCW velocity is additive in the initial state |
| Hcw.VelocityScales | models/model_hcw.cpp:120-128 | scaling the initial state scales the HCW velocity; with `VelocityAdditive`, the velocity is linear |
| Hcw.ZeroStateStaysZero | models/model_hcw.cpp:102-128 | a deputy at the chief stays at the chief |
| Hcw.AtEpochIsInitialState | models/model_hcw.cpp:78-89 | at t = 0, the closed form returns the initial position and velocity |
| Hcw.CrossTrackDecoupled | models/model_hcw.cpp:116-125 | the cross-track motion depends only on the cross-track initial state |
| Hcw.NoDriftCondition | models/model_hcw.cpp:111-114 | with yd0 = -2 n x0, the secular in-track drift term cancels |
| Hcw.FirstBadTau | models/model_hcw.cpp:91-100 | the index of the first offset that fails the `tau >= 0 and finite` test, or the grid length |
| Hcw.Outcome | models/model_hcw.cpp:26-134 | kOk iff the inputs are valid and the grid is empty, or it fits the span and every offset is usable; steps_written is the grid length on kOk and 0 otherwise |
| Hcw.RowsFilled | models/model_hcw.cpp:91-129 | the rows written before the call returns, all with usable offsets; none unless the inputs and capacity checks pass |
| Hcw.PositionRows | models/model_hcw.cpp:102-118 | the stored closed-form positions for the first w offsets |
| Hcw.VelocityRows | models/model_hcw.cpp:120-128 | the stored closed-form velocities for the first w offsets |
| Hcw.FillRow | models/model_hcw.cpp:91-129 | one loop iteration extends the written rows by the closed form at tau[k] |
| Hcw.NothingFilled | models/model_hcw.cpp:36-62 | a call that writes no rows leaves the storage as it was |
| Hcw.PredictHcw | models/model_hcw.cpp:26-134 | predict_hcw returns the specified outcome, and leaves out_r (and out_v when wanted) with exactly the filled rows overwritten |
| Hcw.FillGrid | models/model_hcw.cpp:64-133 | the loop writes each offset's row in turn and stops at the first unusable offset |
| Hcw.EmptyGridNeedsNoStorage | models/model_hcw.cpp:50-57 | an empty grid succeeds with 0 steps, even with no output storage |
| Hcw.ParametersBeforeCapacity | models/model_hcw.cpp:36-62 | a bad mean motion is reported as kInvalidInput before any capacity check |
| Hcw.NaNMeanMotionRejected | models/model_hcw.cpp:36-41 | a NaN mean motion is refused |
| YaStm.Add6 | models/model_ya_stm.cpp:139-147 | a + 0*b = a, and a + s*0 = a |
| YaStm.CtxOf | models/model_ya_stm.cpp:255-270 | valid parameters give a context with mu > 0, max_h > 0 and the model's fixed Kepler iteration count |
| YaStm.Start | models/model_ya_stm.cpp:295-302 | the zero relative state gives the zero six-state |
| YaStm.ChiefAt | models/model_ya_stm.cpp:38-127 | a successful chief propagation has finite position and velocity, and it needs mu > 0 and a finite dt |
| YaStm.ChiefAtEpoch | models/model_ya_stm.cpp:38-127 | at dt = 0, the chief propagation returns the epoch state |
| YaStm.PropagateUniversal | models/model_ya_stm.cpp:38-127 | the imperative propagation succeeds exactly when the specification does, with the same state |
| YaStm.CoefficientsMeaning | models/model_ya_stm.cpp:161-180 | the LTV coefficients have omega > 0 and mu/r^3 times r^3 equal to mu |
| YaStm.Deriv | models/model_ya_stm.cpp:150-201 | the derivative exists iff the chief coefficients exist at t, and its position part is the state's velocity |
| YaStm.RatesFromChief | models/model_ya_stm.cpp:161-198 | the imperative coefficient computation succeeds exactly when the specification does, and it applies the LTV matrix |
| YaStm.DerivThLtv | models/model_ya_stm.cpp:150-201 | deriv_th_ltv succeeds exactly when the derivative is defined, and returns it |
| YaStm.ApplyLinear | models/model_ya_stm.cpp:189-198 | the LTV right-hand side is linear: it commutes with a + s*b |
| YaStm.ApplyZero | models/model_ya_stm.cpp:189-198 | the right-hand side maps the zero state to zero |
| YaStm.DerivLinear | models/model_ya_stm.cpp:150-201 | the derivative is defined for all states or none at t, and it is linear in the state |
| YaStm.Rk4 | models/model_ya_stm.cpp:203-243 | a successful RK4 step has a finite result and needed the coefficients at t, t + h/2 and t + h |
| YaStm.Rk4Step | models/model_ya_stm.cpp:203-243 | the imperative step succeeds exactly when the specification does, with the same state |
| YaStm.Rk4Zero | models/model_ya_stm.cpp:203-243 | RK4 from the zero state fails or stays at zero |
| YaStm.Substep | models/model_ya_stm.cpp:331-340 | one pass of the sub-step loop is one RK4 step: on success, the remaining n - 1 steps from the new state give the n-step composition; on failure, the composition fails |
| YaStm.SubstepCount | models/model_ya_stm.cpp:328 | N = ceil(dt/max_h) is at least 1, with N - 1 < dt/max_h <= N |
| YaStm.Subdivision | models/model_ya_stm.cpp:327-329 | the sub-step h = dt/N is at most max_h, and N*h = dt |
| YaStm.AdvanceTo | models/model_ya_stm.cpp:322-341 | advancing from t_prev to t_target succeeds exactly when the stepper does, with its state |
| YaStm.RepeatedTimeKeepsState | models/model_ya_stm.cpp:322-323 | advancing by dt = 0 keeps the state |
| YaStm.SubstepsZero | models/model_ya_stm.cpp:331-340 | any number of sub-steps from zero fails or stays at zero |
| YaStm.SubstepIntegrationKeepsZero | models/model_ya_stm.cpp:322-341 | sub-stepped integration keeps the zero state at zero |
| YaStm.SubstepIntegrationStandsStill | models/model_ya_stm.cpp:322-341 | sub-stepped integration over a zero interval stands still |
| YaStm.NextPoint | models/model_ya_stm.cpp:309-341 | a grid point is reached iff its offset is usable, not before the previous one, and the integration succeeds |
| YaStm.WalkTo | models/model_ya_stm.cpp:305-351 | the walk over the first i offsets: on success one state per offset, the last time the last offset; on failure fewer states |
| YaStm.StoppedStays | models/model_ya_stm.cpp:310-320 | once the walk fails, later offsets change nothing |
| YaStm.WalkPrefix | models/model_ya_stm.cpp:343-350 | the states written grow by prefix as the walk proceeds |
| YaStm.WalkZero | models/model_ya_stm.cpp:305-351 | from the zero state, every written state is zero |
| YaStm.BadOffsetStops | models/model_ya_stm.cpp:310-314 | an unusable offset stops the walk, with no state written for it or after it |
| YaStm.DecreaseStops | models/model_ya_stm.cpp:315-320 | a decreasing offset stops the walk before it |
| YaStm.RepeatedTimeReemits | models/model_ya_stm.cpp:322-343 | a repeated offset re-emits the previous state |
| YaStm.Trajectory | models/model_ya_stm.cpp:247-355 | the states written by predict_ya_stm, at most one per offset, and none without the capacity |
| YaStm.Outcome | models/model_ya_stm.cpp:247-355 | steps_written counts the written states; invalid inputs give kInvalidInput with 0; an empty grid gives kOk; kInsufficientOutputCapacity iff the span is too short; kOk iff every offset was reached, and then every offset was written |
| YaStm.PredictYa | models/model_ya_stm.cpp:247-355 | predict_ya_stm returns the specified outcome, and overwrites exactly the written rows of out_r (and out_v when wanted) |
| YaStm.GridPoint | models/model_ya_stm.cpp:309-341 | one grid point's checks and integration agree with the specification |
| YaStm.StoreState | models/model_ya_stm.cpp:343-350 | stores the state's position, and its velocity when wanted, at row i |
| YaStm.VisitPoint | models/model_ya_stm.cpp:307-351 | one iteration of the grid loop extends the walk by one point or stops it |
| YaStm.WalkGrid | models/model_ya_stm.cpp:304-354 | the grid loop writes the specified trajectory and returns its outcome |
| YaStm.ZeroStateStaysZero | models/model_ya_stm.cpp:247-355 | a deputy starting at the chief is predicted at the chief, with zero relative velocity, at every written step |
| RelativePrediction.OrbitRate | core/relative_predictor.cpp:43-60 | the fallback rate, when it exists, is positive and representable, and it needs a finite chief with \|r\| > 0 |
| RelativePrediction.OrbitRateTimesRadiusSquared | core/relative_predictor.cpp:52-54 | the fallback rate times \|r\|^2 is \|r x v\| |
| RelativePrediction.MeanMotion | core/relative_predictor.cpp:32-61 | any mean motion the predictor uses is a finite positive double |
| RelativePrediction.FrameRateFirst | core/relative_predictor.cpp:36-41 | a snapshot with a usable omega_ric.z determines the mean motion, whatever the chief |
| RelativePrediction.FallbackToOrbitRate | core/relative_predictor.cpp:43-60 | without a usable frame rate, the mean motion is the orbit rate, and a non-finite chief gives none |
| RelativePrediction.ConstructedRateAgrees | core/bullseye_frame_math.cpp:107-114 | for a constructed frame, the frame-rate path and the fallback path give the same n |
| RelativePrediction.InitialState | core/relative_predictor.cpp:111-131 | a deputy contributes an initial state only when it is OK, has a frame id, and shares the chief's frame id |
| RelativePrediction.RowAfter | core/relative_predictor.cpp:133-140 | the row after the HCW call (or after a skipped vehicle) has the row's length |
| RelativePrediction.PredictRowAsWritten | core/relative_predictor.cpp:133-140 | the source's call, with the whole grid and a span of `steps` entries, leaves the row as RowAfter says |
| RelativePrediction.PredictRow | core/relative_predictor.cpp:133-140 | the corrected call, with the first `steps` offsets, leaves the row as RowAfter says |
| RelativePrediction.LongGridLeavesRowStale | core/relative_predictor.cpp:103-140 | as written, a grid longer than the span leaves the row stale |
| RelativePrediction.LongGridExample | core/relative_predictor.cpp:103-104 | horizon 600 at cadence 1 gives MAX_STEPS + 1 usable offsets |
| RelativePrediction.GridOffsetsUsable | models/model_hcw.cpp:95-100 | every offset of a valid grid passes the HCW offset test |
| RelativePrediction.IntendedRowFilled | core/relative_predictor.cpp:133-140 | with the corrected call, the first `steps` cells of a usable vehicle's row are its HCW positions, and the rest are kept |
| RelativePrediction.RelativePredictor.TargetRowAsWritten | core/relative_predictor.cpp:103-140 | the row the source's call leaves: MAX_STEPS cells, and rows past the registered vehicles untouched |
| RelativePrediction.RelativePredictor.LongGridKeepsEveryRow | core/relative_predictor.cpp:103-140 | as written, a grid longer than MAX_STEPS leaves every vehicle's row as it was |
| RelativePrediction.RelativePredictor.FittingGridAsIntended | core/relative_predictor.cpp:103-140 | when the grid fits in MAX_STEPS, the source's call and the corrected call leave the same row |
| RelativePrediction.RelativePredictor.UsableVehicleRowFilled | core/relative_predictor.cpp:106-140 | a vehicle with a finite initial state, a positive rate and usable offsets gets its HCW positions in the first `steps` cells, and the rest are kept |
| RelativePrediction.Plan.Steps | core/relative_predictor.cpp:103 | the offsets predicted per vehicle number at most the grid length and at most MAX_STEPS |
| RelativePrediction.RelativePredictor.constructor | core/relative_predictor.hpp:93-104 | the predictor holds the publisher, map, providers and frame it is given |
| RelativePrediction.RelativePredictor.Prepare | core/relative_predictor.cpp:65-89 | the tick goes ahead iff the grid is non-empty, the chief is OK with a frame id, the snapshot is OK, and a mean motion exists; the plan holds exactly those values |
| RelativePrediction.RelativePredictor.TargetRow | core/relative_predictor.cpp:106-141 | each row has MAX_STEPS cells, and a row past the registered vehicles is left as it was |
| RelativePrediction.RelativePredictor.FillVehicleRow | core/relative_predictor.cpp:107-140 | one vehicle's row becomes its target row |
| RelativePrediction.RelativePredictor.VisitVehicle | core/relative_predictor.cpp:106-141 | one iteration of the vehicle loop writes row i and no other row |
| RelativePrediction.RelativePredictor.WriteRows | core/relative_predictor.cpp:103-141 | after the vehicle loop, every row of the back buffer is its target row |
| RelativePrediction.RelativePredictor.WriteAndPublish | core/relative_predictor.cpp:101-144 | after begin_write, fill and publish, the written buffer is visible, stamped t0, with seqno + 1 |
| RelativePrediction.RelativePredictor.Step | core/relative_predictor.cpp:63-145 | a tick that fails any early check publishes nothing and writes nothing; otherwise it publishes once, and the visible rows are the target rows |
| DummyPrediction.Cells | core/dummy_predictor.cpp:35-44 | cell k of vehicle i's row is (i + 0.001k, k + 0.01i, tau[k]) |
| DummyPrediction.CellDecodes | core/dummy_predictor.cpp:29-42 | within the buffer's bounds, a cell gives back its vehicle and step indices and the offset |
| DummyPrediction.CellsDistinct | core/dummy_predictor.cpp:38-42 | no two (vehicle, step) pairs write the same cell value |
| DummyPrediction.DummyPredictor.constructor | core/dummy_predictor.hpp:25-27 | the predictor holds the publisher and map it is given |
| DummyPrediction.DummyPredictor.TargetRow | core/dummy_predictor.cpp:24-47 | a registered vehicle's first min(\|tau\|, MAX_STEPS) cells are the pattern, and all other cells are stale |
| DummyPrediction.DummyPredictor.FillRow | core/dummy_predictor.cpp:36-43 | the step loop writes the first `steps` pattern cells and keeps the rest |
| DummyPrediction.DummyPredictor.VisitRow | core/dummy_predictor.cpp:35-44 | one vehicle iteration writes row i and no other row |
| DummyPrediction.DummyPredictor.WriteRows | core/dummy_predictor.cpp:27-44 | after both loops, every row is its target row |
| DummyPrediction.DummyPredictor.WriteAndPublish | core/dummy_predictor.cpp:21-49 | the filled buffer is published once, stamped t0, with seqno + 1 |
| DummyPrediction.DummyPredictor.Step | core/dummy_predictor.cpp:11-53 | an empty grid publishes nothing; otherwise one publish makes the pattern rows visible |

## Left out

- Floating-point rounding inside the double range is not modelled. Arithmetic is exact on reals, and only overflow to infinity (`Num.Round`) and NaN propagation are represented. Properties that hold exactly here (linearity of HCW, round trips of the transforms) hold only up to rounding in the program.
- Overflow of intermediate products inside one expression is not tracked separately. A computed value is treated as finite when its exact value is representable.
- `std::sqrt`, `std::sin`, `std::cos` and the Stumpff functions of core/math/stumpff.hpp are parameters, constrained only by the laws a proof needs (the square root's law; sin 0 = 0 and cos 0 = 1); the Stumpff functions are unconstrained. Convergence of the Newton iteration is therefore not proved; its fixed-count control flow is.
- Logging (every `LOG_*` call, core/logging.cpp) is left out. The providers' log-once latches and warning rate limiters are kept, because they are state.
- The publisher's atomics and memory orders are left out; the model is single-threaded. Concurrent readers and the release/acquire publication are not modelled.
- `PredictionBuffer::write_positions` and `reset` are declared in core/prediction_buffer.hpp but defined and called nowhere in the library, so they are not modelled.
- TimeGrid.MakeTimeGrid: requires that the horizon is not +inf while the cadence is finite. In the source, that case casts an infinite quotient to `size_t`, which is undefined behaviour. Both predictors' `Step` methods carry the same requirement.
- The predictors' `Step` methods compute the grid with `TimeGrid.Grid`, the function that `MakeTimeGrid` is proved to return, rather than by calling the method.
- TimeGrid.MakeTimeGrid: integers are unbounded, so a quotient whose floor is 2^64 or more, which the source casts to `size_t` with undefined behaviour, is not modelled; nor is `reserve` throwing when it cannot allocate.
- YaStm.SubstepCount: the cast of ceil(dt/max_h) to `std::uint64_t` is not bounded; a count of 2^64 or more, undefined behaviour in the source, is an unbounded integer here.
- RelativePrediction.InitialState: a deputy or frame with a non-finite input yields no initial state. In the source, the transformed non-finite state is refused by the HCW input check, so the row is skipped either way.
- The source's `if (!vid.has_value()) continue;` in the vehicle loop is not modelled as a branch, because `id_at(i)` always has a value for i < size.
- The chief, deputy and adopted-frame providers that the predictors and `BullseyeFrame::update` call through interfaces are functions of the time (and of the vehicle id). Their side effects (log latches, sorting, rate limiting) are not threaded through a tick.
- RelativePrediction.MeanMotion: does not promise that a frame-supplied rate is a representable real, only that it is a finite positive double, because the model's finite doubles are not range-checked.
- RelativePrediction.RelativePredictor.TargetRow: is the row the corrected call leaves (the first min(|tau|, MAX_STEPS) offsets). As written, a grid of more than MAX_STEPS offsets leaves every row stale; `TargetRowAsWritten` and `LongGridKeepsEveryRow` state that case, and `FittingGridAsIntended` shows the two agree otherwise. Its own contract states only the row length and the untouched rows; the content of a usable vehicle's row is stated by `UsableVehicleRowFilled`.
- RelativePrediction.RelativePredictor.FillVehicleRow: fills the row with the corrected call, so it does not reproduce the stale row the source leaves when the grid is longer than MAX_STEPS (see the finding).
- RelativePrediction.RelativePredictor.VisitVehicle: writes the corrected row, not the source's stale row, for grids longer than MAX_STEPS.
- RelativePrediction.RelativePredictor.WriteRows: promises the corrected rows; for grids longer than MAX_STEPS the source leaves every row stale instead.
- RelativePrediction.RelativePredictor.WriteAndPublish: publishes the corrected rows; for grids longer than MAX_STEPS the source publishes stale rows.
- RelativePrediction.RelativePredictor.Step: the visible rows are the corrected target rows; for grids longer than MAX_STEPS (horizon 600 s at cadence 1 s) the source publishes stale rows.
- `Span` aliasing between the position and velocity outputs is excluded by precondition in `Hcw.PredictHcw` and `YaStm.PredictYa`; the predictors pass no velocity span.
- Bit-level layout of the enumerations (`std::uint8_t` codes) is not modelled; only their values are.

## Findings

| source | as written | input that shows it | evidently intended | confidence | as-written member | corrected member |
|---|---|---|---|---|---|---|
| core/relative_predictor.cpp:103-135 | `predict_hcw` is given the whole grid but a span of only `steps` = min(\|tau\|, MAX_STEPS) entries, and models/model_hcw.cpp:58 refuses a span shorter than the grid | horizon 600 s, cadence 1 s: the grid has 601 offsets and the span 600 entries, so every vehicle's call fails with insufficient capacity and its row stays stale, yet the tick still publishes | predict the first `steps` offsets into the `steps`-entry span | not executed | RelativePrediction.PredictRowAsWritten | RelativePrediction.PredictRow |
