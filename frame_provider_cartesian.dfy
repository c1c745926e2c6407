// The Cartesian adopted-frame provider (core/frame_provider_cartesian.cpp):
// serves an externally supplied RIC frame (origin, DCM and optionally omega)
// at exactly the requested time, from a "current" frame or a time series.
module CartesianFrame {
  import opened Num
  import opened Types
  import opened Wrappers
  import opened ExactTime

  datatype Mode = Current | TimeSeries

  datatype Sample = Sample(t: Double, origin: DVec3, C: DMat3, hasOmega: bool, omegaRic: DVec3)

  function SampleTime(s: Sample): Double { s.t }

  /** What a successful `get` reports for a matching sample. */
  function FrameOf(s: Sample, id: Option<FrameRef>): (f: AdoptedRicFrame)
    ensures f.status.Ok() && f.frameKind == BullseyeRIC && f.axisOrder == RIC
    ensures f.omegaCoords == OmegaRIC <==> f.hasOmega
    ensures f.omegaCoords != OmegaRIC ==> f.omegaCoords == OmegaUnspecified && f.omegaRic == ZeroD
  {
    DefaultAdopted.(frameSourceId := id, frameKind := BullseyeRIC, axisOrder := RIC,
                    timeTag := s.t, origin := s.origin, C := s.C, hasOmega := s.hasOmega,
                    omegaRic := if s.hasOmega then s.omegaRic else ZeroD,
                    omegaCoords := if s.hasOmega then OmegaRIC else OmegaUnspecified,
                    status := ProviderStatus(KOk))
  }

  class CartesianFrameProvider {
    const frameSourceId: Option<FrameRef>
    const mode: Mode
    const warnPeriod: Double
    var lastWarnT0: Double
    var invalidLogged: bool
    var current: Sample
    var samples: seq<Sample>
    var sorted: bool

    ghost predicate Valid()
      reads this
    {
      sorted ==> Sortable(SampleTime, samples) && SortedByTime(SampleTime, samples)
    }

    constructor (frameSourceId: Option<FrameRef>, mode: Mode, warnPeriod: Double)
      ensures Valid()
      ensures this.frameSourceId == frameSourceId && this.mode == mode && this.warnPeriod == warnPeriod
      ensures current == Sample(NaN, ZeroD, IdentityD, false, ZeroD) && samples == [] && sorted
      ensures lastWarnT0 == NeverWarned && !invalidLogged
    {
      this.frameSourceId := frameSourceId;
      this.mode := mode;
      this.warnPeriod := warnPeriod;
      lastWarnT0 := NeverWarned;
      invalidLogged := false;
      current := Sample(NaN, ZeroD, IdentityD, false, ZeroD);
      samples := [];
      sorted := true;
    }

    /** `set_current`: time, origin and DCM; omega keeps its earlier setting. */
    method SetCurrent(t: Double, origin: DVec3, C: DMat3)
      requires Valid()
      modifies this
      ensures Valid()
      ensures current == old(current).(t := t, origin := origin, C := C)
      ensures samples == old(samples) && sorted == old(sorted)
      ensures lastWarnT0 == old(lastWarnT0) && invalidLogged == old(invalidLogged)
    {
      current := current.(t := t, origin := origin, C := C);
    }

    /** `set_current_omega_ric` */
    method SetCurrentOmegaRic(omega: DVec3)
      requires Valid()
      modifies this
      ensures Valid()
      ensures current == old(current).(hasOmega := true, omegaRic := omega)
      ensures samples == old(samples) && sorted == old(sorted)
      ensures lastWarnT0 == old(lastWarnT0) && invalidLogged == old(invalidLogged)
    {
      current := current.(hasOmega := true, omegaRic := omega);
    }

    /** `clear_current_omega` */
    method ClearCurrentOmega()
      requires Valid()
      modifies this
      ensures Valid()
      ensures current == old(current).(hasOmega := false, omegaRic := ZeroD)
      ensures samples == old(samples) && sorted == old(sorted)
      ensures lastWarnT0 == old(lastWarnT0) && invalidLogged == old(invalidLogged)
    {
      current := current.(hasOmega := false, omegaRic := ZeroD);
    }

    /** `add_sample`: a sample without omega, appended; the store is then unsorted. */
    method AddSample(t: Double, origin: DVec3, C: DMat3)
      requires Valid()
      modifies this
      ensures Valid()
      ensures samples == old(samples) + [Sample(t, origin, C, false, ZeroD)] && !sorted
      ensures current == old(current) && lastWarnT0 == old(lastWarnT0) && invalidLogged == old(invalidLogged)
    {
      samples := samples + [Sample(t, origin, C, false, ZeroD)];
      sorted := false;
    }

    /**
     * `set_last_sample_omega_ric`: gives omega to the back of the store (the
     * last sample added, or the latest in time once a lookup has sorted it);
     * on an empty store it does nothing.
     */
    method SetLastSampleOmegaRic(omega: DVec3)
      requires Valid()
      modifies this
      ensures Valid()
      ensures old(samples) == [] ==> samples == []
      ensures old(samples) != [] ==>
                |samples| == |old(samples)|
                && samples[..|samples| - 1] == old(samples)[..|samples| - 1]
                && samples[|samples| - 1] == old(samples)[|samples| - 1].(hasOmega := true, omegaRic := omega)
      ensures sorted == old(sorted) && current == old(current)
      ensures lastWarnT0 == old(lastWarnT0) && invalidLogged == old(invalidLogged)
    {
      if |samples| == 0 {
        return;
      }
      var n := |samples| - 1;
      samples := samples[n := samples[n].(hasOmega := true, omegaRic := omega)];
      assert forall i :: 0 <= i < |samples| ==> SampleTime(samples[i]) == SampleTime(old(samples)[i]);
    }

    /** `clear_samples` */
    method ClearSamples()
      requires Valid()
      modifies this
      ensures Valid()
      ensures samples == [] && sorted
      ensures current == old(current) && lastWarnT0 == old(lastWarnT0) && invalidLogged == old(invalidLogged)
    {
      samples := [];
      sorted := true;
    }

    /** `ensure_sorted_` */
    method EnsureSorted()
      requires Valid() && (sorted || Sortable(SampleTime, samples))
      modifies this
      ensures Valid() && sorted
      ensures multiset(samples) == multiset(old(samples))
      ensures old(sorted) ==> samples == old(samples)
      ensures current == old(current) && lastWarnT0 == old(lastWarnT0) && invalidLogged == old(invalidLogged)
    {
      if sorted {
        return;
      }
      SortSortable(SampleTime, samples);
      samples := SortByTime(SampleTime, samples);
      sorted := true;
    }

    /** `should_warn_time_missing_` */
    method ShouldWarnTimeMissing(t0: Double) returns (warn: bool)
      requires Valid()
      modifies this
      ensures Valid()
      ensures (warn, lastWarnT0) == WarnDecision(warnPeriod, old(lastWarnT0), t0)
      ensures samples == old(samples) && sorted == old(sorted) && current == old(current) && invalidLogged == old(invalidLogged)
    {
      if Le(warnPeriod, Fin(0.0)) {
        return true;
      }
      if Ge(DSub(t0, lastWarnT0), warnPeriod) {
        lastWarnT0 := t0;
        return true;
      }
      return false;
    }

    /** `log_invalid_input_once_` */
    method LogInvalidInputOnce()
      requires Valid()
      modifies this
      ensures Valid() && invalidLogged
      ensures samples == old(samples) && sorted == old(sorted) && current == old(current) && lastWarnT0 == old(lastWarnT0)
    {
      if invalidLogged {
        return;
      }
      invalidLogged := true;
    }

    /**
     * `get(t0)`: the frame at exactly t0. Past the configuration checks the
     * frame is always declared Bullseye RIC with RIC axes, even when the
     * time is missing.
     */
    method Get(t0: Double) returns (out: AdoptedRicFrame)
      requires Valid()
      requires frameSourceId.Some? && t0.IsFinite() && mode == TimeSeries && !sorted ==> Sortable(SampleTime, samples)
      modifies this
      ensures Valid()
      ensures out.frameSourceId == frameSourceId
      ensures out.status.code in {KOk, KTimeMissing, KInvalidInput}
      ensures out.status.code == KInvalidInput <==> frameSourceId.None? || !t0.IsFinite()
      ensures out.status.code == KInvalidInput ==> out == DefaultAdopted.(frameSourceId := frameSourceId, status := out.status) && invalidLogged
      ensures out.status.code != KInvalidInput ==> out.frameKind == BullseyeRIC && out.axisOrder == RIC
      ensures out.status.code == KTimeMissing ==>
                out == DefaultAdopted.(frameSourceId := frameSourceId, frameKind := BullseyeRIC, axisOrder := RIC, status := out.status)
      ensures out.omegaCoords == OmegaRIC <==> out.hasOmega
      ensures out.status.code != KInvalidInput && mode == Current ==>
                (out.status.Ok() <==> Eq(current.t, t0))
                && (out.status.Ok() ==> out == FrameOf(current, frameSourceId) && out.timeTag == t0)
      ensures out.status.code != KInvalidInput && mode == TimeSeries ==>
                (out.status.Ok() <==> HasTime(SampleTime, old(samples), t0))
                && (out.status.Ok() ==> out.timeTag == t0)
                && (out.status.Ok() ==> exists i :: 0 <= i < |old(samples)| && out == FrameOf(old(samples)[i], frameSourceId))
      ensures multiset(samples) == multiset(old(samples)) && current == old(current)
      ensures old(invalidLogged) ==> invalidLogged
      ensures out.status.code == KTimeMissing ==> lastWarnT0 == WarnDecision(warnPeriod, old(lastWarnT0), t0).1
      ensures out.status.code != KTimeMissing ==> lastWarnT0 == old(lastWarnT0)
      ensures out.status.code != KInvalidInput && mode == TimeSeries ==> sorted
      ensures out.status.code == KInvalidInput || mode == Current ==> samples == old(samples) && sorted == old(sorted)
      ensures old(sorted) ==> samples == old(samples)
      ensures out.status.code != KInvalidInput ==> invalidLogged == old(invalidLogged)
    {
      out := DefaultAdopted.(frameSourceId := frameSourceId);
      if frameSourceId.None? {
        out := out.(status := ProviderStatus(KInvalidInput));
        LogInvalidInputOnce();
        return;
      }
      if !t0.IsFinite() {
        out := out.(status := ProviderStatus(KInvalidInput));
        LogInvalidInputOnce();
        return;
      }
      out := out.(frameKind := BullseyeRIC, axisOrder := RIC, omegaCoords := OmegaUnspecified);
      if mode == Current {
        if !Eq(current.t, t0) {
          out := out.(status := ProviderStatus(KTimeMissing));
          var warn := ShouldWarnTimeMissing(t0);
          return;
        }
        EqMeansSame(current.t, t0);
        out := out.(timeTag := current.t, origin := current.origin, C := current.C, hasOmega := current.hasOmega);
        if out.hasOmega {
          out := out.(omegaRic := current.omegaRic, omegaCoords := OmegaRIC);
        }
        out := out.(status := ProviderStatus(KOk));
        return;
      }
      EnsureSorted();
      SameSamplesSameMatches(SampleTime, old(samples), samples, t0);
      var lo := LowerBound(SampleTime, samples, t0);
      LookupExact(SampleTime, samples, t0, lo);
      if lo == |samples| || !Eq(samples[lo].t, t0) {
        out := out.(status := ProviderStatus(KTimeMissing));
        var warn := ShouldWarnTimeMissing(t0);
        return;
      }
      var hit := samples[lo];
      assert hit in multiset(old(samples));
      ghost var i :| 0 <= i < |old(samples)| && old(samples)[i] == hit;
      out := out.(timeTag := hit.t, origin := hit.origin, C := hit.C, hasOmega := hit.hasOmega);
      if out.hasOmega {
        out := out.(omegaRic := hit.omegaRic, omegaCoords := OmegaRIC);
      }
      out := out.(status := ProviderStatus(KOk));
    }
  }

  /** A current-mode frame with omega set is reported with omega declared in RIC coordinates. */
  method CurrentOmegaDeclared(id: FrameRef, origin: DVec3, C: DMat3, omega: DVec3) returns (out: AdoptedRicFrame)
    ensures out.status.Ok() && out.hasOmega && out.omegaCoords == OmegaRIC && out.omegaRic == omega
    ensures out.origin == origin && out.C == C && out.timeTag == Fin(5.0)
  {
    var p := new CartesianFrameProvider(Some(id), Current, Fin(1.0));
    p.SetCurrentOmegaRic(omega);
    p.SetCurrent(Fin(5.0), origin, C);
    out := p.Get(Fin(5.0));
  }

  /** Omega given to the last-added sample travels with it through the sort. */
  method LastSampleOmegaFound(id: FrameRef, o1: DVec3, o2: DVec3, C: DMat3, omega: DVec3) returns (out: AdoptedRicFrame)
    ensures out.status.Ok() && out.timeTag == Fin(1.0) && out.origin == o1
    ensures out.hasOmega && out.omegaRic == omega
  {
    var p := new CartesianFrameProvider(Some(id), TimeSeries, Fin(1.0));
    p.AddSample(Fin(2.0), o2, C);
    p.AddSample(Fin(1.0), o1, C);
    p.SetLastSampleOmegaRic(omega);
    assert p.samples == [Sample(Fin(2.0), o2, C, false, ZeroD), Sample(Fin(1.0), o1, C, true, omega)];
    assert Eq(SampleTime(p.samples[1]), Fin(1.0));
    out := p.Get(Fin(1.0));
  }
}
