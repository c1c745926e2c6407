// The Cartesian chief-state provider (core/provider_cartesian.cpp): serves
// the chief's inertial state at exactly the requested time, either from a
// single "current" sample or from a time series of samples.
module CartesianChief {
  import opened Num
  import opened Types
  import opened Wrappers
  import opened ExactTime

  datatype Mode = Current | TimeSeries

  datatype Sample = Sample(t: Double, r: DVec3, v: DVec3)

  function SampleTime(s: Sample): Double { s.t }

  class CartesianChiefProvider {
    const inertialFrameId: Option<FrameRef>
    const mode: Mode
    const warnPeriod: Double
    var lastWarnT0: Double
    var invalidLogged: bool
    var current: Sample
    var samples: seq<Sample>
    var sorted: bool

    /** The sorted flag is only ever set over a store that is in time order. */
    ghost predicate Valid()
      reads this
    {
      sorted ==> Sortable(SampleTime, samples) && SortedByTime(SampleTime, samples)
    }

    /** The current sample starts at NaN, a time no request can match. */
    constructor (inertialFrameId: Option<FrameRef>, mode: Mode, warnPeriod: Double)
      ensures Valid()
      ensures this.inertialFrameId == inertialFrameId && this.mode == mode && this.warnPeriod == warnPeriod
      ensures current.t == NaN && samples == [] && sorted
      ensures lastWarnT0 == NeverWarned && !invalidLogged
    {
      this.inertialFrameId := inertialFrameId;
      this.mode := mode;
      this.warnPeriod := warnPeriod;
      lastWarnT0 := NeverWarned;
      invalidLogged := false;
      current := Sample(NaN, ZeroD, ZeroD);
      samples := [];
      sorted := true;
    }

    /** `set_current`: replace the current sample. */
    method SetCurrent(t: Double, r: DVec3, v: DVec3)
      requires Valid()
      modifies this
      ensures Valid()
      ensures current == Sample(t, r, v)
      ensures samples == old(samples) && sorted == old(sorted)
      ensures lastWarnT0 == old(lastWarnT0) && invalidLogged == old(invalidLogged)
    {
      current := Sample(t, r, v);
    }

    /** `add_sample`: append, and mark the store unsorted. */
    method AddSample(t: Double, r: DVec3, v: DVec3)
      requires Valid()
      modifies this
      ensures Valid()
      ensures samples == old(samples) + [Sample(t, r, v)] && !sorted
      ensures current == old(current) && lastWarnT0 == old(lastWarnT0) && invalidLogged == old(invalidLogged)
    {
      samples := samples + [Sample(t, r, v)];
      sorted := false;
    }

    /** `clear_samples`: empty the store, which is then trivially sorted. */
    method ClearSamples()
      requires Valid()
      modifies this
      ensures Valid()
      ensures samples == [] && sorted
      ensures current == old(current) && lastWarnT0 == old(lastWarnT0) && invalidLogged == old(invalidLogged)
    {
      samples := [];
      sorted := true;
    }

    /** `ensure_sorted_`: sort by time unless already sorted. */
    method EnsureSorted()
      requires Valid() && (sorted || Sortable(SampleTime, samples))
      modifies this
      ensures Valid() && sorted
      ensures multiset(samples) == multiset(old(samples))
      ensures old(sorted) ==> samples == old(samples)
      ensures current == old(current) && lastWarnT0 == old(lastWarnT0) && invalidLogged == old(invalidLogged)
    {
      if sorted {
        return;
      }
      SortSortable(SampleTime, samples);
      samples := SortByTime(SampleTime, samples);
      sorted := true;
    }

    /** `should_warn_time_missing_`: the rate-limited warning decision. */
    method ShouldWarnTimeMissing(t0: Double) returns (warn: bool)
      requires Valid()
      modifies this
      ensures Valid()
      ensures (warn, lastWarnT0) == WarnDecision(warnPeriod, old(lastWarnT0), t0)
      ensures samples == old(samples) && sorted == old(sorted) && current == old(current) && invalidLogged == old(invalidLogged)
    {
      if Le(warnPeriod, Fin(0.0)) {
        return true;
      }
      if Ge(DSub(t0, lastWarnT0), warnPeriod) {
        lastWarnT0 := t0;
        return true;
      }
      return false;
    }

    /** `log_invalid_input_once_`: the latch flips to true and stays there. */
    method LogInvalidInputOnce()
      requires Valid()
      modifies this
      ensures Valid() && invalidLogged
      ensures samples == old(samples) && sorted == old(sorted) && current == old(current) && lastWarnT0 == old(lastWarnT0)
    {
      if invalidLogged {
        return;
      }
      invalidLogged := true;
    }

    /**
     * `get(t0)`: the state at exactly t0. The time series is sorted first;
     * std::sort needs a strict weak order, so no sample time may be NaN.
     */
    method Get(t0: Double) returns (out: ChiefState)
      requires Valid()
      requires inertialFrameId.Some? && mode == TimeSeries && !sorted ==> Sortable(SampleTime, samples)
      modifies this
      ensures Valid()
      ensures out.frameId == inertialFrameId
      ensures out.status.code in {KOk, KTimeMissing, KInvalidInput}
      ensures !out.status.Ok() ==> out == DefaultChief.(frameId := inertialFrameId, status := out.status)
      ensures inertialFrameId.None? ==> out.status.code == KInvalidInput && invalidLogged
      ensures inertialFrameId.Some? ==> out.status.code != KInvalidInput
      ensures inertialFrameId.Some? && mode == Current ==>
                (out.status.Ok() <==> Eq(current.t, t0))
                && (out.status.Ok() ==> out.timeTag == t0 && out.r == current.r && out.v == current.v)
      ensures inertialFrameId.Some? && mode == TimeSeries ==>
                (out.status.Ok() <==> HasTime(SampleTime, old(samples), t0))
                && (out.status.Ok() ==> exists i :: 0 <= i < |old(samples)| && old(samples)[i].t == t0
                                                   && out.r == old(samples)[i].r && out.v == old(samples)[i].v)
                && out.timeTag == (if out.status.Ok() then t0 else Fin(0.0))
      ensures multiset(samples) == multiset(old(samples)) && current == old(current)
      ensures old(invalidLogged) ==> invalidLogged
      ensures out.status.Ok() || inertialFrameId.None? ==> lastWarnT0 == old(lastWarnT0)
      ensures out.status.code == KTimeMissing ==> lastWarnT0 == WarnDecision(warnPeriod, old(lastWarnT0), t0).1
      ensures inertialFrameId.Some? && mode == TimeSeries ==> sorted
      ensures inertialFrameId.None? || mode == Current ==> samples == old(samples) && sorted == old(sorted)
      ensures old(sorted) ==> samples == old(samples)
      ensures inertialFrameId.Some? ==> invalidLogged == old(invalidLogged)
    {
      out := DefaultChief.(frameId := inertialFrameId);
      if inertialFrameId.None? {
        out := out.(status := ProviderStatus(KInvalidInput));
        LogInvalidInputOnce();
        return;
      }
      if mode == Current {
        if !Eq(current.t, t0) {
          out := out.(status := ProviderStatus(KTimeMissing));
          var warn := ShouldWarnTimeMissing(t0);
          return;
        }
        EqMeansSame(current.t, t0);
        out := out.(timeTag := current.t, r := current.r, v := current.v, status := ProviderStatus(KOk));
        return;
      }
      EnsureSorted();
      SameSamplesSameMatches(SampleTime, old(samples), samples, t0);
      var lo := LowerBound(SampleTime, samples, t0);
      LookupExact(SampleTime, samples, t0, lo);
      if lo == |samples| || !Eq(samples[lo].t, t0) {
        out := out.(status := ProviderStatus(KTimeMissing));
        var warn := ShouldWarnTimeMissing(t0);
        return;
      }
      var hit := samples[lo];
      assert hit in multiset(old(samples));
      ghost var i :| 0 <= i < |old(samples)| && old(samples)[i] == hit;
      out := out.(timeTag := hit.t, r := hit.r, v := hit.v, status := ProviderStatus(KOk));
    }
  }

  /** A freshly built current-mode provider answers every request with kTimeMissing. */
  method FreshCurrentNeverMatches(id: FrameRef, t0: Double) returns (out: ChiefState)
    ensures out.status.code == KTimeMissing
  {
    var p := new CartesianChiefProvider(Some(id), Current, Fin(1.0));
    out := p.Get(t0);
  }

  /** Samples added out of time order are still found at their exact times. */
  method OutOfOrderSamplesFound(id: FrameRef, r1: DVec3, r2: DVec3, v: DVec3) returns (out: ChiefState)
    ensures out.status.Ok() && out.timeTag == Fin(1.0) && out.r == r1
  {
    var p := new CartesianChiefProvider(Some(id), TimeSeries, Fin(1.0));
    p.AddSample(Fin(2.0), r2, v);
    p.AddSample(Fin(1.0), r1, v);
    assert p.samples == [Sample(Fin(2.0), r2, v), Sample(Fin(1.0), r1, v)];
    assert Eq(SampleTime(p.samples[1]), Fin(1.0));
    out := p.Get(Fin(1.0));
  }

  /** A store holding one sample with a NaN time is well within what `get` handles: nothing matches it. */
  method NaNSampleNeverMatches(id: FrameRef, r: DVec3, v: DVec3, t0: Double) returns (out: ChiefState)
    ensures out.status.code == KTimeMissing
  {
    var p := new CartesianChiefProvider(Some(id), TimeSeries, Fin(1.0));
    p.AddSample(NaN, r, v);
    out := p.Get(t0);
  }
}
