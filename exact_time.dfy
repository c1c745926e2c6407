// What the two Cartesian providers (core/provider_cartesian.cpp,
// core/frame_provider_cartesian.cpp) share: samples kept sorted by time,
// the exact-time lookup through lower_bound, and the rate limit on
// "time missing" warnings.
module ExactTime {
  import opened Num

  // ---------------------------------------------------------------------
  // `<` on sample times
  // ---------------------------------------------------------------------

  /**
   * std::sort needs `a.t < b.t` to be a strict weak order, which NaN breaks;
   * without NaN it is a strict total order.
   */
  predicate Ordered(d: Double) { d != NaN }

  lemma LtTotal(a: Double, b: Double)
    requires Ordered(a) && Ordered(b)
    ensures Lt(a, b) || Lt(b, a) || a == b
    ensures !(Lt(a, b) && Lt(b, a))
  {
  }

  /** a <= b < c gives a < c; it holds for any c, since nothing is below NaN. */
  lemma LeLtTrans(a: Double, b: Double, c: Double)
    requires Ordered(a) && Ordered(b) && !Lt(b, a) && Lt(b, c)
    ensures Lt(a, c)
  {
  }

  /** Exact equality `s.t == t0` on doubles is identity, except that NaN equals nothing. */
  lemma EqMeansSame(a: Double, b: Double)
    ensures Eq(a, b) <==> a == b && a != NaN
  {
  }

  // ---------------------------------------------------------------------
  // Sorting by time
  // ---------------------------------------------------------------------

  predicate TimesOrdered<T>(time: T -> Double, s: seq<T>)
  {
    forall i :: 0 <= i < |s| ==> Ordered(time(s[i]))
  }

  /**
   * What std::sort and lower_bound need of a store: with two or more
   * samples, no NaN time (a store of at most one sample is always fine).
   */
  predicate Sortable<T>(time: T -> Double, s: seq<T>)
  {
    |s| < 2 || TimesOrdered(time, s)
  }

  /** Ascending by time: no later element is strictly earlier. */
  predicate SortedByTime<T>(time: T -> Double, s: seq<T>)
  {
    forall i, j :: 0 <= i < j < |s| ==> !Lt(time(s[j]), time(s[i]))
  }

  /** Insert `x` before the first element not earlier than it. */
  function Insert<T>(time: T -> Double, x: T, s: seq<T>): (r: seq<T>)
    ensures multiset(r) == multiset(s) + multiset{x}
  {
    if |s| == 0 then [x]
    else if Lt(time(s[0]), time(x)) then
      assert s == [s[0]] + s[1..];
      [s[0]] + Insert(time, x, s[1..])
    else [x] + s
  }

  /** Inserting into a sorted store keeps it sorted. */
  lemma {:induction false} InsertSorted<T>(time: T -> Double, x: T, s: seq<T>)
    requires Ordered(time(x)) && TimesOrdered(time, s) && SortedByTime(time, s)
    ensures TimesOrdered(time, Insert(time, x, s)) && SortedByTime(time, Insert(time, x, s))
  {
    if |s| == 0 {
    } else if Lt(time(s[0]), time(x)) {
      var tail := s[1..];
      InsertSorted(time, x, tail);
      var rest := Insert(time, x, tail);
      forall k | 0 <= k < |rest| ensures !Lt(time(rest[k]), time(s[0])) {
        NotBelowHead(time, x, s, rest[k]);
      }
      ConsSorted(time, s[0], rest);
      assert Insert(time, x, s) == [s[0]] + rest;
    } else {
      forall k | 0 <= k < |s| ensures !Lt(time(s[k]), time(x)) {
        if k > 0 && Lt(time(s[k]), time(x)) {
          LtTotal(time(s[0]), time(x));
          LeLtTrans(time(s[0]), time(s[k]), time(x));
        }
      }
      ConsSorted(time, x, s);
      assert Insert(time, x, s) == [x] + s;
    }
  }

  /** When x goes after the head, nothing in the inserted tail is earlier than the head. */
  lemma NotBelowHead<T>(time: T -> Double, x: T, s: seq<T>, y: T)
    requires |s| > 0 && Lt(time(s[0]), time(x)) && SortedByTime(time, s)
    requires y in multiset(Insert(time, x, s[1..]))
    ensures !Lt(time(y), time(s[0]))
  {
    if y != x {
      assert y in multiset(s[1..]);
      var m :| 0 <= m < |s[1..]| && s[1..][m] == y;
      assert s[m + 1] == y;
    }
  }

  /** An element no later than anything in a sorted store can go in front of it. */
  lemma ConsSorted<T>(time: T -> Double, h: T, s: seq<T>)
    requires Ordered(time(h)) && TimesOrdered(time, s) && SortedByTime(time, s)
    requires forall k :: 0 <= k < |s| ==> !Lt(time(s[k]), time(h))
    ensures TimesOrdered(time, [h] + s) && SortedByTime(time, [h] + s)
  {
    var r := [h] + s;
    forall i, j | 0 <= i < j < |r| ensures !Lt(time(r[j]), time(r[i])) {
      if i > 0 {
        assert r[i] == s[i - 1] && r[j] == s[j - 1];
      } else {
        assert r[j] == s[j - 1];
      }
    }
    assert forall i :: 0 <= i < |r| ==> r[i] == if i == 0 then h else s[i - 1];
  }

  /** `std::sort` by time, as insertion sort. */
  function SortByTime<T>(time: T -> Double, s: seq<T>): (r: seq<T>)
    ensures multiset(r) == multiset(s)
  {
    if |s| == 0 then []
    else
      assert s == [s[0]] + s[1..];
      Insert(time, s[0], SortByTime(time, s[1..]))
  }

  /** The sort yields a store ascending by time. */
  lemma {:induction false} SortSorted<T>(time: T -> Double, s: seq<T>)
    requires TimesOrdered(time, s)
    ensures TimesOrdered(time, SortByTime(time, s)) && SortedByTime(time, SortByTime(time, s))
  {
    if |s| > 0 {
      SortSorted(time, s[1..]);
      InsertSorted(time, s[0], SortByTime(time, s[1..]));
    }
  }

  /** The sort, on any store it is defined for, yields a store ascending by time; one of at most one sample it leaves alone. */
  lemma SortSortable<T>(time: T -> Double, s: seq<T>)
    requires Sortable(time, s)
    ensures Sortable(time, SortByTime(time, s)) && SortedByTime(time, SortByTime(time, s))
    ensures |s| < 2 ==> SortByTime(time, s) == s
  {
    if |s| < 2 {
      if |s| == 1 {
        assert SortByTime(time, s[1..]) == [];
      }
    } else {
      SortSorted(time, s);
    }
  }

  // ---------------------------------------------------------------------
  // lower_bound and the exact-time match
  // ---------------------------------------------------------------------

  /** lower_bound's result: everything before `lo` is earlier than t0, nothing from `lo` on is. */
  predicate IsLowerBound<T>(time: T -> Double, s: seq<T>, t0: Double, lo: nat)
  {
    lo <= |s|
    && (forall i :: 0 <= i < lo ==> Lt(time(s[i]), t0))
    && (forall i :: lo <= i < |s| ==> !Lt(time(s[i]), t0))
  }

  /** `std::lower_bound(begin, end, t0, s.t < t)`: a binary search. */
  method LowerBound<T>(time: T -> Double, s: seq<T>, t0: Double) returns (lo: nat)
    requires Sortable(time, s) && SortedByTime(time, s)
    ensures IsLowerBound(time, s, t0, lo)
  {
    lo := 0;
    var hi := |s|;
    while lo < hi
      invariant 0 <= lo <= hi <= |s|
      invariant forall i :: 0 <= i < lo ==> Lt(time(s[i]), t0)
      invariant forall i :: hi <= i < |s| ==> !Lt(time(s[i]), t0)
      decreases hi - lo
    {
      var mid := lo + (hi - lo) / 2;
      if Lt(time(s[mid]), t0) {
        forall i | 0 <= i <= mid ensures Lt(time(s[i]), t0) {
          if i < mid {
            LeLtTrans(time(s[i]), time(s[mid]), t0);
          }
        }
        lo := mid + 1;
      } else {
        forall i | mid <= i < |s| ensures !Lt(time(s[i]), t0) {
          if i > mid && Lt(time(s[i]), t0) {
            LeLtTrans(time(s[mid]), time(s[i]), t0);
          }
        }
        hi := mid;
      }
    }
  }

  /** Whether the lookup at `lo` succeeds: `it != end && it->t == t0`. */
  predicate Hit<T>(time: T -> Double, s: seq<T>, t0: Double, lo: nat)
  {
    lo < |s| && Eq(time(s[lo]), t0)
  }

  /**
   * On a sorted store the lookup succeeds exactly when some sample has time
   * t0 exactly, and then the sample it lands on has that time: the store
   * never interpolates.
   */
  lemma LookupExact<T>(time: T -> Double, s: seq<T>, t0: Double, lo: nat)
    requires Sortable(time, s) && SortedByTime(time, s) && IsLowerBound(time, s, t0, lo)
    ensures Hit(time, s, t0, lo) <==> HasTime(time, s, t0)
    ensures Hit(time, s, t0, lo) ==> time(s[lo]) == t0
  {
    if HasTime(time, s, t0) {
      var i :| 0 <= i < |s| && Eq(time(s[i]), t0);
      EqMeansSame(time(s[i]), t0);
      assert i >= lo;
      LtTotal(time(s[lo]), t0);
      if lo < i {
        assert !Lt(time(s[i]), time(s[lo]));
      }
    }
  }

  /** Some sample has time t0 exactly. */
  predicate HasTime<T>(time: T -> Double, s: seq<T>, t0: Double)
  {
    exists i :: 0 <= i < |s| && Eq(time(s[i]), t0)
  }

  /**
   * Two stores holding the same samples, in whatever order, have the same
   * exact-time matches: sorting loses nothing a lookup could find.
   */
  lemma SameSamplesSameMatches<T>(time: T -> Double, before: seq<T>, after: seq<T>, t0: Double)
    requires multiset(after) == multiset(before)
    ensures HasTime(time, before, t0) <==> HasTime(time, after, t0)
  {
    if HasTime(time, before, t0) {
      var i :| 0 <= i < |before| && Eq(time(before[i]), t0);
      assert before[i] in multiset(after);
      var k :| 0 <= k < |after| && after[k] == before[i];
      assert Eq(time(after[k]), t0);
    }
    if HasTime(time, after, t0) {
      var k :| 0 <= k < |after| && Eq(time(after[k]), t0);
      assert after[k] in multiset(before);
      var i :| 0 <= i < |before| && before[i] == after[k];
      assert Eq(time(before[i]), t0);
    }
  }

  // ---------------------------------------------------------------------
  // Rate limit on "time missing" warnings
  // ---------------------------------------------------------------------

  /** The initial `last_warn_t0_`. */
  const NeverWarned: Double := Fin(-1.0e300)

  /**
   * `should_warn_time_missing_(t0)`: always, when the period is <= 0;
   * otherwise only once `t0 - last` reaches the period, which then becomes
   * the new `last`. Returns the decision and the new `last`.
   */
  function WarnDecision(period: Double, last: Double, t0: Double): (d: (bool, Double))
    ensures Le(period, Fin(0.0)) ==> d == (true, last)
    ensures !Le(period, Fin(0.0)) ==> (d.0 <==> Ge(DSub(t0, last), period))
    ensures d.1 == if d.0 && !Le(period, Fin(0.0)) then t0 else last
  {
    if Le(period, Fin(0.0)) then (true, last)
    else if Ge(DSub(t0, last), period) then (true, t0)
    else (false, last)
  }

  /**
   * With a positive period, two warnings are at least a period apart: once
   * a warning at t0 is issued, a query at t1 < t0 + period stays silent.
   */
  lemma WarningsSpaced(period: real, t0: real, t1: real, last: Double)
    requires 0.0 < period <= MaxFinite
    requires WarnDecision(Fin(period), last, Fin(t0)).0
    requires t1 - t0 < period
    ensures !WarnDecision(Fin(period), WarnDecision(Fin(period), last, Fin(t0)).1, Fin(t1)).0
  {
    assert !Le(Fin(period), Fin(0.0));
    assert WarnDecision(Fin(period), last, Fin(t0)).1 == Fin(t0);
    assert DSub(Fin(t1), Fin(t0)) == Round(t1 - t0);
  }
}
