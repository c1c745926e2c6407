// The prediction time grid (core/time_grid.cpp): offsets tau_k = k * cadence
// from the epoch, for k = 0 .. floor(horizon / cadence).
module TimeGrid {
  import opened Num

  /** The guard's rejection: `horizon < 0 || cadence <= 0` (false for NaN, so NaN passes). */
  predicate Rejected(horizon: Double, cadence: Double)
  {
    Lt(horizon, Fin(0.0)) || Le(cadence, Fin(0.0))
  }

  /**
   * `k_max`: floor(horizon / cadence) when that is positive, else 0. With a
   * NaN operand or an infinite cadence the quotient is NaN or 0, so k_max is 0.
   */
  function KMax(horizon: Double, cadence: Double): (k: nat)
    requires !Rejected(horizon, cadence)
    requires horizon != PosInf || !cadence.IsFinite()
  {
    if horizon.Fin? && cadence.Fin? then
      var q := Floor(horizon.v / cadence.v);
      if q > 0 then q else 0
    else 0
  }

  /** `static_cast<double>(k) * cadence`; a non-finite cadence only ever meets k == 0, giving NaN. */
  function Offset(k: nat, cadence: Double): Double
  {
    match cadence
    case Fin(c) => Fin(k as real * c)
    case PosInf => if k == 0 then NaN else PosInf
    case NegInf => if k == 0 then NaN else NegInf
    case NaN => NaN
  }

  /** The grid `make_time_grid(horizon, cadence)` returns. */
  function Grid(horizon: Double, cadence: Double): (tau: seq<Double>)
    requires horizon != PosInf || !cadence.IsFinite()
  {
    if Rejected(horizon, cadence) then []
    else seq(KMax(horizon, cadence) + 1, k requires 0 <= k => Offset(k, cadence))
  }

  /** `make_time_grid`: the push_back loop. */
  method MakeTimeGrid(horizon: Double, cadence: Double) returns (tau: seq<Double>)
    requires horizon != PosInf || !cadence.IsFinite()   // the cast of an infinite quotient is undefined
    ensures tau == Grid(horizon, cadence)
  {
    tau := [];
    if Lt(horizon, Fin(0.0)) || Le(cadence, Fin(0.0)) {
      return;
    }
    var kMax: nat := 0;
    if horizon.Fin? && cadence.Fin? {
      var kMaxD := Floor(horizon.v / cadence.v);
      if kMaxD > 0 {
        kMax := kMaxD;
      }
    }
    var k: nat := 0;
    while k <= kMax
      invariant k <= kMax + 1
      invariant |tau| == k
      invariant forall i :: 0 <= i < k ==> tau[i] == Offset(i, cadence)
    {
      tau := tau + [Offset(k, cadence)];
      k := k + 1;
    }
  }

  // ---------------------------------------------------------------------
  // Properties
  // ---------------------------------------------------------------------

  /** A negative horizon or a non-positive cadence gives the empty grid. */
  lemma InvalidInputsEmpty(horizon: Double, cadence: Double)
    requires horizon != PosInf || !cadence.IsFinite()
    ensures Grid(horizon, cadence) == [] <==> Rejected(horizon, cadence)
  {
  }

  /** For finite valid inputs the grid has floor(horizon / cadence) + 1 points, the first at 0. */
  lemma GridSize(h: real, c: real)
    requires h >= 0.0 && c > 0.0
    ensures |Grid(Fin(h), Fin(c))| == Floor(h / c) + 1
    ensures Grid(Fin(h), Fin(c))[0] == Fin(0.0)
  {
    assert h / c >= 0.0;
  }

  /** Each point is k * cadence, so the grid is strictly increasing. */
  lemma GridStrictlyIncreasing(h: real, c: real)
    requires h >= 0.0 && c > 0.0
    ensures forall k :: 0 <= k < |Grid(Fin(h), Fin(c))| ==> Grid(Fin(h), Fin(c))[k] == Fin(k as real * c)
    ensures forall i, j :: 0 <= i < j < |Grid(Fin(h), Fin(c))| ==> Grid(Fin(h), Fin(c))[i].v < Grid(Fin(h), Fin(c))[j].v
  {
    var g := Grid(Fin(h), Fin(c));
    forall i, j | 0 <= i < j < |g|
      ensures g[i].v < g[j].v
    {
      assert (j - i) as real * c > 0.0;
    }
  }

  /** The last point never passes the horizon, and one more step would. */
  lemma GridWithinHorizon(h: real, c: real)
    requires h >= 0.0 && c > 0.0
    ensures var g := Grid(Fin(h), Fin(c)); g[|g| - 1].v <= h < g[|g| - 1].v + c
  {
    var g := Grid(Fin(h), Fin(c));
    var n := Floor(h / c);
    assert h / c >= 0.0;
    assert |g| - 1 == n;
    FloorBracket(h, c);
  }

  /** floor(h / c) * c <= h < (floor(h / c) + 1) * c for c > 0. */
  lemma FloorBracket(h: real, c: real)
    requires c > 0.0
    ensures Floor(h / c) as real * c <= h < Floor(h / c) as real * c + c
  {
    var q := h / c;
    var n := Floor(q) as real;
    assert q * c == h;
    assert n <= q < n + 1.0;
    ScaleBelow(n, q, c);
    ScaleBelow(q, n + 1.0, c);
    assert q * c < (n + 1.0) * c;
    assert (n + 1.0) * c == n * c + c;
    assert h < n * c + c;
  }

  lemma ScaleBelow(a: real, b: real, c: real)
    requires a <= b && c > 0.0
    ensures a * c <= b * c
    ensures a < b ==> a * c < b * c
  {
  }

  /** make_time_grid(10, 2) is {0, 2, 4, 6, 8, 10}. */
  lemma TenByTwo()
    ensures Grid(Fin(10.0), Fin(2.0)) == [Fin(0.0), Fin(2.0), Fin(4.0), Fin(6.0), Fin(8.0), Fin(10.0)]
  {
    assert Floor(10.0 / 2.0) == 5;
  }

  /** The guard does not catch a NaN horizon: the grid is then the single point 0. */
  lemma NaNHorizonSinglePoint(c: real)
    requires c > 0.0
    ensures Grid(NaN, Fin(c)) == [Fin(0.0)]
  {
  }

  /** A NaN cadence also passes the guard, and the single point is NaN. */
  lemma NaNCadenceSinglePoint(horizon: Double)
    requires horizon != PosInf
    requires !Lt(horizon, Fin(0.0))
    ensures Grid(horizon, NaN) == [NaN]
  {
  }
}
