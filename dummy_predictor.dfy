// The deterministic pipeline check (core/dummy_predictor.cpp): each tick
// builds the time grid and, when it is not empty, fills the registered
// vehicles' rows of the back buffer with a pattern that encodes the vehicle
// and step indices, then publishes the buffer once.
module DummyPrediction {
  import opened Num
  import opened Types
  import opened RelativeModel
  import opened TimeGrid
  import opened VehicleIndex
  import opened Publishing

  /** Cell (i, k) of the pattern: (i + 0.001 k, k + 0.01 i, tau[k]). */
  function Cell(i: nat, k: nat, tau: seq<Double>): DVec3
    requires k < |tau|
  {
    DV3(Fin(i as real + 0.001 * k as real), Fin(k as real + 0.01 * i as real), tau[k])
  }

  /** The first `steps` cells of vehicle i's row. */
  function Cells(i: nat, tau: seq<Double>, steps: nat): (r: seq<DVec3>)
    requires steps <= |tau|
    ensures |r| == steps && forall k :: 0 <= k < steps ==> r[k] == Cell(i, k, tau)
  {
    seq(steps, k requires 0 <= k < steps => Cell(i, k, tau))
  }

  /**
   * Within the buffer's bounds a cell gives back its indices: the whole
   * part of x is the vehicle and its fraction, in thousandths, the step;
   * the whole part of y is the step and its fraction, in hundredths, the
   * vehicle; z is the grid offset.
   */
  lemma CellDecodes(i: nat, k: nat, tau: seq<Double>)
    requires i < MaxVehicles && k < MaxSteps && k < |tau|
    ensures Floor(Cell(i, k, tau).x.v) == i && (Cell(i, k, tau).x.v - i as real) * 1000.0 == k as real
    ensures Floor(Cell(i, k, tau).y.v) == k && (Cell(i, k, tau).y.v - k as real) * 100.0 == i as real
    ensures Cell(i, k, tau).z == tau[k]
  {
    assert 0.0 <= 0.001 * k as real < 1.0;
    assert 0.0 <= 0.01 * i as real < 1.0;
    FloorOfFraction(i, 0.001 * k as real);
    FloorOfFraction(k, 0.01 * i as real);
  }

  lemma FloorOfFraction(n: nat, f: real)
    requires 0.0 <= f < 1.0
    ensures Floor(n as real + f) == n
  {
    var m := Floor(n as real + f);
    assert m as real <= n as real + f < m as real + 1.0;
  }

  /** Hence no two cells of the buffer coincide: every cell is written by one (vehicle, step) pair. */
  lemma CellsDistinct(i: nat, k: nat, i': nat, k': nat, tau: seq<Double>)
    requires i < MaxVehicles && k < MaxSteps && k < |tau|
    requires i' < MaxVehicles && k' < MaxSteps && k' < |tau|
    requires Cell(i, k, tau) == Cell(i', k', tau)
    ensures i == i' && k == k'
  {
    CellDecodes(i, k, tau);
    CellDecodes(i', k', tau);
  }

  class DummyPredictor {
    const pub: Publisher
    const registry: VehicleIndexMap

    ghost predicate Valid()
      reads this, pub, pub.buffers, registry, registry.ids
    {
      pub.Valid() && registry.Valid()
    }

    constructor (pub: Publisher, registry: VehicleIndexMap)
      ensures this.pub == pub && this.registry == registry
    {
      this.pub := pub;
      this.registry := registry;
    }

    /**
     * Row i of the written buffer over grid tau, from its previous contents:
     * for a vehicle below min(map size, MAX_VEHICLES) its first
     * min(|tau|, MAX_STEPS) cells are the pattern and the rest stale; any
     * other row is left as it was.
     */
    function TargetRow(tau: seq<Double>, i: nat, base: seq<DVec3>): (r: seq<DVec3>)
      reads registry
      requires |base| == MaxSteps
      ensures |r| == MaxSteps
      ensures forall k :: 0 <= k < MaxSteps ==>
                r[k] == if i < MinNat(registry.size, MaxVehicles) && k < MinNat(|tau|, MaxSteps) then Cell(i, k, tau) else base[k]
    {
      if i < MinNat(registry.size, MaxVehicles) then Overwritten(base, Cells(i, tau, MinNat(|tau|, MaxSteps)))
      else base
    }

    /** The inner loop: the first `steps` cells of one row. */
    method FillRow(row: array<DVec3>, i: nat, tau: seq<Double>, steps: nat)
      requires steps <= |tau| && steps <= row.Length
      modifies row
      ensures row[..] == Overwritten(old(row[..]), Cells(i, tau, steps))
    {
      ghost var base := row[..];
      var k := 0;
      while k < steps
        invariant k <= steps
        invariant row[..] == Overwritten(base, Cells(i, tau, k))
      {
        OverwriteNext(base, Cells(i, tau, k), Cell(i, k, tau));
        assert Cells(i, tau, k) + [Cell(i, k, tau)] == Cells(i, tau, k + 1);
        row[k] := Cell(i, k, tau);
        k := k + 1;
      }
    }

    /** The rows of `b` after the first i vehicles: theirs are their target rows, the others as they were. */
    ghost predicate RowsWritten(tau: seq<Double>, b: PredictionBuffer, base: seq<seq<DVec3>>, i: nat)
      reads registry, b, b.positions
    {
      b.Shaped() && |base| == MaxVehicles
      && (forall j :: 0 <= j < MaxVehicles ==> |base[j]| == MaxSteps)
      && (forall j :: 0 <= j < MaxVehicles ==>
            b.positions[j][..] == if j < i then TargetRow(tau, j, base[j]) else base[j])
    }

    /** The outer loop's body for vehicle i. */
    method VisitRow(tau: seq<Double>, b: PredictionBuffer, ghost base: seq<seq<DVec3>>, i: nat)
      requires i < MinNat(registry.size, MaxVehicles)
      requires RowsWritten(tau, b, base, i)
      modifies b.positions[i]
      ensures RowsWritten(tau, b, base, i + 1)
    {
      ghost var before := seq(MaxVehicles, j requires 0 <= j < MaxVehicles reads b, b.positions => b.positions[j][..]);
      var row := b.positions[i];
      FillRow(row, i, tau, MinNat(|tau|, MaxSteps));
      forall j | 0 <= j < MaxVehicles && j != i
        ensures b.positions[j][..] == before[j]
      {
        assert b.positions[j] != row;
      }
    }

    /** The outer loop over the vehicles below min(map size, MAX_VEHICLES). */
    method WriteRows(tau: seq<Double>, b: PredictionBuffer)
      requires b.Shaped()
      modifies b.positions
      ensures b.Shaped()
      ensures forall j :: 0 <= j < MaxVehicles ==> b.positions[j][..] == TargetRow(tau, j, old(b.positions[j][..]))
    {
      ghost var base := seq(MaxVehicles, j requires 0 <= j < MaxVehicles reads b, b.positions => b.positions[j][..]);
      var nveh := MinNat(registry.size, MaxVehicles);
      var i := 0;
      while i < nveh
        invariant i <= nveh
        invariant RowsWritten(tau, b, base, i)
      {
        VisitRow(tau, b, base, i);
        i := i + 1;
      }
    }

    /**
     * The publisher after a non-empty tick over grid tau: the counter
     * advanced by one (modulo 2^64), the previous back buffer now the front
     * one, stamped t0, each of its rows its target row.
     */
    twostate predicate Published(t0: Double, tau: seq<Double>)
      reads this, pub, pub.buffers, registry, pub.Read(), pub.Read().positions
      requires pub.Valid() && old(pub.Valid())
    {
      pub.seqno == (old(pub.seqno) + 1) % U64 && pub.Read() == old(pub.Back()) && pub.Read().t0 == t0
      && forall j :: 0 <= j < MaxVehicles ==>
           pub.Read().positions[j][..] == TargetRow(tau, j, old(pub.Back().positions[j][..]))
    }

    /**
     * `DummyPredictor::step(t0, horizon, cadence)`. An empty grid writes
     * nothing and publishes nothing; otherwise the back buffer is filled and
     * published exactly once.
     */
    method Step(t0: Double, horizon: Double, cadence: Double)
      requires Valid()
      requires horizon != PosInf || !cadence.IsFinite()
      modifies pub, pub.Back(), pub.Back().positions
      ensures Valid()
      ensures |Grid(horizon, cadence)| == 0 ==> unchanged(pub, pub.Back()) && unchanged(pub.Back().positions)
      ensures |Grid(horizon, cadence)| > 0 ==> Published(t0, Grid(horizon, cadence))
    {
      var tau := Grid(horizon, cadence);   // what MakeTimeGrid returns
      if |tau| == 0 {
        return;
      }
      WriteAndPublish(t0, tau);
    }

    /** Past the empty-grid check: begin the write, fill the rows, publish once. */
    method WriteAndPublish(t0: Double, tau: seq<Double>)
      requires Valid()
      modifies pub, pub.Back(), pub.Back().positions
      ensures Valid() && Published(t0, tau)
    {
      var b := pub.BeginWrite();
      WriteRows(tau, b);
      var s := pub.Publish(t0);
    }
  }
}
