// The double-buffer publisher (core/publisher.cpp, core/publisher.hpp) and
// the prediction buffer it flips (core/prediction_buffer.hpp). A producer
// fills the back buffer, then `publish` stamps it and makes it the front;
// readers only ever see the front. Modelled single-threaded: the atomics'
// memory ordering is not part of this model.
module Publishing {
  import opened Num
  import opened Types
  import opened VehicleIndex

  /** MAX_STEPS (core/constants.hpp); MAX_VEHICLES is VehicleIndex.MaxVehicles. */
  const MaxSteps: nat := 600

  /** std::uint64_t wraps modulo 2^64. */
  const U64: nat := 0x1_0000_0000_0000_0000

  /**
   * One prediction snapshot: row i holds vehicle index i, entry k of a row
   * the position at grid step k. Each row is its own fixed-size array, as a
   * std::array of std::arrays is.
   */
  class PredictionBuffer {
    var seqno: nat
    var t0: Double
    const positions: seq<array<DVec3>>

    ghost predicate Shaped()
      reads this
    {
      |positions| == MaxVehicles
      && (forall i :: 0 <= i < |positions| ==> positions[i].Length == MaxSteps)
      && (forall i, j :: 0 <= i < j < |positions| ==> positions[i] != positions[j])
    }

    /** Value-initialised: seqno 0, t0 0 and every position zero. */
    constructor ()
      ensures Shaped() && seqno == 0 && t0 == Fin(0.0)
      ensures forall i :: 0 <= i < |positions| ==> fresh(positions[i])
      ensures forall i, k :: 0 <= i < |positions| && 0 <= k < positions[i].Length ==> positions[i][k] == ZeroD
    {
      seqno := 0;
      t0 := Fin(0.0);
      var rows: seq<array<DVec3>> := [];
      while |rows| < MaxVehicles
        invariant |rows| <= MaxVehicles
        invariant forall i :: 0 <= i < |rows| ==> fresh(rows[i]) && rows[i].Length == MaxSteps
        invariant forall i, k :: 0 <= i < |rows| && 0 <= k < rows[i].Length ==> rows[i][k] == ZeroD
        invariant forall i, j :: 0 <= i < j < |rows| ==> rows[i] != rows[j]
      {
        var row := new DVec3[MaxSteps](_ => ZeroD);
        rows := rows + [row];
      }
      positions := rows;
    }
  }

  class Publisher {
    const buffers: seq<PredictionBuffer>
    var front: nat
    var seqno: nat

    /**
     * Two separate buffers with separate storage; the front index is 0 or 1;
     * the front buffer carries the latest sequence number.
     */
    ghost predicate Valid()
      reads this, buffers
    {
      |buffers| == 2
      && buffers[0] != buffers[1]
      && buffers[0].Shaped() && buffers[1].Shaped()
      && (forall i, j :: 0 <= i < MaxVehicles && 0 <= j < MaxVehicles ==> buffers[0].positions[i] != buffers[1].positions[j])
      && front <= 1
      && seqno < U64
      && buffers[front].seqno == seqno
    }

    /** The buffer that is not visible: index `1 - front`. */
    function Back(): (b: PredictionBuffer)
      reads this
      requires |buffers| == 2 && front <= 1
      ensures b in buffers && b == buffers[1 - front]
      ensures buffers[0] != buffers[1] ==> b != buffers[front]
    {
      buffers[1 - front]
    }

    constructor ()
      ensures Valid() && front == 0 && seqno == 0
      ensures fresh(buffers[0]) && fresh(buffers[1])
      ensures buffers[0].t0 == Fin(0.0) && buffers[1].t0 == Fin(0.0) && buffers[1].seqno == 0
    {
      var b0 := new PredictionBuffer();
      var b1 := new PredictionBuffer();
      buffers := [b0, b1];
      front := 0;
      seqno := 0;
    }

    /** `begin_write`: the back buffer, never the one readers see; nothing changes. */
    method BeginWrite() returns (b: PredictionBuffer)
      requires Valid()
      ensures b == Back() && b != Read()
      ensures b.Shaped() && forall i, j :: 0 <= i < MaxVehicles && 0 <= j < MaxVehicles ==> b.positions[i] != Read().positions[j]
    {
      b := buffers[1 - front];
    }

    /**
     * `publish(t0)`: the counter advances by one (modulo 2^64), the back
     * buffer is stamped with it and with t0 and becomes the front. Its
     * positions are published as written; the old front is untouched.
     */
    method Publish(t0: Double) returns (s: nat)
      requires Valid()
      modifies this, Back()
      ensures Valid()
      ensures s == (old(seqno) + 1) % U64 && seqno == s
      ensures front == 1 - old(front) && Read() == old(Back())
      ensures Read().seqno == s && Read().t0 == t0
      ensures Back() == old(Read()) && Back().seqno == old(Read().seqno) && Back().t0 == old(Read().t0)
    {
      var back := 1 - front;
      s := (seqno + 1) % U64;
      seqno := s;
      buffers[back].seqno := s;
      buffers[back].t0 := t0;
      front := back;
    }

    /** `read()`: the front buffer. */
    function Read(): (b: PredictionBuffer)
      reads this
      requires |buffers| == 2 && front <= 1
      ensures b in buffers && b == buffers[front]
    {
      buffers[front]
    }

    /** `published_seqno()`: the front buffer's stamp, which is the publish counter. */
    function PublishedSeqno(): (s: nat)
      reads this, buffers
      requires Valid()
      ensures s == seqno
    {
      Read().seqno
    }
  }

  /** A new publisher reports sequence number 0; successive publishes return 1, 2. */
  method SuccessivePublishes(t: Double, u: Double) returns (s0: nat, s1: nat, s2: nat)
    ensures s0 == 0 && s1 == 1 && s2 == 2
  {
    var p := new Publisher();
    s0 := p.PublishedSeqno();
    s1 := p.Publish(t);
    s2 := p.Publish(u);
  }

  /**
   * A position written through `begin_write` is invisible to `read()` until
   * the next `publish`, and visible after it.
   */
  method WriteVisibleOnlyAfterPublish(p: Publisher, i: nat, k: nat, x: DVec3, t0: Double)
      returns (before: DVec3, after: DVec3)
    requires p.Valid() && i < MaxVehicles && k < MaxSteps
    modifies p, p.Back(), p.Back().positions[i]
    ensures before == old(p.Read().positions[i][k])
    ensures after == x
  {
    var b := p.BeginWrite();
    b.positions[i][k] := x;
    before := p.Read().positions[i][k];
    var s := p.Publish(t0);
    after := p.Read().positions[i][k];
  }
}
