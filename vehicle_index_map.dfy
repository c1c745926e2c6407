// The fixed-capacity vehicle registry (core/vehicle_index_map.hpp,
// core/vehicle_index_map.cpp): ids get stable indices in insertion order,
// found by linear search.
module VehicleIndex {
  import opened Wrappers

  /** MAX_VEHICLES (core/constants.hpp). */
  const MaxVehicles: nat := 32

  /** std::uint64_t */
  type VehicleId = x: int | 0 <= x < 0x1_0000_0000_0000_0000

  /** The first position of `id` in `s`, if any. */
  function FirstIndex(s: seq<VehicleId>, id: VehicleId): (r: Option<nat>)
    ensures r.Some? <==> id in s
    ensures r.Some? ==> r.value < |s| && s[r.value] == id && forall j :: 0 <= j < r.value ==> s[j] != id
  {
    if |s| == 0 then None
    else if s[0] == id then Some(0)
    else match FirstIndex(s[1..], id)
      case None => None
      case Some(k) => Some(k + 1)
  }

  /** Pairwise distinct ids. */
  predicate Distinct(s: seq<VehicleId>)
  {
    forall i, j :: 0 <= i < j < |s| ==> s[i] != s[j]
  }

  /** In a list without repeats, each id's first position is its position. */
  lemma FirstIndexOfDistinct(s: seq<VehicleId>, i: nat)
    requires Distinct(s) && i < |s|
    ensures FirstIndex(s, s[i]) == Some(i)
  {
  }

  class VehicleIndexMap {
    var ids: array<VehicleId>
    var size: nat

    /** The registered ids, in index order. */
    function Ids(): seq<VehicleId>
      reads this, ids
      requires size <= ids.Length
    {
      ids[..size]
    }

    ghost predicate Valid()
      reads this, ids
    {
      ids.Length == MaxVehicles && size <= MaxVehicles && Distinct(ids[..size])
    }

    constructor ()
      ensures Valid() && Ids() == []
      ensures fresh(ids)
    {
      ids := new VehicleId[MaxVehicles](_ => 0);
      size := 0;
    }

    /** `capacity()`: always MAX_VEHICLES. */
    function Capacity(): (c: nat)
      ensures c == 32
    {
      MaxVehicles
    }

    /** `clear()`: forget every id. */
    method Clear()
      requires Valid()
      modifies this
      ensures Valid() && Ids() == [] && ids == old(ids)
    {
      size := 0;
    }

    /** `empty()` */
    method Empty() returns (b: bool)
      requires Valid()
      ensures b <==> Ids() == []
    {
      b := size == 0;
    }

    /** `index_of(id)`: the least index holding `id`. */
    method IndexOf(id: VehicleId) returns (r: Option<nat>)
      requires Valid()
      ensures r == FirstIndex(Ids(), id)
    {
      var i := 0;
      while i < size
        invariant i <= size
        invariant forall j :: 0 <= j < i ==> ids[j] != id
      {
        if ids[i] == id {
          FirstIndexIsLeast(Ids(), id, i);
          return Some(i);
        }
        i := i + 1;
      }
      assert id !in Ids();
      return None;
    }

    /** `contains(id)`: whether `index_of(id)` finds it. */
    method Contains(id: VehicleId) returns (b: bool)
      requires Valid()
      ensures b <==> id in Ids()
      ensures b <==> FirstIndex(Ids(), id).Some?
    {
      var idx := IndexOf(id);
      b := idx.Some?;
    }

    /** `id_at(index)`: the id at a registered index; nothing past the end. */
    method IdAt(index: nat) returns (r: Option<VehicleId>)
      requires Valid()
      ensures index < |Ids()| ==> r == Some(Ids()[index])
      ensures index >= |Ids()| ==> r == None
    {
      if index >= size {
        return None;
      }
      return Some(ids[index]);
    }

    /**
     * `register_vehicle(id)`: a known id keeps its index; a new id takes
     * the next index unless the map is full.
     */
    method RegisterVehicle(id: VehicleId) returns (r: Option<nat>)
      requires Valid()
      modifies this, ids
      ensures Valid() && ids == old(ids)
      ensures id in old(Ids()) ==> r == FirstIndex(old(Ids()), id) && Ids() == old(Ids())
      ensures id !in old(Ids()) && old(size) >= MaxVehicles ==> r == None && Ids() == old(Ids())
      ensures id !in old(Ids()) && old(size) < MaxVehicles ==> r == Some(old(size)) && Ids() == old(Ids()) + [id]
    {
      var idx := IndexOf(id);
      if idx.Some? {
        return idx;
      }
      if size >= MaxVehicles {
        return None;
      }
      ids[size] := id;
      var slot := size;
      size := size + 1;
      assert Ids() == old(Ids()) + [id];
      return Some(slot);
    }
  }

  lemma FirstIndexIsLeast(s: seq<VehicleId>, id: VehicleId, i: nat)
    requires i < |s| && s[i] == id && forall j :: 0 <= j < i ==> s[j] != id
    ensures FirstIndex(s, id) == Some(i)
  {
  }

  /** Every registered index maps back to itself: index_of(id_at(i)) == i. */
  lemma IndexOfIdAt(m: VehicleIndexMap, i: nat)
    requires m.Valid() && i < |m.Ids()|
    ensures FirstIndex(m.Ids(), m.Ids()[i]) == Some(i)
  {
    FirstIndexOfDistinct(m.Ids(), i);
  }
}
