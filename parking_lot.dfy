/**
 * The parking lot of models/parking_lot.py: one level with a regular pool and
 * an EV pool of slots, each filled first-fit.
 *
 * The source keeps each pool as a mutable list of slot objects and assigns a
 * slot's `vehicle` in place; no other object holds a slot, so here each pool is
 * a sequence of slot records that the methods reassign. Every method is proved
 * against the pool functions of module Pools.
 */
module ParkingLots {
  import opened Wrappers
  import opened Vehicles
  import opened Pools

  /**
   * The for-loop of `first_empty_regular` / `first_empty_ev`: walk the slots in
   * order and return the `index` of the first empty one. That index is the
   * slot's position only because the pool is well formed.
   */
  method ScanFirstEmpty(slots: Pool, ghost electric: bool) returns (r: Option<nat>)
    requires WellFormed(slots, electric)
    ensures r == FirstFree(slots)
  {
    FirstFreeIsLowest(slots);
    for k := 0 to |slots|
      invariant forall j :: 0 <= j < k ==> !slots[j].IsEmpty()
    {
      if slots[k].IsEmpty() {
        assert IsFirstFree(slots, k);
        return Some(slots[k].index);
      }
    }
    return None;
  }

  class ParkingLot {
    var level: int
    var regularCapacity: nat
    var evCapacity: nat
    var regularSlots: Pool
    var evSlots: Pool

    /**
     * Each pool is well formed: slot i sits at position i with index i, and
     * carries the pool's charger flag. The capacities need not match the pool
     * lengths (see PostInit).
     */
    ghost predicate Valid()
      reads this
    {
      WellFormed(regularSlots, false) && WellFormed(evSlots, true)
    }

    /** `ParkingLot(level, regular_capacity, ev_capacity)`: both lists start empty and `__post_init__` fills them. */
    constructor (level: int, regularCapacity: nat, evCapacity: nat)
      ensures Valid()
      ensures this.level == level && this.regularCapacity == regularCapacity && this.evCapacity == evCapacity
      ensures regularSlots == FreshPool(regularCapacity, false) && evSlots == FreshPool(evCapacity, true)
    {
      this.level := level;
      this.regularCapacity := regularCapacity;
      this.evCapacity := evCapacity;
      regularSlots := [];
      evSlots := [];
      new;
      PostInit();
    }

    /**
     * `__post_init__`: a pool whose list is empty is rebuilt as a fresh pool of
     * its capacity; a pool that already has slots keeps them and their occupants.
     */
    method PostInit()
      requires Valid()
      modifies this
      ensures Valid()
      ensures regularSlots == PostInitPool(old(regularSlots), regularCapacity, false)
      ensures evSlots == PostInitPool(old(evSlots), evCapacity, true)
      ensures level == old(level) && regularCapacity == old(regularCapacity) && evCapacity == old(evCapacity)
    {
      if |regularSlots| == 0 {
        regularSlots := FreshPool(regularCapacity, false);
      }
      if |evSlots| == 0 {
        evSlots := FreshPool(evCapacity, true);
      }
    }

    /** `first_empty_regular`: the position of the lowest free regular slot, or None. */
    method FirstEmptyRegular() returns (r: Option<nat>)
      requires Valid()
      ensures r == FirstFree(regularSlots)
    {
      r := ScanFirstEmpty(regularSlots, false);
    }

    /** `first_empty_ev`: the position of the lowest free EV slot, or None. */
    method FirstEmptyEv() returns (r: Option<nat>)
      requires Valid()
      ensures r == FirstFree(evSlots)
    {
      r := ScanFirstEmpty(evSlots, true);
    }

    /**
     * `park_regular`: the vehicle takes the lowest free regular slot and its
     * one-based number is returned, or None when the regular pool is full.
     * Nothing else changes.
     */
    method ParkRegular(v: Vehicle) returns (r: Option<int>)
      requires Valid()
      modifies this
      ensures Valid()
      ensures (regularSlots, r) == Park(old(regularSlots), v)
      ensures evSlots == old(evSlots)
      ensures level == old(level) && regularCapacity == old(regularCapacity) && evCapacity == old(evCapacity)
    {
      var idx := FirstEmptyRegular();
      if idx.None? {
        return None;
      }
      regularSlots := regularSlots[idx.value := regularSlots[idx.value].(vehicle := Some(v))];
      return Some(idx.value + 1);
    }

    /**
     * `park_ev`: the vehicle takes the lowest free EV slot and its one-based
     * number is returned, or None when the EV pool is full. Nothing else changes.
     */
    method ParkEv(v: Vehicle) returns (r: Option<int>)
      requires Valid()
      modifies this
      ensures Valid()
      ensures (evSlots, r) == Park(old(evSlots), v)
      ensures regularSlots == old(regularSlots)
      ensures level == old(level) && regularCapacity == old(regularCapacity) && evCapacity == old(evCapacity)
    {
      var idx := FirstEmptyEv();
      if idx.None? {
        return None;
      }
      evSlots := evSlots[idx.value := evSlots[idx.value].(vehicle := Some(v))];
      return Some(idx.value + 1);
    }

    /**
     * `leave`: frees slot number `slotNumber` (one-based) of the pool `isEv`
     * selects. The answer is true exactly when the number is within the pool's
     * length and the slot was occupied; otherwise nothing changes.
     */
    method Leave(slotNumber: int, isEv: bool) returns (ok: bool)
      requires Valid()
      modifies this
      ensures Valid()
      ensures isEv ==> (evSlots, ok) == Pools.Leave(old(evSlots), slotNumber) && regularSlots == old(regularSlots)
      ensures !isEv ==> (regularSlots, ok) == Pools.Leave(old(regularSlots), slotNumber) && evSlots == old(evSlots)
      ensures level == old(level) && regularCapacity == old(regularCapacity) && evCapacity == old(evCapacity)
    {
      var slots := if isEv then evSlots else regularSlots;
      var idx := slotNumber - 1;
      if 0 <= idx < |slots| && !slots[idx].IsEmpty() {
        slots := slots[idx := slots[idx].(vehicle := None)];
        if isEv {
          evSlots := slots;
        } else {
          regularSlots := slots;
        }
        return true;
      }
      return false;
    }
  }
}
