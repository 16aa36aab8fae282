/**
 * The allocation strategies of strategies/allocation_strategy.py.
 *
 * `AllocationStrategy` is an abstract base class with one method, `allocate`;
 * its two subclasses hold no fields. They become the two variants of a
 * datatype, and `allocate` one method that dispatches on the variant. Neither
 * strategy looks at the vehicle: it only picks the pool.
 */
module Strategies {
  import opened Wrappers
  import opened Vehicles
  import opened Pools
  import opened ParkingLots

  datatype Strategy = RegularFirst | ElectricOnly
  {
    /**
     * What `allocate` does to a lot whose pools are `regular` and `ev`: the new
     * regular pool, the new EV pool and the answer. RegularFirst parks in the
     * regular pool only, with no fallback to the EV pool, and ElectricOnly parks
     * in the EV pool only; the other pool is never touched.
     */
    function Allocation(regular: Pool, ev: Pool, v: Vehicle): (res: (Pool, Pool, Option<int>))
      ensures |res.0| == |regular| && |res.1| == |ev|
      ensures RegularFirst? ==> (res.0, res.2) == Park(regular, v)
      ensures ElectricOnly? ==> (res.1, res.2) == Park(ev, v)
      ensures RegularFirst? ==> res.1 == ev && (res.2.None? <==> Full(regular))
      ensures ElectricOnly? ==> res.0 == regular && (res.2.None? <==> Full(ev))
      ensures RegularFirst? && res.2.Some? ==> IsFirstFree(regular, res.2.value - 1) && res.0[res.2.value - 1].vehicle == Some(v)
      ensures ElectricOnly? && res.2.Some? ==> IsFirstFree(ev, res.2.value - 1) && res.1[res.2.value - 1].vehicle == Some(v)
    {
      match this
      case RegularFirst =>
        var (r, n) := Park(regular, v);
        (r, ev, n)
      case ElectricOnly =>
        var (e, n) := Park(ev, v);
        (regular, e, n)
    }

    /**
     * `allocate`: RegularFirstStrategy calls `lot.park_regular(vehicle)` and
     * ElectricOnlyStrategy calls `lot.park_ev(vehicle)`.
     */
    method Allocate(lot: ParkingLot, v: Vehicle) returns (r: Option<int>)
      requires lot.Valid()
      modifies lot
      ensures lot.Valid()
      ensures (lot.regularSlots, lot.evSlots, r) == Allocation(old(lot.regularSlots), old(lot.evSlots), v)
      ensures lot.level == old(lot.level)
      ensures lot.regularCapacity == old(lot.regularCapacity) && lot.evCapacity == old(lot.evCapacity)
    {
      match this
      case RegularFirst =>
        r := lot.ParkRegular(v);
      case ElectricOnly =>
        r := lot.ParkEv(v);
    }
  }

  /** RegularFirst has no fallback: with the regular pool full it answers None even when EV slots are free. */
  lemma NoFallbackToEv(regular: Pool, ev: Pool, v: Vehicle)
    requires Full(regular)
    ensures RegularFirst.Allocation(regular, ev, v) == (regular, ev, None)
  {
  }

  /**
   * Neither strategy inspects the vehicle: any two vehicles, electric or not,
   * get the same answer and the same slot.
   */
  lemma AllocationIgnoresVariant(s: Strategy, regular: Pool, ev: Pool, v: Vehicle, w: Vehicle)
    ensures s.Allocation(regular, ev, v).2 == s.Allocation(regular, ev, w).2
  {
    FirstFreeIsLowest(regular);
    FirstFreeIsLowest(ev);
  }

  /** ElectricOnly accepts a non-electric vehicle whenever an EV slot is free. */
  lemma ElectricOnlyAcceptsAnyVehicle(regular: Pool, ev: Pool, v: Vehicle)
    requires !v.IsElectric()
    requires !Full(ev)
    ensures ElectricOnly.Allocation(regular, ev, v).2.Some?
  {
  }
}
