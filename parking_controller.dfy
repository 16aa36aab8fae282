/**
 * The controller of controllers/parking_controller.py: it owns one lot and the
 * allocation strategy in use, which callers reassign between calls (the Tk view
 * installs ElectricOnly for an EV and RegularFirst again afterwards). It holds
 * no policy of its own: parking goes through the strategy and leaving through
 * the lot.
 */
module Controllers {
  import opened Wrappers
  import opened Vehicles
  import opened Pools
  import opened ParkingLots
  import opened Strategies

  class ParkingController {
    var lot: ParkingLot
    var allocationStrategy: Strategy

    ghost predicate Valid()
      reads this, lot
    {
      lot.Valid()
    }

    constructor (lot: ParkingLot, allocationStrategy: Strategy)
      requires lot.Valid()
      ensures Valid()
      ensures this.lot == lot && this.allocationStrategy == allocationStrategy
    {
      this.lot := lot;
      this.allocationStrategy := allocationStrategy;
    }

    /**
     * `create_lot`: overwrites the lot's level and capacities and re-runs
     * `__post_init__`. Only a pool whose list is empty is rebuilt; a pool that
     * has slots keeps them and their vehicles, so this is not a reset.
     */
    method CreateLot(level: int, regularCapacity: nat, evCapacity: nat)
      requires Valid()
      modifies lot
      ensures Valid()
      ensures lot.level == level && lot.regularCapacity == regularCapacity && lot.evCapacity == evCapacity
      ensures lot.regularSlots == PostInitPool(old(lot.regularSlots), regularCapacity, false)
      ensures lot.evSlots == PostInitPool(old(lot.evSlots), evCapacity, true)
    {
      lot.level := level;
      lot.regularCapacity := regularCapacity;
      lot.evCapacity := evCapacity;
      lot.PostInit();
    }

    /** `park`: whatever the installed strategy's `allocate` does. */
    method Park(v: Vehicle) returns (r: Option<int>)
      requires Valid()
      modifies lot
      ensures Valid()
      ensures (lot.regularSlots, lot.evSlots, r)
           == allocationStrategy.Allocation(old(lot.regularSlots), old(lot.evSlots), v)
      ensures lot.level == old(lot.level)
      ensures lot.regularCapacity == old(lot.regularCapacity) && lot.evCapacity == old(lot.evCapacity)
    {
      r := allocationStrategy.Allocate(lot, v);
    }

    /**
     * `park_ev`: exactly the same as `park`. It does not force the EV pool: the
     * installed strategy decides.
     */
    method ParkEv(v: Vehicle) returns (r: Option<int>)
      requires Valid()
      modifies lot
      ensures Valid()
      ensures (lot.regularSlots, lot.evSlots, r)
           == allocationStrategy.Allocation(old(lot.regularSlots), old(lot.evSlots), v)
      ensures lot.level == old(lot.level)
      ensures lot.regularCapacity == old(lot.regularCapacity) && lot.evCapacity == old(lot.evCapacity)
    {
      r := allocationStrategy.Allocate(lot, v);
    }

    /** `leave`: forwarded to the lot. */
    method Leave(slotNumber: int, isEv: bool) returns (ok: bool)
      requires Valid()
      modifies lot
      ensures Valid()
      ensures isEv ==> (lot.evSlots, ok) == Pools.Leave(old(lot.evSlots), slotNumber)
      ensures isEv ==> lot.regularSlots == old(lot.regularSlots)
      ensures !isEv ==> (lot.regularSlots, ok) == Pools.Leave(old(lot.regularSlots), slotNumber)
      ensures !isEv ==> lot.evSlots == old(lot.evSlots)
      ensures lot.level == old(lot.level)
      ensures lot.regularCapacity == old(lot.regularCapacity) && lot.evCapacity == old(lot.evCapacity)
    {
      ok := lot.Leave(slotNumber, isEv);
    }
  }

  /**
   * A session as the Tk view drives the controller: a lot built with no slots,
   * `create_lot(1, 2, 1)`, two cars get regular slots 1 and 2, a third finds the
   * regular pool full, an electric car parked with ElectricOnly installed gets EV
   * slot 1, regular slot 1 is freed and the next car gets it again. Then
   * `create_lot(2, 5, 5)` keeps both full pools, so a further car finds no slot.
   */
  method ParkingSession() returns (answers: seq<Option<int>>, freed: bool)
    ensures answers == [Some(1), Some(2), None, Some(1), Some(1), None]
    ensures freed
  {
    var lot := new ParkingLot(1, 0, 0);
    var c := new ParkingController(lot, RegularFirst);
    c.CreateLot(1, 2, 1);
    assert c.lot.regularSlots == FreshPool(2, false) && c.lot.evSlots == FreshPool(1, true);
    var a1 := c.Park(Car("A-1", "Toyota", "Corolla", "Blue"));
    assert a1 == Some(1);
    assert !c.lot.regularSlots[0].IsEmpty() && c.lot.regularSlots[1].IsEmpty();
    var a2 := c.Park(Car("A-2", "Honda", "Civic", "Red"));
    assert a2 == Some(2);
    assert Full(c.lot.regularSlots);
    var a3 := c.Park(Car("A-3", "Ford", "Focus", "Grey"));
    assert a3 == None;
    c.allocationStrategy := ElectricOnly;
    var a4 := c.ParkEv(ElectricCar("E-1", "Tesla", "Model 3", "White"));
    assert a4 == Some(1);
    assert Full(c.lot.evSlots);
    c.allocationStrategy := RegularFirst;
    freed := c.Leave(1, false);
    var a5 := c.Park(Car("A-4", "Kia", "Rio", "Black"));
    assert a5 == Some(1);
    assert Full(c.lot.regularSlots);
    c.CreateLot(2, 5, 5);
    assert |c.lot.regularSlots| == 2 && c.lot.regularCapacity == 5;
    var a6 := c.Park(Car("A-5", "Fiat", "Panda", "Green"));
    answers := [a1, a2, a3, a4, a5, a6];
  }
}
