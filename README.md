# Parking lot allocation engine — a verified Dafny model

This project models the allocation engine of a single-level parking lot
(`src/redesign`): a lot with a pool of regular slots and a pool of EV slots,
each filled first-fit; two interchangeable allocation strategies; a thin
controller that owns the lot and the strategy in use; the closed vehicle
taxonomy; and the factory that builds vehicles from a kind label.

Files and modules:

- `wrappers.dfy` — `Wrappers`: `Option` (the source's `None` returns) and `Result` (its raised errors).
- `vehicles.dfy` — `Vehicles`: the seven vehicle classes of `models/vehicle.py` and
  `models/electric_vehicle.py` as one datatype, with `get_type` as `GetType`.
  `chargePercent` has the default value 0, as in the source.
- `vehicle_factory.dfy` — `VehicleFactory`: `create_vehicle` and `create_electric`, with
  `str.lower()` modelled as ASCII lower-casing (`Lower`).
- `pools.dfy` — `Pools`: the `ParkingSlot` record and the pure specification of one pool:
  first-fit search (`FirstFree`), parking (`Park`), leaving (`Leave`), occupancy
  (`OccupiedCount`), the pool `__post_init__` builds (`FreshPool`, `PostInitPool`) and the
  lemmas about them.
- `parking_lot.dfy` — `ParkingLots`: the class `ParkingLot` with its fields `level`,
  `regularCapacity`, `evCapacity`, `regularSlots`, `evSlots`, whose methods are proved against
  the pool functions. Its invariant `Valid()` says that in each pool the slot at position `i`
  has `index == i` and the pool's charger flag. The invariant is what makes the source correct:
  `first_empty_*` return `slot.index` and `park_*` use that value as a list position.
- `strategies.dfy` — `Strategies`: `Strategy = RegularFirst | ElectricOnly`, its `Allocate`
  method (dispatch to `ParkRegular` / `ParkEv`) and the function `Allocation` it is proved against.
- `parking_controller.dfy` — `Controllers`: the class `ParkingController` with its `lot` and its
  reassignable `allocationStrategy` field, and a session that drives it as the Tk view does.

Slot numbers that cross the lot's boundary are one-based (`index + 1`); positions inside a
pool are zero-based.

Three facts about the program that the model keeps as they are:

- `create_lot` is not a reset. It overwrites `level` and the two capacity fields and re-runs
  `__post_init__`, which rebuilds a pool only when its list is empty. A pool that has slots keeps
  them and their vehicles, and its capacity field can then differ from its length
  (`PostInitKeepsOccupiedPool`, and the end of `ParkingSession`). The Tk view still reports
  "Created lot on level {level} with {reg} regular and {ev} ev slots" in that case
  (`src/redesign/views/app_tk.py:171`). So "length equals capacity" is not an invariant of the
  lot; only a freshly built lot has it.
- `ElectricOnlyStrategy` does not check the vehicle. Any vehicle, electric or not, is parked
  in an EV slot (`ElectricOnlyAcceptsAnyVehicle`).
- `park_ev` on the controller does not force the EV pool. It does exactly what `park` does.

## Model

| member | source | states |
|---|---|---|
| `Vehicles.Vehicle.GetType` | src/redesign/models/vehicle.py:11-30 | the electric variants, and only they, have tags starting with "Electric" |
| `Vehicles.TagIdentifiesVariant` | src/redesign/models/electric_vehicle.py:9-22 | equal tags mean the same variant: each subclass's tag overrides its parent's and no two classes share one |
| `Vehicles.ChargeDefaultsToZero` | src/redesign/models/electric_vehicle.py:6-7 | an electric vehicle built without a charge level has `chargePercent == 0`, and each of the three keeps the four inherited fields as given |
| `VehicleFactory.CreateVehicle` | src/redesign/factories/vehicle_factory.py:9-17 | succeeds exactly for the lower-cased labels "car", "motorcycle", "truck"; copies the four fields; builds a non-electric variant whose lower-cased tag is the lower-cased label; any other label gives the "Unsupported vehicle kind" error |
| `VehicleFactory.CreateElectric` | src/redesign/factories/vehicle_factory.py:20-26 | succeeds exactly for the lower-cased labels "car" and "bike"; copies the four fields; builds an electric variant with charge 0 whose lower-cased tag is "electric" + the label; any other label, "motorcycle" and "truck" included, gives the "Unsupported electric vehicle kind" error |
| `VehicleFactory.Lower` | src/redesign/factories/vehicle_factory.py:10 | ASCII `str.lower()`: same length, each upper-case ASCII letter replaced by its lower-case letter, every other character kept |
| `VehicleFactory.LowerIdempotent` | src/redesign/factories/vehicle_factory.py:10 | lower-casing a label twice is lower-casing it once |
| `VehicleFactory.LowerLeavesNoUpper` | src/redesign/factories/vehicle_factory.py:21 | a lower-cased label has no upper-case ASCII letter and keeps every other character |
| `VehicleFactory.CreateVehicleIgnoresCase` | src/redesign/factories/vehicle_factory.py:10-25 | two labels equal up to case build the same vehicle with either factory function |
| `VehicleFactory.CreateVehicleFromTag` | src/redesign/factories/vehicle_factory.py:11-16 | round trip: a Car, Motorcycle or Truck's own tag, fed back with its fields, rebuilds that vehicle |
| `VehicleFactory.CreateElectricFromTag` | src/redesign/factories/vehicle_factory.py:22-25 | round trip: an ElectricCar or ElectricBike with charge 0 is rebuilt from its tag minus "Electric" |
| `VehicleFactory.UpperCaseLabels` | src/redesign/factories/vehicle_factory.py:10-26 | "CAR" and "Car" build a Car, "BIKE" an ElectricBike; `create_electric` refuses "truck" and "motorcycle" |
| `Pools.ParkingSlot.IsEmpty` | src/redesign/models/parking_lot.py:15-16 | a slot is empty exactly when it has no vehicle |
| `Pools.FreshPool` | src/redesign/models/parking_lot.py:29-31 | the pool built for capacity n has n slots, slot i at position i with index i and the pool's charger flag, all empty |
| `Pools.FreshPoolIsEmpty` | src/redesign/models/parking_lot.py:27-31 | a fresh pool has no occupant and its first free slot is 0, or none when the capacity is 0 |
| `Pools.PostInitPool` | src/redesign/models/parking_lot.py:27-31 | an empty list becomes `FreshPool(capacity)`, a non-empty list is kept |
| `Pools.PostInitRebuildsOnlyEmpty` | src/redesign/models/parking_lot.py:27-31 | `__post_init__` turns an empty list into an empty pool of the capacity and keeps a non-empty list unchanged; both keep the pool well formed |
| `Pools.PostInitKeepsOccupiedPool` | src/redesign/models/parking_lot.py:28-31 | a two-slot pool with an occupant survives a capacity of five unchanged, so capacity and length disagree |
| `Pools.OccupiedCount` | src/redesign/models/parking_lot.py:45-57 | the number of occupied slots never exceeds the pool's length |
| `Pools.FirstFree` | src/redesign/models/parking_lot.py:33-43 | a found position is within the pool and its slot is empty |
| `Pools.FirstFreeIsLowest` | src/redesign/models/parking_lot.py:33-43 | the search answers the lowest empty position, and None exactly when every slot is occupied (or there is none) |
| `Pools.FullIffCountIsLength` | src/redesign/models/parking_lot.py:33-43 | a pool has no free slot exactly when its occupied count equals its length |
| `Pools.CountAfterUpdate` | src/redesign/models/parking_lot.py:49 | replacing one slot changes the occupied count by that slot's change of occupancy |
| `Pools.Park` | src/redesign/models/parking_lot.py:45-57 | on a pool with a free slot, the vehicle goes into the lowest free slot and its number, in 1..length, is returned, with every other slot unchanged; on a full pool the answer is None and nothing changes |
| `Pools.ParkKeepsWellFormed` | src/redesign/models/parking_lot.py:45-57 | parking keeps each slot's index and charger flag |
| `Pools.ParkCount` | src/redesign/models/parking_lot.py:45-57 | a successful park adds exactly one occupant, a failed one none |
| `Pools.ParkAllCount` | src/redesign/models/parking_lot.py:45-57 | after any number of park attempts the occupied count is the smaller of the pool length and the old count plus the attempts |
| `Pools.ParkAllInOrder` | src/redesign/models/parking_lot.py:45-57 | with the first m slots taken and the rest free, successive parks answer m+1, m+2, ... and None once the pool is full |
| `Pools.FreshPoolFillsInOrder` | src/redesign/models/parking_lot.py:29-57 | in a fresh pool of n slots successive parks answer 1, 2, ..., n and then None |
| `Pools.Leave` | src/redesign/models/parking_lot.py:59-65 | answers true exactly when 1 <= number <= length and that slot is occupied; then only that slot is emptied, otherwise nothing changes |
| `Pools.LeaveKeepsWellFormed` | src/redesign/models/parking_lot.py:59-65 | leaving keeps each slot's index and charger flag |
| `Pools.LeaveCount` | src/redesign/models/parking_lot.py:59-65 | a successful leave removes exactly one occupant, a failed one none |
| `Pools.LeaveTwice` | src/redesign/models/parking_lot.py:62-65 | leaving an occupied slot twice answers true then false, and the second call changes nothing |
| `Pools.LeaveNonPositive` | src/redesign/models/parking_lot.py:61-62 | a slot number of zero or below answers false and changes nothing |
| `Pools.ParkThenLeave` | src/redesign/models/parking_lot.py:45-65 | leaving with the number a park returned answers true and restores the pool exactly |
| `Pools.LeaveThenParkReuses` | src/redesign/models/parking_lot.py:45-65 | after freeing slot n with every lower slot taken, the next park answers n again |
| `ParkingLots.ScanFirstEmpty` | src/redesign/models/parking_lot.py:34-37 | the loop over a well-formed pool returns the index of the lowest empty slot, or None |
| `ParkingLots.ParkingLot.constructor` | src/redesign/models/parking_lot.py:19-31 | a new lot has the given level and capacities, `regularCapacity` empty regular slots and `evCapacity` empty EV slots, well formed |
| `ParkingLots.ParkingLot.PostInit` | src/redesign/models/parking_lot.py:27-31 | each pool is rebuilt for its capacity only if its list is empty; level and capacities are unchanged |
| `ParkingLots.ParkingLot.FirstEmptyRegular` | src/redesign/models/parking_lot.py:33-37 | returns the first free position of the regular pool |
| `ParkingLots.ParkingLot.FirstEmptyEv` | src/redesign/models/parking_lot.py:39-43 | returns the first free position of the EV pool |
| `ParkingLots.ParkingLot.ParkRegular` | src/redesign/models/parking_lot.py:45-50 | the regular pool and the answer are those of `Park`; the EV pool, level and capacities are unchanged; the lot stays well formed |
| `ParkingLots.ParkingLot.ParkEv` | src/redesign/models/parking_lot.py:52-57 | the EV pool and the answer are those of `Park`; the regular pool, level and capacities are unchanged; the lot stays well formed |
| `ParkingLots.ParkingLot.Leave` | src/redesign/models/parking_lot.py:59-65 | the pool `isEv` selects and the answer are those of `Leave`; the other pool, level and capacities are unchanged |
| `Strategies.Strategy.Allocation` | src/redesign/strategies/allocation_strategy.py:14-21 | RegularFirst parks in the regular pool only and ElectricOnly in the EV pool only; the other pool is untouched; RegularFirst's new regular pool and answer are exactly `Park` on the regular pool, ElectricOnly's new EV pool and answer exactly `Park` on the EV pool; None exactly when the chosen pool is full; otherwise the vehicle is in the chosen pool's lowest free slot |
| `Strategies.Strategy.Allocate` | src/redesign/strategies/allocation_strategy.py:8-21 | the lot's pools and the answer are those of `Allocation` for the strategy: `park_regular` for RegularFirst, `park_ev` for ElectricOnly |
| `Strategies.NoFallbackToEv` | src/redesign/strategies/allocation_strategy.py:15-16 | with the regular pool full, RegularFirst answers None and changes nothing, even if EV slots are free |
| `Strategies.AllocationIgnoresVariant` | src/redesign/strategies/allocation_strategy.py:14-21 | the answer does not depend on which vehicle is parked |
| `Strategies.ElectricOnlyAcceptsAnyVehicle` | src/redesign/strategies/allocation_strategy.py:19-21 | ElectricOnly parks a non-electric vehicle whenever an EV slot is free |
| `Controllers.ParkingController.constructor` | src/redesign/controllers/parking_controller.py:10-13 | the controller holds the given lot and strategy |
| `Controllers.ParkingController.CreateLot` | src/redesign/controllers/parking_controller.py:15-19 | level and capacities become the arguments; an empty pool is rebuilt for its new capacity and a non-empty pool keeps its slots and vehicles |
| `Controllers.ParkingController.Park` | src/redesign/controllers/parking_controller.py:21-22 | the lot and the answer are those of the installed strategy's `Allocation` |
| `Controllers.ParkingController.ParkEv` | src/redesign/controllers/parking_controller.py:24-25 | the same contract as `Park`: the installed strategy decides the pool |
| `Controllers.ParkingController.Leave` | src/redesign/controllers/parking_controller.py:27-28 | the same contract as the lot's `Leave` |
| `Controllers.ParkingSession` | src/redesign/controllers/parking_controller.py:15-28 | create_lot(1, 2, 1) then park, park, park, swap to ElectricOnly and park, swap back, leave(1, regular), park, create_lot(2, 5, 5), park answers 1, 2, none, 1, freed, 1, none |

The strategies hold no fields: `Strategy` has two constant variants, and `Allocation` is a
function of the strategy, the two pools and the vehicle only. Reassigning
`allocationStrategy` is a plain field assignment that touches no lot state; `ParkingSession`
shows a swap changing which pool the next park searches.

## Left out

- Vehicles.Vehicle.GetType: its contract states only which tags carry the "Electric" prefix; the constant tag of each variant is its body, and the factory round-trip lemmas rely on those constants.
- The Tk view (`src/redesign/views/app_tk.py`): widgets, message boxes, the environment variable
  that suppresses dialogs, screenshots, the parsing of typed capacities with its fallback
  defaults and the default strings for empty vehicle fields. They are user interface and I/O.
- Negative capacities: Python's `range` yields an empty pool for them; the model takes
  capacities as natural numbers.
- Passing ready-made slot lists to the `ParkingLot` constructor: a lot is always built with
  empty lists that `__post_init__` fills.
- The abstract `AllocationStrategy.allocate`, which only raises `NotImplementedError`: an
  abstract class cannot be instantiated, and the closed `Strategy` datatype has no such variant.
- Slots as shared mutable objects: the source writes `slot.vehicle` through a list of slot
  objects that nothing else references, so the model keeps each pool as a sequence of slot
  records and reassigns it. Aliasing of slot objects is therefore not modelled.
- The static type hints (`park_ev` and `ElectricOnlyStrategy.allocate` annotated for electric
  vehicles) are not enforced by Python, so the model accepts any vehicle there.
- Any range check on `charge_percent`: the code does none and never reads it.
- Unicode case rules of `str.lower()`: labels are lower-cased as ASCII.
- Concurrency: the code has no locking and runs one call at a time.
