/**
 * Parking slots and the pools they form (models/parking_lot.py), as values.
 *
 * A pool is the ordered list of slots a lot keeps for one kind of space
 * (regular or EV). The functions here are the specification of the lot's
 * operations on one pool: first-fit search, parking and leaving. The class
 * ParkingLot (parking_lot.dfy) is proved against them, and the lemmas below
 * state what the source promises about them.
 *
 * Positions are zero-based; the slot numbers handed out by `Park` and taken
 * by `Leave` are one-based (position + 1).
 */
module Pools {
  import opened Wrappers
  import opened Vehicles

  /** One parking space: its position, whether it has a charger, and its occupant. */
  datatype ParkingSlot = ParkingSlot(index: nat, isElectric: bool, vehicle: Option<Vehicle>)
  {
    /** `is_empty`: no vehicle occupies the slot. */
    predicate IsEmpty(): (empty: bool)
      ensures empty <==> vehicle == None
    {
      vehicle.None?
    }
  }

  type Pool = seq<ParkingSlot>

  /**
   * The invariant a lot keeps for each pool: the slot at position i has index i,
   * and every slot carries the pool's charger flag.
   */
  ghost predicate WellFormed(pool: Pool, electric: bool) {
    forall i :: 0 <= i < |pool| ==> pool[i].index == i && pool[i].isElectric == electric
  }

  /** No slot of the pool is free. */
  ghost predicate Full(pool: Pool) {
    forall i :: 0 <= i < |pool| ==> !pool[i].IsEmpty()
  }

  /** The pool `__post_init__` builds for a capacity: slots 0 .. n-1, all empty. */
  function FreshPool(n: nat, electric: bool): (pool: Pool)
    ensures |pool| == n && WellFormed(pool, electric)
    ensures forall i :: 0 <= i < n ==> pool[i].IsEmpty()
  {
    seq(n, i requires 0 <= i < n => ParkingSlot(i, electric, None))
  }

  /**
   * What `__post_init__` does to one pool: it builds a fresh pool of the
   * capacity only when the current list is empty, and otherwise keeps it.
   */
  function PostInitPool(pool: Pool, capacity: nat, electric: bool): (r: Pool)
    ensures |pool| == 0 ==> r == FreshPool(capacity, electric)
    ensures |pool| > 0 ==> r == pool
  {
    if |pool| == 0 then FreshPool(capacity, electric) else pool
  }

  /** The number of occupied slots of a pool. */
  function OccupiedCount(pool: Pool): (n: nat)
    ensures n <= |pool|
  {
    if |pool| == 0 then 0
    else (if pool[0].IsEmpty() then 0 else 1) + OccupiedCount(pool[1..])
  }

  /** The position of the first free slot, scanning from position 0, or None when there is none. */
  function FirstFree(pool: Pool): (r: Option<nat>)
    ensures r.Some? ==> r.value < |pool| && pool[r.value].IsEmpty()
  {
    if |pool| == 0 then None
    else if pool[0].IsEmpty() then Some(0)
    else match FirstFree(pool[1..])
      case None => None
      case Some(i) => Some(i + 1)
  }

  /**
   * Parking into one pool (`park_regular` / `park_ev` on their pool): the vehicle
   * goes into the first free slot and its one-based number is returned; a full
   * pool is left as it is and the answer is None.
   */
  function Park(pool: Pool, v: Vehicle): (res: (Pool, Option<int>))
    ensures |res.0| == |pool|
    ensures res.1.None? <==> Full(pool)
    ensures res.1.None? ==> res.0 == pool
    ensures res.1.Some? ==> 1 <= res.1.value <= |pool|
    ensures res.1.Some? ==> IsFirstFree(pool, res.1.value - 1)
    ensures res.1.Some? ==> res.0 == pool[res.1.value - 1 := pool[res.1.value - 1].(vehicle := Some(v))]
  {
    FirstFreeIsLowest(pool);
    match FirstFree(pool)
    case None => (pool, None)
    case Some(i) => (pool[i := pool[i].(vehicle := Some(v))], Some(i + 1))
  }

  /** Position i is free and every position before it is occupied. */
  ghost predicate IsFirstFree(pool: Pool, i: int) {
    0 <= i < |pool| && pool[i].IsEmpty() && forall j :: 0 <= j < i ==> !pool[j].IsEmpty()
  }

  /**
   * Leaving a pool (`leave`): a one-based number in range whose slot is occupied
   * has its vehicle removed and the answer is true; every other number leaves
   * the pool as it is and the answer is false.
   */
  function Leave(pool: Pool, slotNumber: int): (res: (Pool, bool))
    ensures res.1 <==> 1 <= slotNumber <= |pool| && !pool[slotNumber - 1].IsEmpty()
    ensures res.1 ==> res.0 == pool[slotNumber - 1 := pool[slotNumber - 1].(vehicle := None)]
    ensures !res.1 ==> res.0 == pool
  {
    var idx := slotNumber - 1;
    if 0 <= idx < |pool| && !pool[idx].IsEmpty() then
      (pool[idx := pool[idx].(vehicle := None)], true)
    else
      (pool, false)
  }

  /** Parking each vehicle of `vs` in turn: the final pool and the answer to each attempt. */
  function ParkAll(pool: Pool, vs: seq<Vehicle>): (res: (Pool, seq<Option<int>>))
    ensures |res.0| == |pool| && |res.1| == |vs|
    decreases |vs|
  {
    if |vs| == 0 then (pool, [])
    else
      var (p1, r) := Park(pool, vs[0]);
      var (p2, rs) := ParkAll(p1, vs[1..]);
      (p2, [r] + rs)
  }

  function Min(a: int, b: int): int {
    if a <= b then a else b
  }

  // ---------------------------------------------------------------------------
  // First fit

  /** FirstFree finds exactly the lowest free position, and None exactly when the pool is full. */
  lemma {:induction false} FirstFreeIsLowest(pool: Pool)
    ensures FirstFree(pool).None? <==> Full(pool)
    ensures forall i :: FirstFree(pool) == Some(i) <==> IsFirstFree(pool, i)
  {
    if |pool| > 0 && !pool[0].IsEmpty() {
      var rest := pool[1..];
      FirstFreeIsLowest(rest);
      assert forall j :: 0 < j < |pool| ==> pool[j] == rest[j - 1];
      forall i ensures FirstFree(pool) == Some(i) <==> IsFirstFree(pool, i) {
        if IsFirstFree(pool, i) {
          assert i > 0;
          assert IsFirstFree(rest, i - 1);
        }
      }
    }
  }

  /** A pool is full exactly when every one of its slots is occupied. */
  lemma {:induction false} FullIffCountIsLength(pool: Pool)
    ensures Full(pool) <==> OccupiedCount(pool) == |pool|
  {
    if |pool| > 0 {
      FullIffCountIsLength(pool[1..]);
      assert forall j :: 0 < j < |pool| ==> pool[j] == pool[1..][j - 1];
    }
  }

  /** Replacing one slot changes the count by the difference in that slot's occupancy. */
  lemma {:induction false} CountAfterUpdate(pool: Pool, i: nat, s: ParkingSlot)
    requires i < |pool|
    ensures OccupiedCount(pool[i := s]) + (if pool[i].IsEmpty() then 0 else 1)
         == OccupiedCount(pool) + (if s.IsEmpty() then 0 else 1)
  {
    if i > 0 {
      CountAfterUpdate(pool[1..], i - 1, s);
      assert pool[i := s][1..] == pool[1..][i - 1 := s];
    } else {
      assert pool[i := s][1..] == pool[1..];
    }
  }

  // ---------------------------------------------------------------------------
  // A fresh pool and `__post_init__`

  /** A fresh pool has no occupant, and its first free slot is slot 0 unless it has no slot. */
  lemma FreshPoolIsEmpty(n: nat, electric: bool)
    ensures OccupiedCount(FreshPool(n, electric)) == 0
    ensures FirstFree(FreshPool(n, electric)) == if n == 0 then None else Some(0)
  {
    var pool := FreshPool(n, electric);
    AllEmptyCountsZero(pool);
    FirstFreeIsLowest(pool);
    if n > 0 {
      assert IsFirstFree(pool, 0);
    }
  }

  lemma {:induction false} AllEmptyCountsZero(pool: Pool)
    requires forall i :: 0 <= i < |pool| ==> pool[i].IsEmpty()
    ensures OccupiedCount(pool) == 0
  {
    if |pool| > 0 {
      assert forall j :: 0 < j < |pool| ==> pool[j] == pool[1..][j - 1];
      AllEmptyCountsZero(pool[1..]);
    }
  }

  /**
   * `__post_init__` rebuilds an empty list as a fresh pool of the capacity, and
   * keeps a non-empty list with all its occupants, whatever the capacity says.
   */
  lemma PostInitRebuildsOnlyEmpty(pool: Pool, capacity: nat, electric: bool)
    requires WellFormed(pool, electric)
    ensures WellFormed(PostInitPool(pool, capacity, electric), electric)
    ensures |pool| == 0 ==> |PostInitPool(pool, capacity, electric)| == capacity
    ensures |pool| == 0 ==> OccupiedCount(PostInitPool(pool, capacity, electric)) == 0
    ensures |pool| > 0 ==> PostInitPool(pool, capacity, electric) == pool
  {
    FreshPoolIsEmpty(capacity, electric);
  }

  /**
   * The capacity can disagree with the pool after `__post_init__`: a pool of two
   * slots, one of them taken, stays so when the capacity becomes five.
   */
  lemma PostInitKeepsOccupiedPool(v: Vehicle)
    ensures var kept := [ParkingSlot(0, false, Some(v)), ParkingSlot(1, false, None)];
      PostInitPool(kept, 5, false) == kept && |PostInitPool(kept, 5, false)| != 5
  {
  }

  // ---------------------------------------------------------------------------
  // Parking

  /** Parking keeps every slot's index and charger flag, so it keeps the pool well formed. */
  lemma ParkKeepsWellFormed(pool: Pool, v: Vehicle, electric: bool)
    requires WellFormed(pool, electric)
    ensures WellFormed(Park(pool, v).0, electric)
  {
  }

  /** A successful park adds exactly one occupant; a failed one adds none. */
  lemma ParkCount(pool: Pool, v: Vehicle)
    ensures OccupiedCount(Park(pool, v).0) == OccupiedCount(pool) + if Park(pool, v).1.Some? then 1 else 0
  {
    var (p1, r) := Park(pool, v);
    if r.Some? {
      CountAfterUpdate(pool, r.value - 1, pool[r.value - 1].(vehicle := Some(v)));
    }
  }

  /**
   * However many parks are attempted, the pool never holds more vehicles than it
   * has slots: each attempt fills one more slot until the pool is full.
   */
  lemma {:induction false} ParkAllCount(pool: Pool, vs: seq<Vehicle>)
    ensures OccupiedCount(ParkAll(pool, vs).0) == Min(|pool|, OccupiedCount(pool) + |vs|)
    decreases |vs|
  {
    if |vs| > 0 {
      var (p1, r) := Park(pool, vs[0]);
      ParkCount(pool, vs[0]);
      FullIffCountIsLength(pool);
      ParkAllCount(p1, vs[1..]);
    }
  }

  /**
   * First fit, step by step: in a pool whose first m slots are taken and whose
   * others are free, successive parks get numbers m+1, m+2, ... and then None.
   */
  lemma {:induction false} ParkAllInOrder(pool: Pool, m: nat, vs: seq<Vehicle>)
    requires m <= |pool|
    requires forall j :: 0 <= j < m ==> !pool[j].IsEmpty()
    requires forall j :: m <= j < |pool| ==> pool[j].IsEmpty()
    ensures forall i :: 0 <= i < |vs| ==>
      ParkAll(pool, vs).1[i] == if m + i < |pool| then Some(m + i + 1) else None
    decreases |vs|
  {
    if |vs| > 0 {
      var (p1, r) := Park(pool, vs[0]);
      FirstFreeIsLowest(pool);
      if m < |pool| {
        assert IsFirstFree(pool, m);
        assert r == Some(m + 1);
        ParkAllInOrder(p1, m + 1, vs[1..]);
      } else {
        assert r == None;
        ParkAllInOrder(p1, m, vs[1..]);
      }
      var rs := ParkAll(p1, vs[1..]).1;
      assert ParkAll(pool, vs).1 == [r] + rs;
    }
  }

  /** In a fresh pool of n slots, k parks get numbers 1, 2, ..., n and then None. */
  lemma FreshPoolFillsInOrder(n: nat, electric: bool, vs: seq<Vehicle>)
    ensures forall i :: 0 <= i < |vs| ==>
      ParkAll(FreshPool(n, electric), vs).1[i] == if i < n then Some(i + 1) else None
  {
    ParkAllInOrder(FreshPool(n, electric), 0, vs);
  }

  // ---------------------------------------------------------------------------
  // Leaving

  /** Leaving keeps every slot's index and charger flag, so it keeps the pool well formed. */
  lemma LeaveKeepsWellFormed(pool: Pool, slotNumber: int, electric: bool)
    requires WellFormed(pool, electric)
    ensures WellFormed(Leave(pool, slotNumber).0, electric)
  {
  }

  /** A successful leave removes exactly one occupant; a failed one removes none. */
  lemma LeaveCount(pool: Pool, slotNumber: int)
    ensures OccupiedCount(Leave(pool, slotNumber).0) + (if Leave(pool, slotNumber).1 then 1 else 0)
         == OccupiedCount(pool)
  {
    if Leave(pool, slotNumber).1 {
      CountAfterUpdate(pool, slotNumber - 1, pool[slotNumber - 1].(vehicle := None));
    }
  }

  /** Leaving the same slot twice: the first call frees it, the second answers false and changes nothing. */
  lemma LeaveTwice(pool: Pool, slotNumber: int)
    requires Leave(pool, slotNumber).1
    ensures var p1 := Leave(pool, slotNumber).0; Leave(p1, slotNumber) == (p1, false)
  {
  }

  /** A slot number of zero or below is never accepted. */
  lemma LeaveNonPositive(pool: Pool, slotNumber: int)
    requires slotNumber <= 0
    ensures Leave(pool, slotNumber) == (pool, false)
  {
  }

  /** Leaving with the number a park returned undoes that park exactly. */
  lemma ParkThenLeave(pool: Pool, v: Vehicle)
    requires !Full(pool)
    ensures var (p1, r) := Park(pool, v); r.Some? && Leave(p1, r.value) == (pool, true)
  {
    var (p1, r) := Park(pool, v);
    var i := r.value - 1;
    assert p1[i := p1[i].(vehicle := None)] == pool;
  }

  /**
   * A freed slot is handed out again by the next park when every slot before it
   * is still taken.
   */
  lemma LeaveThenParkReuses(pool: Pool, slotNumber: int, v: Vehicle)
    requires Leave(pool, slotNumber).1
    requires forall j :: 0 <= j < slotNumber - 1 ==> !pool[j].IsEmpty()
    ensures Park(Leave(pool, slotNumber).0, v).1 == Some(slotNumber)
  {
    var p1 := Leave(pool, slotNumber).0;
    FirstFreeIsLowest(p1);
    assert IsFirstFree(p1, slotNumber - 1);
  }
}
