/**
 * The vehicle factory of factories/vehicle_factory.py: a pure mapping from a
 * kind label to a vehicle variant. The label is lower-cased first, so matching
 * ignores case; an unknown label is an error (the source raises ValueError,
 * here it is an `Err` carrying the same message).
 */
module VehicleFactory {
  import opened Wrappers
  import opened Vehicles

  predicate IsAsciiUpper(c: char) {
    'A' <= c <= 'Z'
  }

  function LowerChar(c: char): char {
    if IsAsciiUpper(c) then (c as int + 32) as char else c
  }

  /**
   * `str.lower()` on ASCII text: every upper-case letter becomes its lower-case
   * letter and every other character is kept.
   */
  function Lower(s: string): (r: string)
    ensures |r| == |s|
    ensures forall i :: 0 <= i < |s| ==> r[i] == LowerChar(s[i])
  {
    seq(|s|, i requires 0 <= i < |s| => LowerChar(s[i]))
  }

  /** A lower-cased string has no upper-case letter left, and keeps every other character. */
  lemma LowerLeavesNoUpper(s: string)
    ensures forall i :: 0 <= i < |s| ==> !IsAsciiUpper(Lower(s)[i])
    ensures forall i :: 0 <= i < |s| && !IsAsciiUpper(s[i]) ==> Lower(s)[i] == s[i]
  {
  }

  /** Lower-casing twice is lower-casing once. */
  lemma LowerIdempotent(s: string)
    ensures Lower(Lower(s)) == Lower(s)
  {
  }

  /** `create_vehicle`: "car", "motorcycle" and "truck", in any case, build the matching variant. */
  function CreateVehicle(kind: string, reg: string, make: string, model: string, color: string)
    : (r: Result<Vehicle, string>)
    ensures r.Ok? <==> Lower(kind) in {"car", "motorcycle", "truck"}
    ensures r.Ok? ==> r.value.Fields() == (reg, make, model, color) && !r.value.IsElectric()
    ensures r.Ok? ==> Lower(r.value.GetType()) == Lower(kind)
    ensures r.Err? ==> r.error == "Unsupported vehicle kind: " + kind
  {
    var k := Lower(kind);
    if k == "car" then LowerOf("Car", "car"); Ok(Car(reg, make, model, color))
    else if k == "motorcycle" then LowerOf("Motorcycle", "motorcycle"); Ok(Motorcycle(reg, make, model, color))
    else if k == "truck" then LowerOf("Truck", "truck"); Ok(Truck(reg, make, model, color))
    else Err("Unsupported vehicle kind: " + kind)
  }

  /**
   * `create_electric`: "car" and "bike", in any case, build an ElectricCar or an
   * ElectricBike with the default charge of 0; every other label, "motorcycle"
   * and "truck" among them, is refused.
   */
  function CreateElectric(kind: string, reg: string, make: string, model: string, color: string)
    : (r: Result<Vehicle, string>)
    ensures r.Ok? <==> Lower(kind) in {"car", "bike"}
    ensures r.Ok? ==> r.value.Fields() == (reg, make, model, color) && r.value.IsElectric()
    ensures r.Ok? ==> r.value.chargePercent == 0
    ensures r.Ok? ==> Lower(r.value.GetType()) == "electric" + Lower(kind)
    ensures r.Err? ==> r.error == "Unsupported electric vehicle kind: " + kind
  {
    var k := Lower(kind);
    if k == "car" then LowerElectricTags();
      assert "electric" + k == "electriccar";
      Ok(ElectricCar(reg, make, model, color))
    else if k == "bike" then LowerElectricTags();
      assert "electric" + k == "electricbike";
      Ok(ElectricBike(reg, make, model, color))
    else Err("Unsupported electric vehicle kind: " + kind)
  }

  /** The lower-cased tags of the two electric variants the factory builds. */
  lemma LowerElectricTags()
    ensures Lower("ElectricCar") == "electriccar" && Lower("ElectricBike") == "electricbike"
  {
    LowerOf("ElectricCar", "electriccar");
    LowerOf("ElectricBike", "electricbike");
  }

  /** Lower-casing a literal, character by character. */
  lemma LowerOf(s: string, t: string)
    requires |s| == |t| && forall i :: 0 <= i < |s| ==> LowerChar(s[i]) == t[i]
    ensures Lower(s) == t
  {
  }

  /** Two labels that differ only in case build the same vehicle. */
  lemma CreateVehicleIgnoresCase(k1: string, k2: string, reg: string, make: string, model: string, color: string)
    requires Lower(k1) == Lower(k2)
    ensures CreateVehicle(k1, reg, make, model, color).Ok? == CreateVehicle(k2, reg, make, model, color).Ok?
    ensures CreateVehicle(k1, reg, make, model, color).Ok? ==>
      CreateVehicle(k1, reg, make, model, color).value == CreateVehicle(k2, reg, make, model, color).value
    ensures CreateElectric(k1, reg, make, model, color).Ok? == CreateElectric(k2, reg, make, model, color).Ok?
    ensures CreateElectric(k1, reg, make, model, color).Ok? ==>
      CreateElectric(k1, reg, make, model, color).value == CreateElectric(k2, reg, make, model, color).value
  {
  }

  /** Feeding a built vehicle's own tag back to the factory rebuilds that vehicle. */
  lemma CreateVehicleFromTag(v: Vehicle)
    requires v.Car? || v.Motorcycle? || v.Truck?
    ensures CreateVehicle(v.GetType(), v.registrationNumber, v.make, v.model, v.color) == Ok(v)
  {
    if v.Car? {
      LowerOf("Car", "car");
    } else if v.Motorcycle? {
      LowerOf("Motorcycle", "motorcycle");
    } else {
      LowerOf("Truck", "truck");
    }
  }

  /** The same for electric vehicles, whose label is the tag without its "Electric" prefix. */
  lemma CreateElectricFromTag(v: Vehicle)
    requires v.ElectricCar? || v.ElectricBike?
    requires v.chargePercent == 0
    ensures CreateElectric(v.GetType()[8..], v.registrationNumber, v.make, v.model, v.color) == Ok(v)
  {
    if v.ElectricCar? {
      assert v.GetType()[8..] == "Car";
      LowerOf("Car", "car");
    } else {
      assert v.GetType()[8..] == "Bike";
      LowerOf("Bike", "bike");
    }
  }

  /** Upper-case labels are accepted: "CAR" and "Car" both build a Car. */
  lemma UpperCaseLabels(reg: string, make: string, model: string, color: string)
    ensures CreateVehicle("CAR", reg, make, model, color) == Ok(Car(reg, make, model, color))
    ensures CreateVehicle("Car", reg, make, model, color) == Ok(Car(reg, make, model, color))
    ensures CreateElectric("BIKE", reg, make, model, color) == Ok(ElectricBike(reg, make, model, color))
    ensures CreateElectric("truck", reg, make, model, color).Err?
    ensures CreateElectric("motorcycle", reg, make, model, color).Err?
  {
    LowerOf("CAR", "car");
    LowerOf("BIKE", "bike");
  }
}
