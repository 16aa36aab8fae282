/**
 * The closed vehicle taxonomy of models/vehicle.py and models/electric_vehicle.py.
 *
 * The source builds it as a class hierarchy: Car, Truck and Motorcycle extend
 * Vehicle; ElectricVehicle extends Vehicle with a charge level, and ElectricCar
 * and ElectricBike extend ElectricVehicle. Nothing ever mutates a vehicle, so
 * every class becomes one variant of a single datatype, and the overridden
 * `get_type` becomes one match on the variant.
 */
module Vehicles {

  datatype Vehicle =
    | Vehicle(registrationNumber: string, make: string, model: string, color: string)
    | Car(registrationNumber: string, make: string, model: string, color: string)
    | Truck(registrationNumber: string, make: string, model: string, color: string)
    | Motorcycle(registrationNumber: string, make: string, model: string, color: string)
    | ElectricVehicle(registrationNumber: string, make: string, model: string, color: string,
                      chargePercent: int := 0)
    | ElectricCar(registrationNumber: string, make: string, model: string, color: string,
                  chargePercent: int := 0)
    | ElectricBike(registrationNumber: string, make: string, model: string, color: string,
                   chargePercent: int := 0)
  {
    /** The variants that are (sub)classes of ElectricVehicle and so carry a charge level. */
    predicate IsElectric() {
      ElectricVehicle? || ElectricCar? || ElectricBike?
    }

    /** The descriptive fields every variant inherits from Vehicle, in declaration order. */
    function Fields(): (string, string, string, string) {
      (registrationNumber, make, model, color)
    }

    /**
     * The discriminator tag: the name of the most derived class, so a subclass's
     * tag overrides its parent's. Electric tags, and only they, start with "Electric".
     */
    function GetType(): (tag: string)
      ensures IsElectric() <==> |tag| > 8 && tag[..8] == "Electric"
    {
      match this
      case Vehicle(_, _, _, _) => "Vehicle"
      case Car(_, _, _, _) => "Car"
      case Truck(_, _, _, _) => "Truck"
      case Motorcycle(_, _, _, _) =>
        assert "Motorcycle"[0] != "Electric"[0];
        "Motorcycle"
      case ElectricVehicle(_, _, _, _, _) => "ElectricVehicle"
      case ElectricCar(_, _, _, _, _) => "ElectricCar"
      case ElectricBike(_, _, _, _, _) => "ElectricBike"
    }
  }

  /** Two vehicles with the same tag are of the same variant: the tag identifies the class. */
  lemma TagIdentifiesVariant(a: Vehicle, b: Vehicle)
    requires a.GetType() == b.GetType()
    ensures a.Vehicle? == b.Vehicle? && a.Car? == b.Car? && a.Truck? == b.Truck?
    ensures a.Motorcycle? == b.Motorcycle? && a.ElectricVehicle? == b.ElectricVehicle?
    ensures a.ElectricCar? == b.ElectricCar? && a.ElectricBike? == b.ElectricBike?
  {
  }

  /** An electric vehicle built without a charge level has charge 0, whatever its variant. */
  lemma ChargeDefaultsToZero(reg: string, make: string, model: string, color: string)
    ensures ElectricVehicle(reg, make, model, color).chargePercent == 0
    ensures ElectricCar(reg, make, model, color).chargePercent == 0
    ensures ElectricBike(reg, make, model, color).chargePercent == 0
    ensures ElectricVehicle(reg, make, model, color).Fields() == (reg, make, model, color)
    ensures ElectricCar(reg, make, model, color).Fields() == (reg, make, model, color)
    ensures ElectricBike(reg, make, model, color).Fields() == (reg, make, model, color)
  {
  }
}
