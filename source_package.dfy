/** The package class of source/package.py.

    The object is built once and then only its status changes, through
    `modify_status`.  The volume is a property: it is recomputed from the
    current dimensions whenever it is read. */
module SourcePackage {
  import opened Errors

  /** The statuses the constructor accepts, as listed in source/package.py. */
  const ValidStatuses: seq<string> := ["to-be-delivered", "rejected", "attempted", "delivered"]

  type Dimensions = (real, real, real)   // (depth, height, width)

  class Package {
    var name: string
    var dimensions: Dimensions
    var status: string
    var weight: real
    var price: real

    /** Stores the arguments; validation is done by `NewPackage`. */
    constructor (name: string, dimensions: Dimensions, status: string, weight: real, price: real)
      ensures this.name == name && this.dimensions == dimensions && this.status == status
      ensures this.weight == weight && this.price == price
    {
      this.name, this.dimensions, this.status, this.weight, this.price := name, dimensions, status, weight, price;
    }

    /** The `volume` property: the product of the three current dimensions. */
    function Volume(): (v: real)
      reads this
      ensures v == dimensions.0 * dimensions.1 * dimensions.2
      ensures dimensions.0 > 0.0 && dimensions.1 > 0.0 && dimensions.2 > 0.0 ==> v > 0.0
    {
      dimensions.0 * dimensions.1 * dimensions.2
    }

    /** `modify_status`: sets the status to any string, unchecked, and
        leaves every other field, and so the volume, as it was. */
    method ModifyStatus(status: string)
      modifies this`status
      ensures this.status == status
      ensures name == old(name) && dimensions == old(dimensions)
      ensures weight == old(weight) && price == old(price)
      ensures Volume() == old(Volume())
    {
      this.status := status;
    }
  }

  /** `package.__init__`: a package object when the status is one of the
      four accepted ones, the ValueError otherwise.  Weight and price
      default to 0. */
  method NewPackage(name: string, dimensions: Dimensions, status: string,
                    weight: real := 0.0, price: real := 0.0) returns (p: Package?, err: Option<Error>)
    ensures err.None? <==> status in ValidStatuses
    ensures err.Some? ==> err == Some(InvalidPackageStatus(status)) && p == null
    ensures err.None? ==> p != null && fresh(p)
    ensures err.None? ==> p.name == name && p.dimensions == dimensions && p.status == status
    ensures err.None? ==> p.weight == weight && p.price == price
  {
    if status !in ValidStatuses {
      return null, Some(InvalidPackageStatus(status));
    }
    p := new Package(name, dimensions, status, weight, price);
    err := None;
  }

  /** The unit cube of the test fixtures has volume 1 and a status that
      stays valid when set to "delivered". */
  method UnitCubeScenario() returns (volume: real, status: string)
    ensures volume == 1.0 && status == "delivered"
  {
    var p, err := NewPackage("package_1", (1.0, 1.0, 1.0), "delivered", 0.5, 10.0);
    assert err.None? && p != null;
    p.ModifyStatus("delivered");
    volume, status := p.Volume(), p.status;
  }
}
