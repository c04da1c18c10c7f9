/** The package record of lmr_analyzer/package.py.

    The constructor stores its arguments, checks the status and only then
    computes the volume with the class's `calculate_volume` method, which is
    not part of this model: it is the parameter `calculateVolume`, and it may
    fail. */
module LmrPackage {
  import opened Errors
  import Enums

  /** The statuses the constructor accepts, as listed in package.py. */
  const ValidStatuses: seq<string> := ["to-be-delivered", "rejected", "attempted", "delivered"]

  type Dimensions = (real, real, real)

  datatype Package = Package(name: string, dimensions: Dimensions, status: string,
                             weight: real, price: real, volume: real)

  /** `package.__init__`; weight and price default to 0. */
  function NewPackage(calculateVolume: Dimensions -> Result<real>, name: string, dimensions: Dimensions,
                      status: string, weight: real := 0.0, price: real := 0.0): (r: Result<Package>)
    ensures status !in ValidStatuses ==> r == Err(InvalidPackageStatus(status))
    ensures status in ValidStatuses && calculateVolume(dimensions).Err?
            ==> r == Err(calculateVolume(dimensions).error)
    ensures r.Ok? <==> status in ValidStatuses && calculateVolume(dimensions).Ok?
    ensures r.Ok? ==>
              && r.value.name == name && r.value.dimensions == dimensions && r.value.status == status
              && r.value.weight == weight && r.value.price == price
              && r.value.volume == calculateVolume(dimensions).value
  {
    if status !in ValidStatuses then Err(InvalidPackageStatus(status))
    else match calculateVolume(dimensions)
      case Err(e) => Err(e)
      case Ok(v) => Ok(Package(name, dimensions, status, weight, price, v))
  }

  /** The status check comes first: with an invalid status the result does
      not depend on `calculateVolume` at all. */
  lemma InvalidStatusSkipsVolume(cv1: Dimensions -> Result<real>, cv2: Dimensions -> Result<real>,
                                 name: string, dimensions: Dimensions, status: string, weight: real, price: real)
    requires status !in ValidStatuses
    ensures NewPackage(cv1, name, dimensions, status, weight, price)
            == NewPackage(cv2, name, dimensions, status, weight, price)
  {
  }

  /** Omitting weight and price stores 0 for both. */
  lemma DefaultWeightAndPrice(calculateVolume: Dimensions -> Result<real>, name: string, dimensions: Dimensions)
    requires calculateVolume(dimensions).Ok?
    ensures NewPackage(calculateVolume, name, dimensions, "delivered").Ok?
    ensures NewPackage(calculateVolume, name, dimensions, "delivered").value.weight == 0.0
    ensures NewPackage(calculateVolume, name, dimensions, "delivered").value.price == 0.0
  {
  }

  /** The accepted statuses are exactly the values of the PackageStatus enum. */
  lemma ValidStatusesAreEnum()
    ensures ValidStatuses == Enums.PackageStatusMembers()
  {
    Enums.PackageStatusMembersAre();
  }
}
