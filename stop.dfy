/** The validated stop record of lmr_analyzer/stop.py.

    Times are whole seconds.  The packages argument is stored as given (the
    same object, not a copy), so the record is generic in its type. */
module Stop {
  import opened Errors
  import Enums

  /** The location types the constructor accepts, as listed in stop.py. */
  const ValidLocationTypes: seq<string> := ["depot", "pickup", "delivery"]

  datatype Stop<P> = Stop(
    name: string,
    location: (real, real),        // (latitude, longitude)
    locationType: string,
    timeWindow: (int, int),        // (start, end)
    packages: P,
    plannedServiceTime: int,
    deliveryTime: int)             // end - start

  /** `stop.__init__`: the time window is checked first, then the location
      type; a stop is built only when both are valid. */
  function NewStop<P>(name: string, location: (real, real), locationType: string,
                      timeWindow: (int, int), plannedServiceTime: int, packages: P): (r: Result<Stop<P>>)
    ensures r.Ok? <==> timeWindow.0 <= timeWindow.1 && locationType in ValidLocationTypes
    ensures timeWindow.0 > timeWindow.1 ==> r == Err(InvalidTimeWindow)
    ensures timeWindow.0 <= timeWindow.1 && locationType !in ValidLocationTypes
            ==> r == Err(InvalidLocationType(locationType))
    ensures r.Ok? ==>
              && r.value.name == name && r.value.location == location
              && r.value.locationType == locationType && r.value.timeWindow == timeWindow
              && r.value.packages == packages && r.value.plannedServiceTime == plannedServiceTime
    ensures r.Ok? ==> r.value.deliveryTime >= 0 && timeWindow.0 + r.value.deliveryTime == timeWindow.1
  {
    if timeWindow.0 > timeWindow.1 then Err(InvalidTimeWindow)
    else if locationType !in ValidLocationTypes then Err(InvalidLocationType(locationType))
    else Ok(Stop(name, location, locationType, timeWindow, packages, plannedServiceTime,
                 timeWindow.1 - timeWindow.0))
  }

  /** The accepted location types are exactly the values of the
      LocationType enum, in the same order. */
  lemma ValidLocationTypesAreEnum()
    ensures ValidLocationTypes == Enums.LocationTypeMembers()
  {
    Enums.LocationTypeMembersAre();
  }

  /** An empty window (start == end) is accepted and lasts 0 seconds. */
  lemma EqualBoundsAccepted<P>(name: string, location: (real, real), t: int, packages: P)
    ensures NewStop(name, location, "delivery", (t, t), 0, packages).Ok?
    ensures NewStop(name, location, "delivery", (t, t), 0, packages).value.deliveryTime == 0
  {
  }

  /** The test fixture: a delivery stop open from 10:00 to 12:00 has a
      delivery time of 7200 seconds. */
  lemma TwoHourWindow<P>(packages: P)
    ensures var r := NewStop("example_stop", (0.0, 0.0), "delivery", (36000, 43200), 60, packages);
            r.Ok? && r.value.deliveryTime == 7200
  {
  }
}
