/** The initial route record of lmr_analyzer/route.py.

    The constructor takes only the route name; everything else starts empty.
    The sequences hold stop objects, so the record is generic in their type. */
module Route {
  import opened Errors
  import Vehicle

  datatype Route<S> = Route(
    name: string,
    actualSequence: seq<S>,
    actualSequenceNames: seq<string>,
    plannedSequence: seq<S>,
    plannedSequenceNames: seq<string>,
    vehicle: Option<Vehicle.Vehicle>,
    numberOfPlannedStops: nat,
    numberOfActualStops: nat)
  {
    /** The counters agree with the sequences they count. */
    predicate CountsAgree() {
      && numberOfPlannedStops == |plannedSequence| == |plannedSequenceNames|
      && numberOfActualStops == |actualSequence| == |actualSequenceNames|
    }
  }

  /** `route.__init__`. */
  function NewRoute<S>(name: string): (r: Route<S>)
    ensures r.name == name
    ensures r.actualSequence == [] && r.actualSequenceNames == []
    ensures r.plannedSequence == [] && r.plannedSequenceNames == []
    ensures r.vehicle == None
    ensures r.numberOfPlannedStops == 0 && r.numberOfActualStops == 0
    ensures r.CountsAgree()
  {
    Route(name, [], [], [], [], None, 0, 0)
  }
}
