/** `amz_serializer.serialize_route`: the second pass over the Amazon data.

    The routes dictionary maps route id -> route record, whose "stops" field
    maps stop id -> raw stop.  For every route that is not yet a route
    object, the pass replaces each raw stop by a stop object (its packages
    taken from the packages dictionary), then builds the vehicle, parses the
    date and departure time and replaces the record by a route object.
    Objects already present are skipped.  The first error ends the pass;
    what was written before it stays.

    The route constructor is an abstract interface: a route object holds
    exactly the arguments the serializer passes.  The stop constructor is
    the validating `Stop.NewStop`, and the vehicle is `Vehicle.Vehicle`.
    The departure time is the tuple of integers handed to `datetime`;
    calendar checks are not modelled. */
module AmzRoutes {
  import opened Errors
  import opened Dicts
  import opened Text
  import AmzPackages
  import Stop
  import Vehicle

  type StopPackages = AmzPackages.StopPackages
  type PackagesDict = AmzPackages.PackagesDict

  /** The fields of a raw stop the serializer reads. */
  datatype RawStop = RawStop(stopType: string, lat: real, lng: real)

  /** A value of a route's "stops" dictionary: raw JSON, or a stop object. */
  datatype StopEntry = RawStopEntry(raw: RawStop) | BuiltStop(stop: Stop.Stop<StopPackages>)

  /** The fields of a raw route the serializer reads. */
  datatype RawRoute = RawRoute(stops: Dict<StopEntry>, executorCapacityCm3: real,
                               date: string, departureTimeUtc: string)

  /** `datetime(Y, M, D, h, m, s, 0, pytz.UTC)`. */
  datatype DateTime = DateTime(year: int, month: int, day: int, hour: int, minute: int, second: int)

  /** The arguments of `route_class(name=..., stops=..., departure_time=...,
      vehicle=...)`. */
  datatype RouteArgs = RouteArgs(name: string, stops: Dict<StopEntry>, departureTime: DateTime,
                                 vehicle: Vehicle.Vehicle)

  /** A value of the routes dictionary: raw JSON, or a route object. */
  datatype RouteEntry = RawRouteEntry(raw: RawRoute) | BuiltRoute(route: RouteArgs)
  {
    /** The stops dictionary of the entry, in either form. */
    function Stops(): Dict<StopEntry> {
      match this
      case RawRouteEntry(raw) => raw.stops
      case BuiltRoute(route) => route.stops
    }
  }

  type RoutesDict = Dict<RouteEntry>

  /** The stop-type vocabulary mapping. */
  function LocationType(stopType: string): Result<string> {
    if stopType == "Dropoff" then Ok("delivery")
    else if stopType == "Station" then Ok("depot")
    else Err(InvalidStopType(stopType))
  }

  /** Dropoff becomes delivery and Station depot, both accepted by the stop
      constructor; any other type raises ValueError naming it. */
  lemma LocationTypeMapping(stopType: string)
    ensures stopType == "Dropoff" <==> LocationType(stopType) == Ok("delivery")
    ensures stopType == "Station" <==> LocationType(stopType) == Ok("depot")
    ensures LocationType(stopType).Err? <==> stopType != "Dropoff" && stopType != "Station"
    ensures LocationType(stopType).Err? ==>
              LocationType(stopType).error == InvalidStopType(stopType)
              && LocationType(stopType).error.Class() == ValueError
    ensures LocationType(stopType).Ok? ==> LocationType(stopType).value in Stop.ValidLocationTypes
  {
  }

  /** What the pass does with the stop stored under `stopId` of route
      `routeId`: the type is mapped first, then the packages are looked up
      (route id, then stop id), then the stop is built. */
  function ConvertStop(packagesDict: PackagesDict, routeId: string, stopId: string, e: StopEntry): Result<StopEntry> {
    match e
    case BuiltStop(_) => Ok(e)
    case RawStopEntry(raw) =>
      match LocationType(raw.stopType)
      case Err(err) => Err(err)
      case Ok(lcType) =>
        match Lookup(packagesDict, routeId)
        case Err(err) => Err(err)
        case Ok(routePackages) =>
          match Lookup(routePackages, stopId)
          case Err(err) => Err(err)
          case Ok(packages) =>
            match Stop.NewStop(stopId, (raw.lat, raw.lng), lcType, (0, 0), 0, packages)
            case Err(err) => Err(err)
            case Ok(s) => Ok(BuiltStop(s))
  }

  /** One iteration of the stop loop: the entry is replaced by its stop
      object, or stays as it was when the loop raises. */
  function StopStep(packagesDict: PackagesDict, routeId: string): (string, StopEntry) -> Pass<StopEntry> {
    (stopId: string, e: StopEntry) =>
      match ConvertStop(packagesDict, routeId, stopId, e)
      case Err(err) => Pass(e, Some(err))
      case Ok(v) => Pass(v, None)
  }

  /** `datetime(*date, *hour)` after `[int(x) for x in date.split("-")]` and
      `[int(x) for x in time.split(":")]`: the date is parsed first, then the
      time, and only then are the first three parts of each taken. */
  function DepartureTime(date: string, time: string): Result<DateTime> {
    match ParseInts(Split(date, '-'))
    case Err(err) => Err(err)
    case Ok(d) =>
      match ParseInts(Split(time, ':'))
      case Err(err) => Err(err)
      case Ok(h) =>
        if |d| < 3 || |h| < 3 then Err(IndexOutOfRange)
        else Ok(DateTime(d[0], d[1], d[2], h[0], h[1], h[2]))
  }

  /** What the pass does with the route stored under `routeId`. */
  function ConvertRoute(packagesDict: PackagesDict, routeId: string, e: RouteEntry): Pass<RouteEntry> {
    match e
    case BuiltRoute(_) => Pass(e, None)
    case RawRouteEntry(raw) =>
      var stops := PassEach(StopStep(packagesDict, routeId), raw.stops);
      var updated := RawRouteEntry(raw.(stops := stops.dict));
      if stops.error.Some? then Pass(updated, stops.error)
      else
        var vehicle := Vehicle.Vehicle("random_vehicle", raw.executorCapacityCm3);
        match DepartureTime(raw.date, raw.departureTimeUtc)
        case Err(err) => Pass(updated, Some(err))
        case Ok(t) => Pass(BuiltRoute(RouteArgs(routeId, stops.dict, t, vehicle)), None)
  }

  function RouteStep(packagesDict: PackagesDict): (string, RouteEntry) -> Pass<RouteEntry> {
    (routeId: string, e: RouteEntry) => ConvertRoute(packagesDict, routeId, e)
  }

  /** The whole of `serialize_route`. */
  function RoutesPass(routes: RoutesDict, packagesDict: PackagesDict): Pass<RoutesDict> {
    PassEach(RouteStep(packagesDict), routes)
  }

  /** The body of the stop loop, for the stop stored under `stopId`: the
      type is mapped, the packages looked up and the stop built; a stop
      object is skipped. */
  method SerializeStop(packagesDict: PackagesDict, routeId: string, stopId: string, values: StopEntry)
    returns (result: StopEntry, error: Option<Error>)
    ensures Pass(result, error) == StopStep(packagesDict, routeId)(stopId, values)
  {
    if values.BuiltStop? {
      return values, None;
    }
    var lcType;
    if values.raw.stopType == "Dropoff" {
      lcType := "delivery";
    } else if values.raw.stopType == "Station" {
      lcType := "depot";
    } else {
      return values, Some(InvalidStopType(values.raw.stopType));
    }
    var routePackages := Lookup(packagesDict, routeId);
    if routePackages.Err? {
      return values, Some(routePackages.error);
    }
    var packages := Lookup(routePackages.value, stopId);
    if packages.Err? {
      return values, Some(packages.error);
    }
    var stop := Stop.NewStop(stopId, (values.raw.lat, values.raw.lng), lcType, (0, 0), 0, packages.value);
    assert stop.Ok?;
    result, error := BuiltStop(stop.value), None;
  }

  /** The loop over `routes_dict[route_id]["stops"]`. */
  method SerializeRouteStops(packagesDict: PackagesDict, routeId: string, stops: Dict<StopEntry>)
    returns (out: Dict<StopEntry>, error: Option<Error>)
    ensures Pass(out, error) == PassEach(StopStep(packagesDict, routeId), stops)
  {
    var step := StopStep(packagesDict, routeId);
    out := stops;
    var k := 0;
    while k < |stops|
      invariant 0 <= k <= |stops| && |out| == |stops|
      invariant out[k..] == stops[k..]
      invariant forall j :: 0 <= j < k ==> step(stops[j].key, stops[j].value).error.None?
      invariant forall j :: 0 <= j < k ==> out[j] == Entry(stops[j].key, step(stops[j].key, stops[j].value).dict)
    {
      var stopId := stops[k].key;
      var converted, err := SerializeStop(packagesDict, routeId, stopId, stops[k].value);
      out := out[k := Entry(stopId, converted)];
      if err.Some? {
        PassEachStopsAt(step, stops, k, out);
        return out, err;
      }
      k := k + 1;
    }
    PassEachCompletes(step, stops, out);
    error := None;
  }

  /** The body of the route loop, for the route stored under `routeId`. */
  method SerializeOneRoute(packagesDict: PackagesDict, routeId: string, entry: RouteEntry)
    returns (result: RouteEntry, error: Option<Error>)
    ensures Pass(result, error) == ConvertRoute(packagesDict, routeId, entry)
  {
    if entry.BuiltRoute? {
      return entry, None;
    }
    var stops, err := SerializeRouteStops(packagesDict, routeId, entry.raw.stops);
    var raw := entry.raw.(stops := stops);
    result := RawRouteEntry(raw);
    if err.Some? {
      return result, err;
    }
    var vehicle := Vehicle.Vehicle("random_vehicle", raw.executorCapacityCm3);
    var date := ParseInts(Split(raw.date, '-'));
    if date.Err? {
      return result, Some(date.error);
    }
    var hour := ParseInts(Split(raw.departureTimeUtc, ':'));
    if hour.Err? {
      return result, Some(hour.error);
    }
    if |date.value| < 3 || |hour.value| < 3 {
      return result, Some(IndexOutOfRange);
    }
    var departure := DateTime(date.value[0], date.value[1], date.value[2],
                              hour.value[0], hour.value[1], hour.value[2]);
    result, error := BuiltRoute(RouteArgs(routeId, stops, departure, vehicle)), None;
  }

  /** `serialize_route(routes_dict, packages_dict)`. */
  method SerializeRoute(routes: RoutesDict, packagesDict: PackagesDict) returns (out: RoutesDict, error: Option<Error>)
    ensures Pass(out, error) == RoutesPass(routes, packagesDict)
  {
    var step := RouteStep(packagesDict);
    out := routes;
    var k := 0;
    while k < |routes|
      invariant 0 <= k <= |routes| && |out| == |routes|
      invariant out[k..] == routes[k..]
      invariant forall j :: 0 <= j < k ==> step(routes[j].key, routes[j].value).error.None?
      invariant forall j :: 0 <= j < k ==> out[j] == Entry(routes[j].key, step(routes[j].key, routes[j].value).dict)
    {
      var routeId := routes[k].key;
      var converted, err := SerializeOneRoute(packagesDict, routeId, routes[k].value);
      out := out[k := Entry(routeId, converted)];
      if err.Some? {
        PassEachStopsAt(step, routes, k, out);
        return out, err;
      }
      k := k + 1;
    }
    PassEachCompletes(step, routes, out);
    error := None;
  }

  // ----- properties of the pass -----

  /** A raw stop whose type is known and whose packages exist becomes the
      stop named by its id, at (lat, lng), with the mapped type, an empty
      (0, 0) window, no service time and the packages stored under the route
      and stop ids.  Otherwise the type error comes first, then the missing
      route id, then the missing stop id; a stop object is kept as it is. */
  lemma ConvertStopFields(packagesDict: PackagesDict, routeId: string, stopId: string, e: StopEntry)
    ensures e.BuiltStop? ==> ConvertStop(packagesDict, routeId, stopId, e) == Ok(e)
    ensures e.RawStopEntry? ==>
              (ConvertStop(packagesDict, routeId, stopId, e).Ok? <==>
                 && LocationType(e.raw.stopType).Ok?
                 && routeId in Keys(packagesDict)
                 && stopId in Keys(Lookup(packagesDict, routeId).value))
    ensures e.RawStopEntry? && LocationType(e.raw.stopType).Err? ==>
              ConvertStop(packagesDict, routeId, stopId, e) == Err(InvalidStopType(e.raw.stopType))
    ensures e.RawStopEntry? && LocationType(e.raw.stopType).Ok? && routeId !in Keys(packagesDict) ==>
              ConvertStop(packagesDict, routeId, stopId, e) == Err(MissingKey(routeId))
    ensures e.RawStopEntry? && LocationType(e.raw.stopType).Ok? && routeId in Keys(packagesDict)
            && stopId !in Keys(Lookup(packagesDict, routeId).value) ==>
              ConvertStop(packagesDict, routeId, stopId, e) == Err(MissingKey(stopId))
    ensures e.RawStopEntry? && ConvertStop(packagesDict, routeId, stopId, e).Ok? ==>
              var c := ConvertStop(packagesDict, routeId, stopId, e).value;
              && c.BuiltStop?
              && c.stop.name == stopId
              && c.stop.location == (e.raw.lat, e.raw.lng)
              && c.stop.locationType == LocationType(e.raw.stopType).value
              && c.stop.timeWindow == (0, 0) && c.stop.plannedServiceTime == 0 && c.stop.deliveryTime == 0
              && c.stop.packages == Lookup(Lookup(packagesDict, routeId).value, stopId).value
  {
    if e.RawStopEntry? {
      LocationTypeMapping(e.raw.stopType);
    }
  }

  /** The stop the serializer builds never trips the stop constructor's
      checks: its window is (0, 0) and its mapped type is accepted. */
  lemma BuiltStopPassesStopChecks(stopId: string, location: (real, real), stopType: string, packages: StopPackages)
    requires LocationType(stopType).Ok?
    ensures Stop.NewStop(stopId, location, LocationType(stopType).value, (0, 0), 0, packages).Ok?
  {
    LocationTypeMapping(stopType);
  }

  /** So a stop conversion fails only for an unknown type or missing
      packages. */
  lemma ConvertStopErrors(packagesDict: PackagesDict, routeId: string, stopId: string, e: StopEntry)
    requires ConvertStop(packagesDict, routeId, stopId, e).Err?
    ensures e.RawStopEntry?
    ensures ConvertStop(packagesDict, routeId, stopId, e).error in
              {InvalidStopType(e.raw.stopType), MissingKey(routeId), MissingKey(stopId)}
  {
    ConvertStopFields(packagesDict, routeId, stopId, e);
  }

  /** The stop loop keeps the stop ids and their order.  It raises exactly
      when some stop cannot be converted, with the first such stop's error,
      leaving that stop and all later ones as they were; otherwise every
      stop is replaced by its conversion. */
  lemma StopsPassSpec(packagesDict: PackagesDict, routeId: string, stops: Dict<StopEntry>)
    ensures SameKeys(PassEach(StopStep(packagesDict, routeId), stops).dict, stops)
    ensures PassEach(StopStep(packagesDict, routeId), stops).error.None? <==>
            forall k :: 0 <= k < |stops| ==> ConvertStop(packagesDict, routeId, stops[k].key, stops[k].value).Ok?
    ensures forall k :: 0 <= k < FirstFailure(StopStep(packagesDict, routeId), stops) ==>
              PassEach(StopStep(packagesDict, routeId), stops).dict[k]
              == Entry(stops[k].key, ConvertStop(packagesDict, routeId, stops[k].key, stops[k].value).value)
    ensures forall k :: FirstFailure(StopStep(packagesDict, routeId), stops) <= k < |stops| ==>
              PassEach(StopStep(packagesDict, routeId), stops).dict[k] == stops[k]
    ensures FirstFailure(StopStep(packagesDict, routeId), stops) < |stops| ==>
              var n := FirstFailure(StopStep(packagesDict, routeId), stops);
              PassEach(StopStep(packagesDict, routeId), stops).error
              == Some(ConvertStop(packagesDict, routeId, stops[n].key, stops[n].value).error)
  {
    var step := StopStep(packagesDict, routeId);
    PassEachSpec(step, stops);
    var n := FirstFailure(step, stops);
    assert forall k :: 0 <= k < n ==> ConvertStop(packagesDict, routeId, stops[k].key, stops[k].value).Ok?;
    if n < |stops| {
      assert ConvertStop(packagesDict, routeId, stops[n].key, stops[n].value).Err?;
      PassEachFails(step, stops);
    }
  }

  /** A stop object is a fixed point of the stop step, and so is a raw stop
      the step rejects. */
  lemma StopStepIdempotent(packagesDict: PackagesDict, routeId: string)
    ensures forall stopId, e :: StopStep(packagesDict, routeId)(stopId, StopStep(packagesDict, routeId)(stopId, e).dict)
                                == StopStep(packagesDict, routeId)(stopId, e)
  {
  }

  /** A route object is kept as it is.  A raw route first has its stops
      converted; if that raises, the route stays raw, holding the stops as
      the loop left them.  Otherwise it becomes the route named by its id,
      with the converted stops, the parsed departure time and the vehicle
      "random_vehicle" of the route's executor capacity, unless the date or
      time does not parse.  The stop ids are kept in every case. */
  lemma ConvertRouteFields(packagesDict: PackagesDict, routeId: string, e: RouteEntry)
    ensures e.BuiltRoute? ==> ConvertRoute(packagesDict, routeId, e) == Pass(e, None)
    ensures SameKeys(ConvertRoute(packagesDict, routeId, e).dict.Stops(), e.Stops())
    ensures e.RawRouteEntry? ==>
              var stops := PassEach(StopStep(packagesDict, routeId), e.raw.stops);
              var r := ConvertRoute(packagesDict, routeId, e);
              && (r.error.None? <==> stops.error.None? && DepartureTime(e.raw.date, e.raw.departureTimeUtc).Ok?)
              && (stops.error.Some? ==> r.error == stops.error)
              && (stops.error.None? && DepartureTime(e.raw.date, e.raw.departureTimeUtc).Err? ==>
                    r.error == Some(DepartureTime(e.raw.date, e.raw.departureTimeUtc).error))
              && (r.error.Some? ==> r.dict == RawRouteEntry(e.raw.(stops := stops.dict)))
    ensures e.RawRouteEntry? && ConvertRoute(packagesDict, routeId, e).error.None? ==>
              var r := ConvertRoute(packagesDict, routeId, e).dict;
              && r.BuiltRoute?
              && r.route.name == routeId
              && r.route.vehicle.name == "random_vehicle"
              && r.route.vehicle.capacity == e.raw.executorCapacityCm3
              && r.route.departureTime == DepartureTime(e.raw.date, e.raw.departureTimeUtc).value
              && |r.route.stops| == |e.raw.stops|
              && forall k :: 0 <= k < |e.raw.stops| ==>
                   ConvertStop(packagesDict, routeId, e.raw.stops[k].key, e.raw.stops[k].value).Ok? &&
                   r.route.stops[k] == Entry(e.raw.stops[k].key,
                                             ConvertStop(packagesDict, routeId, e.raw.stops[k].key, e.raw.stops[k].value).value)
  {
    if e.RawRouteEntry? {
      StopsPassSpec(packagesDict, routeId, e.raw.stops);
    }
  }

  /** A route object is a fixed point of the route step, and so is a route
      the step leaves raw, because its stop loop is idempotent too. */
  lemma ConvertRouteIdempotent(packagesDict: PackagesDict, routeId: string, e: RouteEntry)
    ensures ConvertRoute(packagesDict, routeId, ConvertRoute(packagesDict, routeId, e).dict)
            == ConvertRoute(packagesDict, routeId, e)
  {
    if e.RawRouteEntry? {
      StopStepIdempotent(packagesDict, routeId);
      PassEachIdempotent(StopStep(packagesDict, routeId), e.raw.stops);
    }
  }

  /** The pass keeps the route ids and their order, and every route keeps
      its stop ids.  It raises exactly when some route cannot be converted,
      with the first such route's error; when it does not raise, every entry
      holds its route's conversion, a route object. */
  lemma RoutesPassSpec(routes: RoutesDict, packagesDict: PackagesDict)
    ensures SameKeys(RoutesPass(routes, packagesDict).dict, routes)
    ensures forall i :: 0 <= i < |routes| ==>
              SameKeys(RoutesPass(routes, packagesDict).dict[i].value.Stops(), routes[i].value.Stops())
    ensures RoutesPass(routes, packagesDict).error.None? <==>
            forall i :: 0 <= i < |routes| ==> ConvertRoute(packagesDict, routes[i].key, routes[i].value).error.None?
    ensures RoutesPass(routes, packagesDict).error.Some? ==>
              var n := FirstFailure(RouteStep(packagesDict), routes);
              n < |routes| && RoutesPass(routes, packagesDict).error
                              == ConvertRoute(packagesDict, routes[n].key, routes[n].value).error
    ensures RoutesPass(routes, packagesDict).error.None? ==>
              forall i :: 0 <= i < |routes| ==>
                RoutesPass(routes, packagesDict).dict[i].value
                == ConvertRoute(packagesDict, routes[i].key, routes[i].value).dict
                && RoutesPass(routes, packagesDict).dict[i].value.BuiltRoute?
  {
    var step := RouteStep(packagesDict);
    PassEachSpec(step, routes);
    forall i | 0 <= i < |routes| {
      ConvertRouteFields(packagesDict, routes[i].key, routes[i].value);
    }
  }

  /** Converted routes and stops are skipped, so running the pass again on
      what it left behind does nothing more, whether or not it raised. */
  lemma RoutesPassIdempotent(routes: RoutesDict, packagesDict: PackagesDict)
    ensures RoutesPass(RoutesPass(routes, packagesDict).dict, packagesDict) == RoutesPass(routes, packagesDict)
  {
    forall routeId, e
      ensures RouteStep(packagesDict)(routeId, RouteStep(packagesDict)(routeId, e).dict)
              == RouteStep(packagesDict)(routeId, e)
    {
      ConvertRouteIdempotent(packagesDict, routeId, e);
    }
    PassEachIdempotent(RouteStep(packagesDict), routes);
  }

  /** Python `int` parses the digits `str` prints, so a date and time
      written as Y-M-D and h:m:s give the departure time with those fields,
      in that order. */
  lemma DepartureTimeRoundTrip(year: nat, month: nat, day: nat, hour: nat, minute: nat, second: nat)
    ensures DepartureTime(ShowNat(year) + "-" + ShowNat(month) + "-" + ShowNat(day),
                          ShowNat(hour) + ":" + ShowNat(minute) + ":" + ShowNat(second))
            == Ok(DateTime(year, month, day, hour, minute, second))
  {
    ParseShowNat(year);
    ParseShowNat(month);
    ParseShowNat(day);
    ParseShowNat(hour);
    ParseShowNat(minute);
    ParseShowNat(second);
    ThreeParts(ShowNat(year), ShowNat(month), ShowNat(day), '-');
    ThreeParts(ShowNat(hour), ShowNat(minute), ShowNat(second), ':');
    DepartureTimeOfParts(ShowNat(year) + "-" + ShowNat(month) + "-" + ShowNat(day),
                         ShowNat(hour) + ":" + ShowNat(minute) + ":" + ShowNat(second),
                         [year, month, day], [hour, minute, second]);
  }

  /** Once both strings parse, the departure time takes the first three
      numbers of each. */
  lemma DepartureTimeOfParts(date: string, time: string, d: seq<int>, h: seq<int>)
    requires ParseInts(Split(date, '-')) == Ok(d) && ParseInts(Split(time, ':')) == Ok(h)
    requires |d| >= 3 && |h| >= 3
    ensures DepartureTime(date, time) == Ok(DateTime(d[0], d[1], d[2], h[0], h[1], h[2]))
  {
  }

  /** Splitting three decimal numbers joined by a separator that is not a
      digit gives back the three numbers. */
  lemma ThreeParts(a: string, b: string, c: string, sep: char)
    requires AllDigits(a) && AllDigits(b) && AllDigits(c) && !IsDigit(sep)
    ensures ParseInts(Split(a + [sep] + b + [sep] + c, sep)) == Ok([ParseInt(a).value, ParseInt(b).value, ParseInt(c).value])
  {
    var parts := [a, b, c];
    JoinThree(a, b, c, sep);
    assert sep !in a && sep !in b && sep !in c;
    SplitJoin(parts, sep);
    ParseIntsThree(a, b, c);
  }

  lemma JoinThree(a: string, b: string, c: string, sep: char)
    ensures Join([a, b, c], sep) == a + [sep] + b + [sep] + c
  {
    assert [a, b, c][1..] == [b, c] && [b, c][1..] == [c];
    assert Join([c], sep) == c;
    assert Join([b, c], sep) == b + [sep] + c;
    assert Join([a, b, c], sep) == a + [sep] + (b + [sep] + c);
  }

  lemma ParseIntsThree(a: string, b: string, c: string)
    requires ParseInt(a).Ok? && ParseInt(b).Ok? && ParseInt(c).Ok?
    ensures ParseInts([a, b, c]) == Ok([ParseInt(a).value, ParseInt(b).value, ParseInt(c).value])
  {
    var va, vb, vc := ParseInt(a).value, ParseInt(b).value, ParseInt(c).value;
    assert ParseInts([]) == Ok([]);
    ParseIntsCons(c, []);
    assert [c] + [] == [c] && [vc] + [] == [vc];
    assert ParseInts([c]) == Ok([vc]);
    ParseIntsCons(b, [c]);
    assert [b] + [c] == [b, c] && [vb] + [vc] == [vb, vc];
    assert ParseInts([b, c]) == Ok([vb, vc]);
    ParseIntsCons(a, [b, c]);
    assert [a] + [b, c] == [a, b, c] && [va] + [vb, vc] == [va, vb, vc];
  }

  /** The departure time fails exactly when a date or time piece is not an
      integer, or when either has fewer than two separators; a parse error
      in the date is reported before one in the time. */
  lemma DepartureTimeErrors(date: string, time: string)
    ensures DepartureTime(date, time).Err? <==>
              ParseInts(Split(date, '-')).Err? || ParseInts(Split(time, ':')).Err?
              || Count(date, '-') < 2 || Count(time, ':') < 2
    ensures ParseInts(Split(date, '-')).Err? ==> DepartureTime(date, time) == Err(ParseInts(Split(date, '-')).error)
    ensures (ParseInts(Split(date, '-')).Ok? && ParseInts(Split(time, ':')).Ok? &&
             (Count(date, '-') < 2 || Count(time, ':') < 2)) ==> DepartureTime(date, time) == Err(IndexOutOfRange)
    ensures DepartureTime(date, time).Err? ==> DepartureTime(date, time).error.Class() in {ValueError, IndexError}
  {
    SplitCount(date, '-');
    SplitCount(time, ':');
    ParseIntsSpec(Split(date, '-'));
    ParseIntsSpec(Split(time, ':'));
    var d := ParseInts(Split(date, '-'));
    var h := ParseInts(Split(time, ':'));
    if d.Err? {
      var i :| 0 <= i < |Split(date, '-')| && ParseInt(Split(date, '-')[i]).Err? && d.error == ParseInt(Split(date, '-')[i]).error;
    } else if h.Err? {
      var i :| 0 <= i < |Split(time, ':')| && ParseInt(Split(time, ':')[i]).Err? && h.error == ParseInt(Split(time, ':')[i]).error;
    }
  }

  /** The test data's date and departure time. */
  lemma DepartureTimeExample()
    ensures DepartureTime("2018-07-27", "16:02:10") == Ok(DateTime(2018, 7, 27, 16, 2, 10))
  {
    DateExample();
    TimeExample();
    DepartureTimeOfParts("2018-07-27", "16:02:10", [2018, 7, 27], [16, 2, 10]);
  }

  lemma DateExample()
    ensures ParseInts(Split("2018-07-27", '-')) == Ok([2018, 7, 27])
  {
    DateSplit();
    DateParse();
  }

  lemma DateSplit()
    ensures Split("2018-07-27", '-') == ["2018", "07", "27"]
  {
    JoinThree("2018", "07", "27", '-');
    assert "2018" + ['-'] + "07" + ['-'] + "27" == "2018-07-27";
    SplitJoin(["2018", "07", "27"], '-');
  }

  lemma DateParse()
    ensures ParseInts(["2018", "07", "27"]) == Ok([2018, 7, 27])
  {
    assert "2018"[..3] == "201" && "201"[..2] == "20" && "20"[..1] == "2";
    assert DigitsValue("20") == 20;
    assert DigitsValue("201") == 201;
    assert ParseInt("2018") == Ok(2018);
    TwoDigits("07");
    TwoDigits("27");
    ParseIntsThree("2018", "07", "27");
  }

  lemma TimeExample()
    ensures ParseInts(Split("16:02:10", ':')) == Ok([16, 2, 10])
  {
    assert "16" + [':'] + "02" + [':'] + "10" == "16:02:10";
    TwoDigits("16");
    TwoDigits("02");
    TwoDigits("10");
    ThreeParts("16", "02", "10", ':');
  }
}
