/** Distance dispatch and the driving-distance providers of lmr_analyzer/utils.py.

    What the providers compute elsewhere is a parameter: the haversine
    formula, the HTTP answers of the OSM routing service and of the Google
    directions API, and the shortest-path length of the OSMnx street graph.
    The model keeps what utils.py itself decides: which provider a mode
    selects and with which arguments, the checks on the answers, the
    conversion of metres to kilometres and of seconds to minutes, and the
    bounding box handed to the street-graph download. */
module Utils {
  import opened Errors
  import Enums

  /** A location as a caller passes it: a tuple, or another two-element
      sequence such as a list.  Only the street-graph provider cares. */
  datatype Point = TuplePoint(first: real, second: real) | ListPoint(first: real, second: real)

  /** An HTTP session of the `requests` library; `None` makes the OSM
      provider open a fresh one. */
  datatype Session = Session(id: nat)

  // ----- OSM routing service -----

  /** The coordinates of a routing request, in the order they appear in the
      URL `.../route/v1/driving/{lon1},{lat1};{lon2},{lat2}`. */
  datatype OsmQuery = OsmQuery(lon1: real, lat1: real, lon2: real, lat2: real)

  datatype OsmRoute = OsmRoute(distance: real, duration: real)      // metres, seconds
  datatype OsmResponse = OsmResponse(code: string, routes: seq<OsmRoute>)

  /** `__request_data_from_osm`: an answer whose code is not "Ok" raises. */
  function RequestDataFromOsm(res: OsmResponse): (r: Result<OsmResponse>)
    ensures r.Ok? <==> res.code == "Ok"
    ensures r.Ok? ==> r.value == res
    ensures r.Err? ==> r.error == OsmCode(res.code) && r.error.Class() == RuntimeError
  {
    if res.code != "Ok" then Err(OsmCode(res.code)) else Ok(res)
  }

  /** `drive_distance_osm`: the first route's length in km and duration in
      minutes.  It unpacks each location as (lon, lat), so the first
      coordinate of a location goes in the longitude slot of the URL. */
  function DriveDistanceOsm(origin: Point, destination: Point, session: Option<Session>,
                            fetch: (Option<Session>, OsmQuery) -> OsmResponse): (r: Result<(real, real)>)
    ensures var res := fetch(session, OsmQuery(origin.first, origin.second, destination.first, destination.second));
            && (res.code != "Ok" ==> r == Err(OsmCode(res.code)))
            && (res.code == "Ok" && res.routes == [] ==> r == Err(IndexOutOfRange))
            && (res.code == "Ok" && res.routes != [] ==>
                  r.Ok? && r.value.0 * 1000.0 == res.routes[0].distance
                        && r.value.1 * 60.0 == res.routes[0].duration)
  {
    var res := fetch(session, OsmQuery(origin.first, origin.second, destination.first, destination.second));
    match RequestDataFromOsm(res)
    case Err(e) => Err(e)
    case Ok(res) =>
      if |res.routes| == 0 then Err(IndexOutOfRange)
      else
        var durationMin := res.routes[0].duration / 60.0;
        var distanceKm := res.routes[0].distance / 1000.0;
        Ok((distanceKm, durationMin))
  }

  /** The mocked answer of the tests: 100000 m and 3600 s give 100 km and
      60 minutes; an answer coded "NoRoute" raises RuntimeError. */
  lemma OsmConversionExample(origin: Point, destination: Point, fetch: (Option<Session>, OsmQuery) -> OsmResponse)
    ensures fetch(None, OsmQuery(origin.first, origin.second, destination.first, destination.second))
              == OsmResponse("Ok", [OsmRoute(100000.0, 3600.0)])
            ==> DriveDistanceOsm(origin, destination, None, fetch) == Ok((100.0, 60.0))
    ensures fetch(None, OsmQuery(origin.first, origin.second, destination.first, destination.second))
              == OsmResponse("NoRoute", [])
            ==> DriveDistanceOsm(origin, destination, None, fetch).Err?
                && DriveDistanceOsm(origin, destination, None, fetch).error.Class() == RuntimeError
  {
  }

  // ----- Google directions API -----

  datatype GmapsQuery = GmapsQuery(origin: (real, real), destination: (real, real), key: string)
  datatype GmapsLeg = GmapsLeg(distance: real, duration: real)      // metres, seconds
  datatype GmapsRoute = GmapsRoute(legs: seq<GmapsLeg>)
  datatype GmapsBody = GmapsBody(status: string, routes: seq<GmapsRoute>)
  datatype GmapsResponse = GmapsResponse(statusCode: int, body: GmapsBody)

  /** `__request_data_from_gmaps`: the HTTP status is checked before the
      API status. */
  function RequestDataFromGmaps(response: GmapsResponse): (r: Result<GmapsBody>)
    ensures r.Ok? <==> response.statusCode == 200 && response.body.status == "OK"
    ensures response.statusCode != 200 ==> r == Err(GmapsHttpStatus(response.statusCode))
    ensures response.statusCode == 200 && response.body.status != "OK"
            ==> r == Err(GmapsStatus(response.body.status))
    ensures r.Ok? ==> r.value == response.body
    ensures r.Err? ==> r.error.Class() == RuntimeError
  {
    if response.statusCode != 200 then Err(GmapsHttpStatus(response.statusCode))
    else if response.body.status != "OK" then Err(GmapsStatus(response.body.status))
    else Ok(response.body)
  }

  /** `drive_distance_gmaps`: the first leg of the first route, in km and
      minutes. */
  function DriveDistanceGmaps(origin: Point, destination: Point, key: string,
                              fetch: GmapsQuery -> GmapsResponse): (r: Result<(real, real)>)
    ensures var response := fetch(GmapsQuery((origin.first, origin.second), (destination.first, destination.second), key));
            && (RequestDataFromGmaps(response).Err? ==> r == Err(RequestDataFromGmaps(response).error))
            && (RequestDataFromGmaps(response).Ok? ==>
                  var body := response.body;
                  if body.routes == [] || body.routes[0].legs == [] then r == Err(IndexOutOfRange)
                  else r.Ok? && r.value.0 * 1000.0 == body.routes[0].legs[0].distance
                             && r.value.1 * 60.0 == body.routes[0].legs[0].duration)
  {
    var response := fetch(GmapsQuery((origin.first, origin.second), (destination.first, destination.second), key));
    match RequestDataFromGmaps(response)
    case Err(e) => Err(e)
    case Ok(data) =>
      if |data.routes| == 0 || |data.routes[0].legs| == 0 then Err(IndexOutOfRange)
      else
        var distanceKm := data.routes[0].legs[0].distance / 1000.0;
        var durationMin := data.routes[0].legs[0].duration / 60.0;
        Ok((distanceKm, durationMin))
  }

  // ----- OSMnx street graph -----

  /** The area whose drivable street graph is downloaded. */
  datatype Box = Box(north: real, south: real, east: real, west: real)

  const MinSpan: real := 0.01
  const Pad: real := 0.005

  function Abs(x: real): real { if x < 0.0 then -x else x }
  function Max(a: real, b: real): real { if a >= b then a else b }
  function Min(a: real, b: real): real { if a <= b then a else b }

  /** The box of `drive_distance_osmnx`: the rectangle spanned by the two
      points, with a side shorter than 0.01 degrees widened by 0.005 on each
      end. */
  function PaddedBox(origin: Point, destination: Point): (b: Box)
    ensures b.north >= origin.first && b.north >= destination.first
    ensures b.south <= origin.first && b.south <= destination.first
    ensures b.east >= origin.second && b.east >= destination.second
    ensures b.west <= origin.second && b.west <= destination.second
    ensures b.north - b.south >= MinSpan && b.east - b.west >= MinSpan
    // a side that is already wide enough is the tight one
    ensures Abs(origin.first - destination.first) >= MinSpan
            ==> b.north == Max(origin.first, destination.first) && b.south == Min(origin.first, destination.first)
    ensures Abs(origin.second - destination.second) >= MinSpan
            ==> b.east == Max(origin.second, destination.second) && b.west == Min(origin.second, destination.second)
    // a narrow side grows by exactly one pad on each end
    ensures Abs(origin.first - destination.first) < MinSpan
            ==> b.north == Max(origin.first, destination.first) + Pad && b.south == Min(origin.first, destination.first) - Pad
    ensures Abs(origin.second - destination.second) < MinSpan
            ==> b.east == Max(origin.second, destination.second) + Pad && b.west == Min(origin.second, destination.second) - Pad
  {
    var north := Max(origin.first, destination.first);
    var south := Min(origin.first, destination.first);
    var east := Max(origin.second, destination.second);
    var west := Min(origin.second, destination.second);
    var (north, south) := if Abs(north - south) < MinSpan then (north + Pad, south - Pad) else (north, south);
    var (east, west) := if Abs(east - west) < MinSpan then (east + Pad, west - Pad) else (east, west);
    Box(north, south, east, west)
  }

  /** The length, in metres, of the shortest drivable path between the graph
      nodes nearest to the two points, or why there is none. */
  datatype PathResult = PathLength(metres: real) | NoPath(reason: string)

  /** `drive_distance_osmnx`: both points must be tuples, checked before any
      graph work; the path length is returned in km. */
  function DriveDistanceOsmnx(origin: Point, destination: Point,
                              shortestPath: (Box, Point, Point) -> PathResult): (r: Result<real>)
    ensures !origin.TuplePoint? || !destination.TuplePoint? ==> r == Err(NotTuple)
    ensures origin.TuplePoint? && destination.TuplePoint? ==>
              match shortestPath(PaddedBox(origin, destination), origin, destination)
              case PathLength(m) => r.Ok? && r.value * 1000.0 == m
              case NoPath(reason) => r == Err(GraphFailure(reason))
  {
    if !origin.TuplePoint? || !destination.TuplePoint? then Err(NotTuple)
    else match shortestPath(PaddedBox(origin, destination), origin, destination)
      case PathLength(m) => Ok(m / 1000.0)
      case NoPath(reason) => Err(GraphFailure(reason))
  }

  // ----- dispatcher -----

  /** Everything the providers compute outside this file. */
  datatype Providers = Providers(
    haversine: (real, real, real, real) -> real,
    osmFetch: (Option<Session>, OsmQuery) -> OsmResponse,
    shortestPath: (Box, Point, Point) -> PathResult,
    gmapsFetch: GmapsQuery -> GmapsResponse)

  /** `get_distance`: (distance in km, duration in minutes) by the provider
      the mode names.  The accepted modes are exactly the DistanceMode
      values; haversine and osmnx report a duration of 0; osm gets the
      caller's session and gmaps an empty API key. */
  function GetDistance(p: Providers, location1: Point, location2: Point,
                       mode: string := "haversine", session: Option<Session> := None): (r: Result<(real, real)>)
    ensures r == Err(InvalidMode(mode)) <==> mode !in Enums.DistanceModeMembers()
    ensures mode == "haversine"
            ==> r == Ok((p.haversine(location1.first, location1.second, location2.first, location2.second), 0.0))
    ensures mode == "osm" ==> r == DriveDistanceOsm(location1, location2, session, p.osmFetch)
    ensures mode == "osmnx" ==>
              match DriveDistanceOsmnx(location1, location2, p.shortestPath)
              case Ok(d) => r == Ok((d, 0.0))
              case Err(e) => r == Err(e)
    ensures mode == "gmaps" ==> r == DriveDistanceGmaps(location1, location2, "", p.gmapsFetch)
  {
    Enums.DistanceModeMembersAre();
    match mode
    case "haversine" =>
      Ok((p.haversine(location1.first, location1.second, location2.first, location2.second), 0.0))
    case "osm" => DriveDistanceOsm(location1, location2, session, p.osmFetch)
    case "osmnx" =>
      (match DriveDistanceOsmnx(location1, location2, p.shortestPath)
       case Ok(d) => Ok((d, 0.0))
       case Err(e) => Err(e))
    case "gmaps" => DriveDistanceGmaps(location1, location2, "", p.gmapsFetch)
    case _ => Err(InvalidMode(mode))
  }

  /** Whatever a provider answers, the haversine and osmnx modes never
      report a duration other than 0. */
  lemma ZeroDurationModes(p: Providers, location1: Point, location2: Point, session: Option<Session>)
    ensures GetDistance(p, location1, location2, "haversine", session).Ok?
    ensures GetDistance(p, location1, location2, "haversine", session).value.1 == 0.0
    ensures GetDistance(p, location1, location2, "osmnx", session).Ok?
            ==> GetDistance(p, location1, location2, "osmnx", session).value.1 == 0.0
  {
  }

  /** In "osm" mode a (lat, lon) location reaches the routing service with
      its latitude in the longitude slot: the coordinates are passed on
      unswapped. */
  lemma OsmModePassesLocationsUnswapped(p: Providers, location1: Point, location2: Point, session: Option<Session>)
    ensures var res := p.osmFetch(session, OsmQuery(location1.first, location1.second, location2.first, location2.second));
            res.code == "Ok" && |res.routes| > 0 ==>
              GetDistance(p, location1, location2, "osm", session)
              == Ok((res.routes[0].distance / 1000.0, res.routes[0].duration / 60.0))
  {
  }

  /** With the documented (lat, lon) locations of New York and Newark, the
      "osm" mode asks the routing service for the route from longitude 40.7,
      latitude -74.0: the latitude is sent as longitude. */
  lemma OsmLatLonCounterexample(p: Providers)
    ensures var ny, newark := TuplePoint(40.7, -74.0), TuplePoint(40.7, -74.2);
            var res := p.osmFetch(None, OsmQuery(40.7, -74.0, 40.7, -74.2));
            res.code == "Ok" && |res.routes| > 0 ==>
              GetDistance(p, ny, newark, "osm") == Ok((res.routes[0].distance / 1000.0, res.routes[0].duration / 60.0))
  {
    OsmModePassesLocationsUnswapped(p, TuplePoint(40.7, -74.0), TuplePoint(40.7, -74.2), None);
  }

  /** A location with its two coordinates exchanged. */
  function Swap(l: Point): (r: Point)
    ensures r.first == l.second && r.second == l.first
  {
    match l
    case TuplePoint(a, b) => TuplePoint(b, a)
    case ListPoint(a, b) => ListPoint(b, a)
  }

  /** `get_distance` with the (lat, lon) locations its signature documents
      turned into the (lon, lat) order `drive_distance_osm` reads; every
      other mode is unchanged. */
  function GetDistanceLatLon(p: Providers, location1: Point, location2: Point,
                             mode: string := "haversine", session: Option<Session> := None): Result<(real, real)>
  {
    if mode == "osm" then DriveDistanceOsm(Swap(location1), Swap(location2), session, p.osmFetch)
    else GetDistance(p, location1, location2, mode, session)
  }

  /** The corrected dispatch puts each location's longitude (its second
      coordinate) in the longitude slot of the routing request, and agrees
      with `get_distance` on every other mode. */
  lemma CorrectedOsmCoordinateOrder(p: Providers, location1: Point, location2: Point, mode: string, session: Option<Session>)
    ensures mode != "osm" ==> GetDistanceLatLon(p, location1, location2, mode, session) == GetDistance(p, location1, location2, mode, session)
    ensures var res := p.osmFetch(session, OsmQuery(location1.second, location1.first, location2.second, location2.first));
            && (res.code != "Ok" ==> GetDistanceLatLon(p, location1, location2, "osm", session) == Err(OsmCode(res.code)))
            && (res.code == "Ok" && res.routes == [] ==> GetDistanceLatLon(p, location1, location2, "osm", session) == Err(IndexOutOfRange))
            && (res.code == "Ok" && res.routes != [] ==>
                  GetDistanceLatLon(p, location1, location2, "osm", session)
                  == Ok((res.routes[0].distance / 1000.0, res.routes[0].duration / 60.0)))
  {
    var o, d := Swap(location1), Swap(location2);
    assert OsmQuery(o.first, o.second, d.first, d.second) == OsmQuery(location1.second, location1.first, location2.second, location2.first);
  }
}
