# Last-Mile Routing Analyzer: ingestion, validation and distance bookkeeping

This project is a Dafny model of the sequential core of the Last-Mile Routing
Analyzer. It proves properties of each part.

**The Amazon record serializer.** This is three in-place passes over nested
JSON dictionaries:

- packages: route id → stop id → package id → record;
- routes: route id → record whose `stops` map stop id → record;
- actual sequences: route id → inner maps of stop id → position.

The passes do three things:

- they map scan statuses and stop types to the analyzer's vocabularies, and raise on unknown values;
- they build package, stop, vehicle and route records from the raw fields;
- they turn the visit-position maps into stop-name lists ordered by position.

Every pass skips entries that are already converted.

**The entity constructors.** These are stop (time window and location type are checked), the two package classes, route, vehicle, bounding box and the three enumerations.

**Distance dispatch in `lmr_analyzer/utils.py`.** This covers:

- the choice of provider;
- the checks on the providers' answers;
- the conversion from metres to kilometres and from seconds to minutes;
- the padded bounding box handed to the street-graph download.

**The distance-table script `docs/misc/fetch_osm_dd.py`.** It fills a CSV
table in place with the driving distance from each stop to the next stop of
its route, closing each route's cycle back to the route's first stop.

## Model structure

The model has one module per source file. The serializer is split into
`AmzPackages`, `AmzRoutes` and `AmzSequences`, one module per pass. Three
modules are shared:

- `Dicts`: a Python dict is a sequence of entries in insertion order. The generic `PassEach` models a loop that overwrites every entry and may raise part-way.
- `Text`: `str.split` and `int`.
- `Errors`: the exception causes, each with its Python exception class.

Where the source updates state in place, so does the model:

- Each serializer loop is a `method` with a `while` loop. It is proved equal to a specification function of the same loop level, and the lemmas are stated about those functions.
- `calculate_distance_duration` is a method over an `array` of rows. It is proved equal to the tail-recursive function `Fill`.
- The package of `source/package.py` is a `class` whose `ModifyStatus` changes only the status.

Calls into code that is not part of this model are parameters, and when the
source can fail on them, their results can fail too:

- haversine;
- the HTTP answers of the routing and directions services;
- the OSMnx shortest path;
- `calculate_volume`;
- Python's `float()` on text and `round`;
- `str(float)` in the vehicle repr.

Where the code and its documentation disagree, the model follows the code:

- The serializer calls `route_class(name=, stops=, departure_time=, vehicle=)` and `vehicle_class(name=, capacity=)`. Neither matches its module: `lmr_analyzer/route.py` takes other arguments, and `from .vehicle import vehicle` names a class that `lmr_analyzer/vehicle.py` does not define (it defines `Vehicle`), so the serializer as written does not even import. The serializer's route and vehicle records therefore hold exactly the arguments passed.
- `package_class` is the package of `lmr_analyzer/package.py`. Its constructor calls `calculate_volume`, which that file does not define; the model makes it the fallible parameter `calculateVolume`, and a failure raises out of the package pass.
- Stops are built by the validating constructor of `lmr_analyzer/stop.py`, with the mapped location type. That constructor never rejects them.
- The docstring of `modify_status` lists allowed statuses, and a test expects a ValueError. The code checks nothing, and neither does `ModifyStatus`.
- The documentation of `fetch_osm_dd.py` calls the distance "meters". The code divides by 1000, giving kilometres.
- The docstring of `get_distance` says the duration is None for the haversine and osmnx modes. The code returns 0, and so does `GetDistance` (`ZeroDurationModes`).
- `get_distance` annotates `mode: DistanceMode` (lmr_analyzer/utils.py:168), but its `match` compares the mode with string literals. `DistanceMode` is a plain `Enum`, so a member such as `DistanceMode.OSM` matches no case and raises ValueError. `Utils.GetDistance` therefore takes the mode as a string, as every call in tests/test_utils.py passes it.

## Model

| member | source | states |
|---|---|---|
| Enums.GetMembers | lmr_analyzer/enums.py:6-8 | the values of the members, one per member, in member order |
| Enums.ParseDistanceMode | lmr_analyzer/enums.py:11-15 | a string names a DistanceMode exactly when it is one of the member values, and the member found has that value |
| Enums.DistanceModeMembersAre | lmr_analyzer/enums.py:11-15 | get_members of DistanceMode is exactly haversine, osm, osmnx, gmaps, in that order |
| Enums.DistanceModeListed | lmr_analyzer/enums.py:11-15 | every DistanceMode member appears in the member list |
| Enums.DistanceModeMembersDistinct | lmr_analyzer/enums.py:11-15 | no two DistanceMode members share a value |
| Enums.DistanceModeParseValue | lmr_analyzer/enums.py:11-15 | each DistanceMode member's value parses back to that member |
| Enums.ParseLocationType | lmr_analyzer/enums.py:18-21 | a string names a LocationType exactly when it is a member value, and the member found has that value |
| Enums.LocationTypeMembersAre | lmr_analyzer/enums.py:18-21 | get_members of LocationType is exactly depot, pickup, delivery |
| Enums.LocationTypeListed | lmr_analyzer/enums.py:18-21 | every LocationType member appears in the member list |
| Enums.LocationTypeMembersDistinct | lmr_analyzer/enums.py:18-21 | no two LocationType members share a value |
| Enums.LocationTypeParseValue | lmr_analyzer/enums.py:18-21 | each LocationType member's value parses back to that member |
| Enums.ParsePackageStatus | lmr_analyzer/enums.py:24-28 | a string names a PackageStatus exactly when it is a member value, and the member found has that value |
| Enums.PackageStatusMembersAre | lmr_analyzer/enums.py:24-28 | get_members of PackageStatus is exactly to-be-delivered, rejected, attempted, delivered |
| Enums.PackageStatusListed | lmr_analyzer/enums.py:24-28 | every PackageStatus member appears in the member list |
| Enums.PackageStatusMembersDistinct | lmr_analyzer/enums.py:24-28 | no two PackageStatus members share a value |
| Enums.PackageStatusParseValue | lmr_analyzer/enums.py:24-28 | each PackageStatus member's value parses back to that member |
| Vehicle.Repr | lmr_analyzer/vehicle.py:6-7 | the repr is 27 characters longer than name plus rendered capacity, starts with `'Vehicle(name=` followed by the name and ends with `)'` |
| Vehicle.ReprRoundTrip | lmr_analyzer/vehicle.py:2-7 | for a name without a comma, the name and the rendered capacity can be read back out of the repr unchanged |
| Vehicle.ReprOfVan | tests/test_vehicle.py:1-7 | Vehicle("Van", 500.0) stores both fields as given and its repr is `'Vehicle(name=Van, capacity=500.0)'` |
| BBox.NewBoundingBox | lmr_analyzer/bbox.py:4-24 | the name is kept; each min is one of its two arguments and below both, each max one of them and above both; so min ≤ max on both axes |
| BBox.NewBoundingBoxSymmetric | lmr_analyzer/bbox.py:21-24 | swapping the two latitudes or the two longitudes gives the same box, and a box rebuilt from its own corners is unchanged |
| BBox.TestBoxCorners | tests/test_bbox.py:1-6 | ("TestBox", 10, 20, 30, 40) spans latitudes 10..20 and longitudes 30..40: arguments are name, lat1, lat2, lon1, lon2 |
| Route.NewRoute | lmr_analyzer/route.py:9-23 | a new route has the given name, four empty sequences, no vehicle, both counters at 0, and so counters that agree with the sequences |
| Stop.NewStop | lmr_analyzer/stop.py:32-52 | a stop is built exactly when start ≤ end and the type is depot, pickup or delivery; the window error wins when both are wrong; fields are stored as given; delivery time is non-negative and start + delivery time = end |
| Stop.ValidLocationTypesAreEnum | lmr_analyzer/stop.py:46 | the location types the constructor accepts are exactly the LocationType enum values |
| Stop.EqualBoundsAccepted | lmr_analyzer/stop.py:41-44 | an empty window (start = end) is accepted and lasts 0 |
| Stop.TwoHourWindow | tests/test_stop.py:38 | a window from 10:00 to 12:00 gives a delivery time of 7200 seconds |
| LmrPackage.NewPackage | lmr_analyzer/package.py:5-40 | an invalid status raises ValueError; otherwise the result fails exactly when calculate_volume fails; on success all fields are stored as given and volume is calculate_volume(dimensions) |
| LmrPackage.InvalidStatusSkipsVolume | lmr_analyzer/package.py:32-38 | with an invalid status the outcome does not depend on calculate_volume: the status check comes first |
| LmrPackage.DefaultWeightAndPrice | lmr_analyzer/package.py:5 | omitted weight and price are 0 |
| LmrPackage.ValidStatusesAreEnum | lmr_analyzer/package.py:32 | the accepted statuses are exactly the PackageStatus enum values |
| SourcePackage.Package.constructor | source/package.py:36-42 | all five arguments are stored as given |
| SourcePackage.Package.Volume | source/package.py:52-65 | the volume is the product of the current three dimensions, positive when all three are |
| SourcePackage.Package.ModifyStatus | source/package.py:67-81 | the status becomes the argument, unchecked; name, dimensions, weight, price and so the volume are unchanged |
| SourcePackage.NewPackage | source/package.py:9-50 | a package object is created exactly when the status is one of the four accepted ones, with all arguments stored and weight and price defaulting to 0; otherwise the ValueError |
| SourcePackage.UnitCubeScenario | tests/test_package.py:8-10 | the unit-cube fixture has volume 1 and status "delivered" after modify_status("delivered") |
| Utils.RequestDataFromOsm | lmr_analyzer/utils.py:103-113 | the answer is passed on exactly when its code is "Ok"; any other code raises RuntimeError naming it |
| Utils.DriveDistanceOsm | lmr_analyzer/utils.py:73-100 | a bad code raises, an answer without routes raises IndexError; otherwise km × 1000 and minutes × 60 give back the first route's metres and seconds; the first coordinate of each location goes in the URL's longitude slot |
| Utils.OsmConversionExample | tests/test_utils.py:33-69 | 100000 m and 3600 s give 100 km and 60 minutes; a "NoRoute" answer raises RuntimeError |
| Utils.RequestDataFromGmaps | lmr_analyzer/utils.py:60-70 | the body is passed on exactly when the HTTP status is 200 and the API status "OK"; the HTTP status is checked first; both failures are RuntimeError |
| Utils.DriveDistanceGmaps | lmr_analyzer/utils.py:31-57 | request failures propagate; a body without a route or leg raises IndexError; otherwise km × 1000 and minutes × 60 give back the first leg's metres and seconds |
| Utils.PaddedBox | lmr_analyzer/utils.py:126-138 | the box contains both points and spans at least 0.01 on each axis; a side already ≥ 0.01 is the tight one, a narrower side grows by exactly 0.005 at each end |
| Utils.DriveDistanceOsmnx | lmr_analyzer/utils.py:116-159 | a non-tuple argument raises TypeError before any graph work; otherwise the shortest path on the padded box, converted to km, or the graph failure, raised with the graph library's own exception class |
| Utils.GetDistance | lmr_analyzer/utils.py:165-205 | the mode is rejected with ValueError exactly when it is not a DistanceMode value; haversine and osmnx report duration 0; osm gets the caller's session and gmaps an empty key, and their answers are passed through |
| Utils.ZeroDurationModes | lmr_analyzer/utils.py:189-198 | whatever the providers answer, haversine mode succeeds with duration 0, and osmnx mode reports duration 0 when it succeeds |
| Utils.OsmModePassesLocationsUnswapped | lmr_analyzer/utils.py:87-98 | in osm mode a (lat, lon) location reaches the service unswapped, so its latitude fills the longitude slot |
| Utils.OsmLatLonCounterexample | lmr_analyzer/utils.py:166-167 | the documented (lat, lon) location (40.7, -74.0) is requested from the routing service with 40.7 in the longitude slot |
| Utils.CorrectedOsmCoordinateOrder | lmr_analyzer/utils.py:74-98 | the corrected dispatch sends each location's longitude in the longitude slot, with the same code and route checks and conversions, and agrees with get_distance on every other mode |
| Dicts.Keys | lmr_analyzer/amz_serializer.py:171 | `list(d.keys())`: one key per entry, in order |
| Dicts.Lookup | lmr_analyzer/amz_serializer.py:135 | `d[k]` raises KeyError exactly when k is not a key; otherwise it is a value stored under k |
| Dicts.PassEachSpec | lmr_analyzer/amz_serializer.py:45-76 | an overwriting loop keeps keys and order, writes each entry up to the first raising one, leaves later entries as they were, and raises exactly when a step raises, with that step's exception |
| Dicts.PassEachIdempotent | lmr_analyzer/amz_serializer.py:47-48 | if rerunning a step on its own output changes nothing, rerunning the whole loop on its output changes nothing, whether or not it raised |
| Text.Split | lmr_analyzer/amz_serializer.py:145-148 | `str.split` gives at least one piece |
| Text.SplitSpec | lmr_analyzer/amz_serializer.py:145-148 | no piece holds the separator, and joining the pieces with it gives the string back |
| Text.SplitCount | lmr_analyzer/amz_serializer.py:145-148 | split gives one piece more than there are separators |
| Text.SplitJoin | lmr_analyzer/amz_serializer.py:145-148 | splitting a join of separator-free pieces gives the pieces back |
| Text.ParseInt | lmr_analyzer/amz_serializer.py:145-148 | `int(x)` succeeds exactly on an optional sign followed by digits, and otherwise raises ValueError naming x |
| Text.ParseIntsSpec | lmr_analyzer/amz_serializer.py:145-148 | the list comprehension gives every piece's integer in order, or the error of the first piece that is not an integer |
| Text.ParseShowNat | lmr_analyzer/amz_serializer.py:145-148 | `int(str(n)) == n` for every natural number |
| Text.ParseShowInt | lmr_analyzer/amz_serializer.py:145-148 | `int(str(z)) == z` for every integer, negative ones included |
| Text.ParseIntSigned | lmr_analyzer/amz_serializer.py:145-148 | for a digit string s, `int("+" + s) == int(s)` and `int("-" + s) == -int(s)` |
| Text.ParseIntLeadingZero | lmr_analyzer/amz_serializer.py:145-148 | a leading zero does not change the integer: `int("0" + s) == int(s)` for a digit string s |
| AmzPackages.ScanStatusMapping | lmr_analyzer/amz_serializer.py:51-60 | DELIVERED→delivered, REJECTED→rejected, DELIVERY_ATTEMPTED→attempted, each an accepted package status; any other status raises ValueError naming it |
| AmzPackages.ConvertPackageFields | lmr_analyzer/amz_serializer.py:47-73 | a package object is kept; a raw record with an unknown status raises ValueError naming it; with a known status it fails exactly as lmr_analyzer/package.py's constructor does on the mapped status (when calculate_volume fails, with that error), and otherwise becomes the package named by its id with dimensions (depth, height, width), the mapped status, no weight or price and the computed volume |
| AmzPackages.ConvertStepError | lmr_analyzer/amz_serializer.py:57-73 | a raising step writes nothing and happens on a raw record: an unknown scan status raises ValueError naming it, a known one raises calculate_volume's error |
| AmzPackages.ConvertStepOk | lmr_analyzer/amz_serializer.py:62-76 | a step that does not raise writes the converted package |
| AmzPackages.SerializeStopPackages | lmr_analyzer/amz_serializer.py:45-76 | the innermost loop leaves exactly the dictionary and exception of the one-stop pass |
| AmzPackages.SerializeRoutePackages | lmr_analyzer/amz_serializer.py:43-76 | the middle loop leaves exactly the dictionary and exception of the one-route pass |
| AmzPackages.SerializePackage | lmr_analyzer/amz_serializer.py:42-84 | serialize_package leaves exactly the dictionary and exception of the whole pass |
| AmzPackages.PackagesPassKeepsKeys | lmr_analyzer/amz_serializer.py:42-45 | route, stop and package keys and their order are unchanged, whether or not the pass raised |
| AmzPackages.StopPackagesPassSucceeds | lmr_analyzer/amz_serializer.py:45-76 | one stop's pass raises exactly when one of its packages cannot be converted, and otherwise holds every package's conversion |
| AmzPackages.StopPackagesPassError | lmr_analyzer/amz_serializer.py:45-73 | a raising pass is stopped by its first raw record that cannot be converted: ValueError naming an unknown status, or calculate_volume's error on that record's dimensions |
| AmzPackages.StopPackagesPassPartial | lmr_analyzer/amz_serializer.py:45-76 | after a raise, the packages before the failing one are converted, and it and all later ones are as they were |
| AmzPackages.RoutePackagesPassSucceeds | lmr_analyzer/amz_serializer.py:43-76 | one route's pass raises exactly when some package of some stop cannot be converted, and otherwise converts every package and keeps all keys |
| AmzPackages.PackagesPassSucceeds | lmr_analyzer/amz_serializer.py:42-84 | the pass raises exactly when some raw package has an unknown status or calculate_volume fails on its dimensions; otherwise every package is converted, every entry is a package object and all keys are kept |
| AmzPackages.PackagesPassIdempotent | lmr_analyzer/amz_serializer.py:47-48 | running serialize_package again on its output changes nothing and raises the same, because converted entries are skipped |
| AmzRoutes.LocationTypeMapping | lmr_analyzer/amz_serializer.py:118-124 | Dropoff→delivery and Station→depot, each accepted by the stop constructor; any other type raises ValueError naming it |
| AmzRoutes.SerializeStop | lmr_analyzer/amz_serializer.py:115-138 | one stop is converted exactly as the stop pass converts it: its type mapped, its packages looked up by route and stop id, or the first KeyError or ValueError |
| AmzRoutes.SerializeRouteStops | lmr_analyzer/amz_serializer.py:113-138 | the stop loop of one route leaves exactly the stops and exception of the stop pass |
| AmzRoutes.SerializeOneRoute | lmr_analyzer/amz_serializer.py:110-158 | the body of the route loop leaves exactly the entry and exception of the route conversion |
| AmzRoutes.SerializeRoute | lmr_analyzer/amz_serializer.py:109-160 | serialize_route leaves exactly the dictionary and exception of the whole pass |
| AmzRoutes.ConvertStopFields | lmr_analyzer/amz_serializer.py:115-138 | a stop object is kept; a raw stop converts exactly when its type is known and its packages exist, to the stop with its id, (lat, lng), mapped type, window (0, 0), service time 0 and the packages under its route and stop ids; errors in that order |
| AmzRoutes.BuiltStopPassesStopChecks | lmr_analyzer/amz_serializer.py:126-136 | the stop the serializer asks for never trips the stop constructor's window or type checks |
| AmzRoutes.ConvertStopErrors | lmr_analyzer/amz_serializer.py:118-135 | a stop conversion fails only on a raw stop, with the unknown type or a missing route or stop key |
| AmzRoutes.StopsPassSpec | lmr_analyzer/amz_serializer.py:113-138 | the stop loop keeps stop ids, raises exactly when a stop cannot be converted, with the first such stop's error, after converting the stops before it and leaving it and later ones as they were |
| AmzRoutes.StopStepIdempotent | lmr_analyzer/amz_serializer.py:115-116 | running the stop step again on its output changes nothing |
| AmzRoutes.ConvertRouteFields | lmr_analyzer/amz_serializer.py:110-158 | a route object is kept; a raw route whose stops raise stays raw with the loop's partial writes; otherwise it becomes the route named by its id, with the converted stops, the parsed departure time and vehicle "random_vehicle" of the executor capacity, unless the date or time fails to parse |
| AmzRoutes.ConvertRouteIdempotent | lmr_analyzer/amz_serializer.py:110-116 | converting a route again changes nothing, whether or not the first conversion raised |
| AmzRoutes.RoutesPassSpec | lmr_analyzer/amz_serializer.py:109-160 | the pass keeps route ids and each route's stop ids, raises exactly when some route cannot be converted, with the first such route's error, and otherwise makes every entry a route object with its conversion |
| AmzRoutes.RoutesPassIdempotent | lmr_analyzer/amz_serializer.py:110-116 | running serialize_route again on its output changes nothing and raises the same |
| AmzRoutes.DepartureTimeRoundTrip | lmr_analyzer/amz_serializer.py:145-156 | a date Y-M-D and a time h:m:s give the departure time with those six fields, in that order |
| AmzRoutes.DepartureTimeOfParts | lmr_analyzer/amz_serializer.py:145-156 | once both strings parse, the departure time takes the first three numbers of each |
| AmzRoutes.ThreeParts | lmr_analyzer/amz_serializer.py:145-148 | three digit strings joined by a non-digit separator split and parse back to their three numbers |
| AmzRoutes.DepartureTimeErrors | lmr_analyzer/amz_serializer.py:145-153 | the departure time fails exactly when a piece is not an integer or either string has fewer than two separators; date errors come before time errors; failures are ValueError or IndexError |
| AmzRoutes.DepartureTimeExample | lmr_analyzer/amz_serializer.py:145-153 | "2018-07-27" and "16:02:10" give 2018, 7, 27, 16, 2, 10 |
| AmzSequences.InsertPermutes | lmr_analyzer/amz_serializer.py:168-170 | inserting an entry adds that entry and nothing else |
| AmzSequences.InsertSorted | lmr_analyzer/amz_serializer.py:168-170 | inserting into a position-ordered sequence keeps it ordered |
| AmzSequences.InsertWithValue | lmr_analyzer/amz_serializer.py:168-170 | insertion keeps the order among entries of equal position and puts the new entry first among them |
| AmzSequences.SortByValueSorted | lmr_analyzer/amz_serializer.py:168-170 | `sorted(..., key=item[1])` orders entries by position and is a permutation of them |
| AmzSequences.SortByValueStable | lmr_analyzer/amz_serializer.py:168-170 | the sort is stable: entries with equal positions keep their order |
| AmzSequences.StableSortUnique | lmr_analyzer/amz_serializer.py:168-170 | two position-ordered sequences that agree on the order within each position are equal, so the stable sort is Python's sorted |
| AmzSequences.SequenceNamesPermutation | lmr_analyzer/amz_serializer.py:168-171 | the stop-name list holds each stop id of the map exactly as often as the map does |
| AmzSequences.SequenceNamesOrdered | lmr_analyzer/amz_serializer.py:168-171 | the names are listed in ascending order of their positions in the map |
| AmzSequences.SequencesPass | lmr_analyzer/amz_serializer.py:164-174 | the pass keeps the number of routes; what each route becomes is stated by `AmzSequences.SequencesPassSpec` |
| AmzSequences.SerializeActualSequences | lmr_analyzer/amz_serializer.py:164-174 | serialize_actual_sequences leaves exactly the dictionary of the pass |
| AmzSequences.SequencesPassSpec | lmr_analyzer/amz_serializer.py:164-172 | route ids are kept; lists and routes without inner maps are left alone; every other route becomes exactly the stop names of its last inner map, stably sorted by position (`SequenceNames`), each stop id once per occurrence |
| AmzSequences.SequencesPassIdempotent | lmr_analyzer/amz_serializer.py:165-166 | a second run changes nothing |
| AmzSequences.SequenceNamesExample | lmr_analyzer/amz_serializer.py:168-171 | positions 2, 0, 1 for AA, BB, CC give BB, CC, AA |
| FetchOsmDd.FormatPoints | docs/misc/fetch_osm_dd.py:67-71 | the progress line raises exactly when a coordinate is text, and never when both points are floats |
| FetchOsmDd.DriveDistance | docs/misc/fetch_osm_dd.py:55-73 | the call succeeds exactly when the code is "Ok", there is a route and the progress line formats; a bad code raises ValueError; the result is the first route's km and minutes |
| FetchOsmDd.CalculateDistanceDuration | docs/misc/fetch_osm_dd.py:84-124 | the loop leaves the table, the calls and the exception that `Fill` specifies for the table it started from |
| FetchOsmDd.RequestRow | docs/misc/fetch_osm_dd.py:108-118 | the request for an unknown row is made exactly when its end points convert (`float` only towards the next stop); without a request the step raises the conversion's exception, otherwise it gives the service's answer or exception |
| FetchOsmDd.FillKeepsTable | docs/misc/fetch_osm_dd.py:97-121 | the table keeps its shape; the header, rows from n on, filled rows and all columns other than 4 and 5 are never written |
| FetchOsmDd.UnfilledSpec | docs/misc/fetch_osm_dd.py:97-106 | the unknown rows of [i, n), each once, in ascending order |
| FetchOsmDd.FillCallsInOrder | docs/misc/fetch_osm_dd.py:97-121 | the service is called once per unknown visited row, in ascending row order, up to the first exception; without one, for every unknown row of 1..n-1. The rows called are a prefix of the unknown rows, so no unknown row before the failing one is skipped |
| FetchOsmDd.FillKeepsUncalledRows | docs/misc/fetch_osm_dd.py:97-121 | a row the loop made no call for keeps every cell, so after an exception the unknown rows past the failing one are still unknown |
| FetchOsmDd.AnswerFrame | docs/misc/fetch_osm_dd.py:108-118 | a call's answer depends only on the coordinate cells of its two rows |
| FetchOsmDd.FillWrites | docs/misc/fetch_osm_dd.py:111-120 | every call but a raising last one was answered; every answered call wrote the service's answer into its row (distance rounded to 3 places in column 4, duration rounded in column 5), even when a later `float()` raised before the next call; a raising call left its row as it was |
| FetchOsmDd.GroupStartSpec | docs/misc/fetch_osm_dd.py:95-96 | the computed first row of a route run shares the route id with every row up to i, and the row before it does not |
| FetchOsmDd.FillTargetsWithoutFilledRows | docs/misc/fetch_osm_dd.py:95-121 | with no filled rows, each call measures to the next stop of its route, and a route's last stop measures back to the route's first row |
| FetchOsmDd.CorrectedTargets | docs/misc/fetch_osm_dd.py:95-121 | the corrected loop measures every call to the next stop on its route, whatever rows are already filled |
| FetchOsmDd.CorrectedFillsEveryRow | docs/misc/fetch_osm_dd.py:95-121 | with a service that always answers, the corrected loop raises nothing and writes each unknown row with the answer for the stop that follows it on its route |
| FetchOsmDd.ResumeCounterexample | docs/misc/fetch_osm_dd.py:99-106 | on a table whose first route is filled, the script measures row 2 back to row 1 of the other route, while its next stop is row 3 |
| FetchOsmDd.TextCoordinatesCounterexample | docs/misc/fetch_osm_dd.py:114-120 | on two one-stop routes, with a service that always answers, the script raises ValueError on its cycle-closing call, while the corrected loop completes |

## Left out

- Haversine (`lmr_analyzer/utils.py:16-28`) is the parameter `haversine`, because its float trigonometry has no exact counterpart over Dafny's reals.
- HTTP and URLs: requests sessions, URL formatting and JSON decoding are left out. The services' answers are parameters.
- `get_city_state_names`, `gmaps/distances.py` and the notebooks are left out: they are network calls and notebook I/O.
- OSMnx graph download, nearest-node search and Dijkstra are one parameter, `shortestPath`, of the padded box and the two points.
- `minimum_rotated_rectangle`: SciPy and Shapely geometry over floats.
- `source/geometry.py`, `lmr_analyzer/geometry.py` and `lmr_analyzer/analysis.py`: graph handling, file checks and plots; the last two only store arguments.
- The plots package, `setup.py` and both `__init__.py` files: plotting and packaging only.
- `lmr_analyzer/distance_matrix.py`: it relies on a statistics method that is not in the file.
- `lmr_analyzer/utilities.py`: a superseded copy whose `get_distance` refers to a name not in scope.
- `serialize_travel_times`: its body is `pass`.
- `print_info` and every progress `print` are left out, except where formatting a text value with `:.6f` raises (in `fetch_osm_dd.py` it does).
- `read_coord_file`, `save_results`, the `__main__` block and the timing code of `fetch_osm_dd.py` are left out as file I/O and timing. The `save_results` call before the "Route not found" error is not modelled, only the error.
- AmzRoutes.DepartureTimeErrors, AmzRoutes.DepartureTimeRoundTrip, AmzRoutes.ConvertRouteFields: `datetime` and `pytz` are not modelled. A departure time is the integer tuple handed to `datetime`. Calendar validity (month ≤ 12 and so on) is not checked, so `AmzRoutes.DepartureTime` accepts dates that `datetime` would reject, and these contracts omit that ValueError.
- Utils.PaddedBox: Python floats are exact reals here. The `< 0.01` test of utils.py:133 and 136 is decided over reals, so on doubles a side such as 40.72 - 40.71 (0.00999999999999801) is padded where the model keeps it tight. Likewise the `/ 1000` and `/ 60` conversions of `DriveDistanceOsm`, `DriveDistanceGmaps` and `DriveDistanceOsmnx` are exact division, not rounded double division.
- `float()` on CSV text and `round` are parameters (`parseFloat`, `round3`, `round0`), as is Python's `str(float)` in `Vehicle.Repr`.
- `int()` is modelled on a sign followed by ASCII digits. Surrounding whitespace, underscores and non-ASCII digits, which Python also accepts, are not.
- JSON records are assumed to have the fields the serializer reads. A missing field inside a record (KeyError) is not modelled. A missing key of the packages dictionary is modelled.
- Object identity: a stop's packages argument and a route's stops dictionary are shared objects in Python and values here. Aliasing between the dictionaries is not modelled.
- `FetchOsmDd.CalculateDistanceDuration` requires six columns in every data row and a row n. Only the rows the loop reads need them, so the requirement is slightly stronger than the script's.

## Findings

| source | as written | input that shows it | evidently intended | confidence | as-written member | corrected member |
|---|---|---|---|---|---|---|
| docs/misc/fetch_osm_dd.py:99-106 | a row already filled sets `route_begin_index = i` and leaves `route` unchanged | header, then row 1 of route A already filled, rows 2 and 3 of route B unknown, n = 3: row 2 is measured to row 1 (route A) instead of row 3 | keep `route` and `route_begin_index` tracking the route of the current row across filled rows, so a resumed run measures each row to the next stop of its own route | not executed | FetchOsmDd.ResumeCounterexample | FetchOsmDd.CorrectedTargets |
| docs/misc/fetch_osm_dd.py:116-118 | the cycle-closing call passes the raw CSV cells, and `drive_distance_osm` then formats them with `:.6f` (lines 67-71), which raises ValueError for a string | header, then route A and route B of one unknown row each, n = 2, with a service that always answers: the first call raises | convert with `float` as at lines 109-110 | not executed | FetchOsmDd.TextCoordinatesCounterexample | FetchOsmDd.CorrectedFillsEveryRow |
| lmr_analyzer/utils.py:74-88 | `drive_distance_osm` unpacks each location as (lon, lat), while `get_distance` documents (lat, lon) (lines 166-167) and passes the locations on unchanged, as haversine and OSMnx read them | `get_distance((40.7, -74.0), (40.7, -74.2), "osm")`: the routing service is asked for longitude 40.7, latitude -74.0 | swap each location to (lon, lat) before building the request in the osm mode | not executed | Utils.OsmLatLonCounterexample | Utils.CorrectedOsmCoordinateOrder |
