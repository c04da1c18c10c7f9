/** `amz_serializer.serialize_package`: the first pass over the Amazon data.

    The packages dictionary maps route id -> stop id -> package id -> the
    raw package record.  The pass walks it in key order and replaces every
    raw record by a package object; records that already are package objects
    are skipped.  An unknown scan status raises ValueError at once, leaving
    the records converted so far in place.

    A converted record holds the arguments the serializer passes to the
    package constructor and the volume the constructor computes.  The
    constructor's `calculate_volume` is the parameter `calculateVolume`, as
    in `LmrPackage`; when it fails the constructor raises, and so does the
    pass, after the writes made so far.

    Python nests the three loops in one function; the model has one method
    per loop level, each proved against a specification function of the
    same level. */
module AmzPackages {
  import opened Errors
  import opened Dicts
  import LmrPackage

  datatype RawDimensions = RawDimensions(depthCm: real, heightCm: real, widthCm: real)
  datatype RawPackage = RawPackage(scanStatus: string, dimensions: RawDimensions)

  type Dimensions = LmrPackage.Dimensions

  /** The dimensions tuple passed to the constructor: depth, height, width. */
  function Dims(raw: RawPackage): Dimensions {
    (raw.dimensions.depthCm, raw.dimensions.heightCm, raw.dimensions.widthCm)
  }

  /** The arguments of `package_class(name=..., dimensions=..., status=...,
      weight=None, price=None)`. */
  datatype PackageArgs = PackageArgs(name: string, dimensions: (real, real, real), status: string,
                                     weight: Option<real>, price: Option<real>)

  /** A value of the innermost dictionaries: raw JSON, or a package object
      with its constructor arguments and its volume. */
  datatype PackageEntry = RawEntry(raw: RawPackage) | Built(args: PackageArgs, volume: real)

  type StopPackages = Dict<PackageEntry>           // package id -> entry
  type RoutePackages = Dict<StopPackages>          // stop id -> packages
  type PackagesDict = Dict<RoutePackages>          // route id -> stops

  const KnownScanStatuses: set<string> := {"DELIVERED", "REJECTED", "DELIVERY_ATTEMPTED"}

  /** The scan-status vocabulary mapping. */
  function ScanStatus(scanStatus: string): Result<string> {
    if scanStatus == "DELIVERED" then Ok("delivered")
    else if scanStatus == "REJECTED" then Ok("rejected")
    else if scanStatus == "DELIVERY_ATTEMPTED" then Ok("attempted")
    else Err(InvalidScanStatus(scanStatus))
  }

  /** The three scan statuses map to three package statuses, all of which
      the package constructor accepts; any other raises ValueError naming
      the status. */
  lemma ScanStatusMapping(scanStatus: string)
    ensures scanStatus == "DELIVERED" <==> ScanStatus(scanStatus) == Ok("delivered")
    ensures scanStatus == "REJECTED" <==> ScanStatus(scanStatus) == Ok("rejected")
    ensures scanStatus == "DELIVERY_ATTEMPTED" <==> ScanStatus(scanStatus) == Ok("attempted")
    ensures ScanStatus(scanStatus).Err? <==> scanStatus !in KnownScanStatuses
    ensures ScanStatus(scanStatus).Err? ==>
              ScanStatus(scanStatus).error == InvalidScanStatus(scanStatus)
              && ScanStatus(scanStatus).error.Class() == ValueError
    ensures ScanStatus(scanStatus).Ok? ==> ScanStatus(scanStatus).value in LmrPackage.ValidStatuses
  {
  }

  /** What the pass does with the entry stored under package id `id`: the
      status is mapped, then the constructor checks it and computes the
      volume. */
  function ConvertPackage(calculateVolume: Dimensions -> Result<real>, id: string, e: PackageEntry): Result<PackageEntry> {
    match e
    case Built(_, _) => Ok(e)
    case RawEntry(raw) =>
      match ScanStatus(raw.scanStatus)
      case Err(err) => Err(err)
      case Ok(status) =>
        match calculateVolume(Dims(raw))
        case Err(err) => Err(err)
        case Ok(volume) => Ok(Built(PackageArgs(id, Dims(raw), status, None, None), volume))
  }

  /** A package object is left as it is.  A raw record with an unknown scan
      status raises ValueError naming it; one with a known status fails
      exactly as the package constructor does on the mapped status, that is
      when `calculate_volume` fails.  Otherwise it becomes the package named
      by its id, with the dimensions in (depth, height, width) order, the
      mapped status, no weight or price, and the computed volume. */
  lemma ConvertPackageFields(calculateVolume: Dimensions -> Result<real>, id: string, e: PackageEntry)
    ensures e.Built? ==> ConvertPackage(calculateVolume, id, e) == Ok(e)
    ensures e.RawEntry? ==>
              (ConvertPackage(calculateVolume, id, e).Ok? <==>
               e.raw.scanStatus in KnownScanStatuses && calculateVolume(Dims(e.raw)).Ok?)
    ensures e.RawEntry? && e.raw.scanStatus !in KnownScanStatuses ==>
              ConvertPackage(calculateVolume, id, e) == Err(InvalidScanStatus(e.raw.scanStatus))
    ensures e.RawEntry? && e.raw.scanStatus in KnownScanStatuses ==>
              var built := LmrPackage.NewPackage(calculateVolume, id, Dims(e.raw), ScanStatus(e.raw.scanStatus).value);
              && (ConvertPackage(calculateVolume, id, e).Ok? <==> built.Ok?)
              && (built.Err? ==> ConvertPackage(calculateVolume, id, e) == Err(built.error))
              && (built.Ok? ==> ConvertPackage(calculateVolume, id, e).value.volume == built.value.volume)
    ensures ConvertPackage(calculateVolume, id, e).Ok? ==> ConvertPackage(calculateVolume, id, e).value.Built?
    ensures e.RawEntry? && ConvertPackage(calculateVolume, id, e).Ok? ==>
              var args := ConvertPackage(calculateVolume, id, e).value.args;
              && args.name == id
              && args.dimensions == (e.raw.dimensions.depthCm, e.raw.dimensions.heightCm, e.raw.dimensions.widthCm)
              && args.status == ScanStatus(e.raw.scanStatus).value
              && args.status in LmrPackage.ValidStatuses
              && args.weight == None && args.price == None
              && ConvertPackage(calculateVolume, id, e).value.volume == calculateVolume(Dims(e.raw)).value
  {
    if e.RawEntry? {
      ScanStatusMapping(e.raw.scanStatus);
    }
  }

  /** One iteration of the innermost loop: the entry is replaced by its
      package object, or stays as it was when the loop raises. */
  function ConvertStep(calculateVolume: Dimensions -> Result<real>): (string, PackageEntry) -> Pass<PackageEntry> {
    (id: string, e: PackageEntry) =>
      match ConvertPackage(calculateVolume, id, e)
      case Err(err) => Pass(e, Some(err))
      case Ok(v) => Pass(v, None)
  }

  /** A raising step makes no write and happens on a raw record: an unknown
      scan status raises ValueError naming it, a known one raises what
      `calculate_volume` raised. */
  lemma ConvertStepError(calculateVolume: Dimensions -> Result<real>, id: string, e: PackageEntry)
    requires ConvertStep(calculateVolume)(id, e).error.Some?
    ensures ConvertStep(calculateVolume)(id, e).dict == e
    ensures e.RawEntry? && ConvertPackage(calculateVolume, id, e).Err?
    ensures ConvertStep(calculateVolume)(id, e).error == Some(ConvertPackage(calculateVolume, id, e).error)
    ensures e.raw.scanStatus !in KnownScanStatuses ==>
              ConvertStep(calculateVolume)(id, e).error == Some(InvalidScanStatus(e.raw.scanStatus))
    ensures e.raw.scanStatus in KnownScanStatuses ==>
              calculateVolume(Dims(e.raw)).Err? &&
              ConvertStep(calculateVolume)(id, e).error == Some(calculateVolume(Dims(e.raw)).error)
  {
    ScanStatusMapping(e.raw.scanStatus);
  }

  /** A step that does not raise leaves the converted entry. */
  lemma ConvertStepOk(calculateVolume: Dimensions -> Result<real>, id: string, e: PackageEntry)
    requires ConvertStep(calculateVolume)(id, e).error.None?
    ensures ConvertPackage(calculateVolume, id, e).Ok?
    ensures ConvertStep(calculateVolume)(id, e).dict == ConvertPackage(calculateVolume, id, e).value
  {
  }

  /** The pass over the packages of one stop. */
  function StopPackagesPass(calculateVolume: Dimensions -> Result<real>): (string, StopPackages) -> Pass<StopPackages> {
    (stopId: string, ps: StopPackages) => PassEach(ConvertStep(calculateVolume), ps)
  }

  /** The pass over the stops of one route. */
  function RoutePackagesPass(calculateVolume: Dimensions -> Result<real>): (string, RoutePackages) -> Pass<RoutePackages> {
    (routeId: string, stops: RoutePackages) => PassEach(StopPackagesPass(calculateVolume), stops)
  }

  /** The whole of `serialize_package`. */
  function PackagesPass(calculateVolume: Dimensions -> Result<real>, d: PackagesDict): Pass<PackagesDict> {
    PassEach(RoutePackagesPass(calculateVolume), d)
  }

  /** The loop over `packages_dict[route_id][stop_id].items()`. */
  method SerializeStopPackages(calculateVolume: Dimensions -> Result<real>, stopId: string, ps: StopPackages)
    returns (out: StopPackages, error: Option<Error>)
    ensures Pass(out, error) == StopPackagesPass(calculateVolume)(stopId, ps)
  {
    var step := ConvertStep(calculateVolume);
    out := ps;
    var k := 0;
    while k < |ps|
      invariant 0 <= k <= |ps| && |out| == |ps|
      invariant out[k..] == ps[k..]
      invariant forall j :: 0 <= j < k ==> step(ps[j].key, ps[j].value).error.None?
      invariant forall j :: 0 <= j < k ==> out[j] == Entry(ps[j].key, step(ps[j].key, ps[j].value).dict)
    {
      var packageId, values := ps[k].key, ps[k].value;
      if values.Built? {
        k := k + 1;
        continue;
      }
      var status;
      if values.raw.scanStatus == "DELIVERED" {
        status := "delivered";
      } else if values.raw.scanStatus == "REJECTED" {
        status := "rejected";
      } else if values.raw.scanStatus == "DELIVERY_ATTEMPTED" {
        status := "attempted";
      } else {
        PassEachStopsAt(step, ps, k, out);
        return out, Some(InvalidScanStatus(values.raw.scanStatus));
      }
      var dims := values.raw.dimensions;
      var volume := calculateVolume((dims.depthCm, dims.heightCm, dims.widthCm));
      if volume.Err? {
        PassEachStopsAt(step, ps, k, out);
        return out, Some(volume.error);
      }
      var pck := Built(PackageArgs(packageId, (dims.depthCm, dims.heightCm, dims.widthCm), status, None, None), volume.value);
      out := out[k := Entry(packageId, pck)];
      k := k + 1;
    }
    PassEachCompletes(step, ps, out);
    error := None;
  }

  /** The loop over the stops of `packages_dict[route_id]`. */
  method SerializeRoutePackages(calculateVolume: Dimensions -> Result<real>, routeId: string, stops: RoutePackages)
    returns (out: RoutePackages, error: Option<Error>)
    ensures Pass(out, error) == RoutePackagesPass(calculateVolume)(routeId, stops)
  {
    var step := StopPackagesPass(calculateVolume);
    out := stops;
    var k := 0;
    while k < |stops|
      invariant 0 <= k <= |stops| && |out| == |stops|
      invariant out[k..] == stops[k..]
      invariant forall j :: 0 <= j < k ==> step(stops[j].key, stops[j].value).error.None?
      invariant forall j :: 0 <= j < k ==> out[j] == Entry(stops[j].key, step(stops[j].key, stops[j].value).dict)
    {
      var stopId := stops[k].key;
      var converted, err := SerializeStopPackages(calculateVolume, stopId, stops[k].value);
      out := out[k := Entry(stopId, converted)];
      if err.Some? {
        PassEachStopsAt(step, stops, k, out);
        return out, err;
      }
      k := k + 1;
    }
    PassEachCompletes(step, stops, out);
    error := None;
  }

  /** `serialize_package(packages_dict)`. */
  method SerializePackage(calculateVolume: Dimensions -> Result<real>, d: PackagesDict)
    returns (out: PackagesDict, error: Option<Error>)
    ensures Pass(out, error) == PackagesPass(calculateVolume, d)
  {
    var step := RoutePackagesPass(calculateVolume);
    out := d;
    var k := 0;
    while k < |d|
      invariant 0 <= k <= |d| && |out| == |d|
      invariant out[k..] == d[k..]
      invariant forall j :: 0 <= j < k ==> step(d[j].key, d[j].value).error.None?
      invariant forall j :: 0 <= j < k ==> out[j] == Entry(d[j].key, step(d[j].key, d[j].value).dict)
    {
      var routeId := d[k].key;
      var converted, err := SerializeRoutePackages(calculateVolume, routeId, d[k].value);
      out := out[k := Entry(routeId, converted)];
      if err.Some? {
        PassEachStopsAt(step, d, k, out);
        return out, err;
      }
      k := k + 1;
    }
    PassEachCompletes(step, d, out);
    error := None;
  }

  // ----- properties of the pass -----

  /** Only the innermost values change: route, stop and package keys stay
      as they were, in their order. */
  lemma PackagesPassKeepsKeys(calculateVolume: Dimensions -> Result<real>, d: PackagesDict)
    ensures SameKeys(PackagesPass(calculateVolume, d).dict, d)
    ensures forall i :: 0 <= i < |d| ==>
              |PackagesPass(calculateVolume, d).dict[i].value| == |d[i].value| &&
              SameKeys(PackagesPass(calculateVolume, d).dict[i].value, d[i].value)
    ensures forall i, j :: 0 <= i < |d| && 0 <= j < |d[i].value| ==>
              SameKeys(PackagesPass(calculateVolume, d).dict[i].value[j].value, d[i].value[j].value)
  {
    var routeStep, stopStep := RoutePackagesPass(calculateVolume), StopPackagesPass(calculateVolume);
    PassEachSpec(routeStep, d);
    var r := PackagesPass(calculateVolume, d);
    forall i | 0 <= i < |d|
      ensures SameKeys(r.dict[i].value, d[i].value)
      ensures forall j :: 0 <= j < |d[i].value| ==> SameKeys(r.dict[i].value[j].value, d[i].value[j].value)
    {
      var stops := d[i].value;
      PassEachSpec(stopStep, stops);
      var rs := routeStep(d[i].key, stops);
      forall j | 0 <= j < |stops| ensures SameKeys(rs.dict[j].value, stops[j].value) {
        PassEachSpec(ConvertStep(calculateVolume), stops[j].value);
      }
    }
  }

  /** Every raw package in the dictionary converts: its scan status is
      known and `calculate_volume` succeeds on its dimensions. */
  ghost predicate AllConvertible(calculateVolume: Dimensions -> Result<real>, d: PackagesDict) {
    forall i, j, k :: 0 <= i < |d| && 0 <= j < |d[i].value| && 0 <= k < |d[i].value[j].value| ==>
      ConvertPackage(calculateVolume, d[i].value[j].value[k].key, d[i].value[j].value[k].value).Ok?
  }

  /** Every package entry is a package object. */
  ghost predicate AllBuilt(d: PackagesDict) {
    forall i, j, k :: 0 <= i < |d| && 0 <= j < |d[i].value| && 0 <= k < |d[i].value[j].value| ==>
      d[i].value[j].value[k].value.Built?
  }

  /** One stop's pass raises exactly when one of its packages cannot be
      converted, and otherwise converts every entry. */
  lemma StopPackagesPassSucceeds(calculateVolume: Dimensions -> Result<real>, stopId: string, ps: StopPackages)
    ensures StopPackagesPass(calculateVolume)(stopId, ps).error.None? <==>
            forall k :: 0 <= k < |ps| ==> ConvertPackage(calculateVolume, ps[k].key, ps[k].value).Ok?
    ensures StopPackagesPass(calculateVolume)(stopId, ps).error.None? ==>
            |StopPackagesPass(calculateVolume)(stopId, ps).dict| == |ps| &&
            forall k :: 0 <= k < |ps| ==>
              StopPackagesPass(calculateVolume)(stopId, ps).dict[k]
              == Entry(ps[k].key, ConvertPackage(calculateVolume, ps[k].key, ps[k].value).value)
  {
    var step := ConvertStep(calculateVolume);
    PassEachSpec(step, ps);
    var n := FirstFailure(step, ps);
    if n < |ps| {
      ConvertStepError(calculateVolume, ps[n].key, ps[n].value);
    }
    forall k | 0 <= k < n {
      ConvertStepOk(calculateVolume, ps[k].key, ps[k].value);
    }
  }

  /** A pass that raises stops at the first raw record that cannot be
      converted: an unknown scan status raises ValueError naming it, a known
      one raises what `calculate_volume` raised on its dimensions. */
  lemma StopPackagesPassError(calculateVolume: Dimensions -> Result<real>, stopId: string, ps: StopPackages)
    requires StopPackagesPass(calculateVolume)(stopId, ps).error.Some?
    ensures FirstFailure(ConvertStep(calculateVolume), ps) < |ps|
    ensures ps[FirstFailure(ConvertStep(calculateVolume), ps)].value.RawEntry?
    ensures var raw := ps[FirstFailure(ConvertStep(calculateVolume), ps)].value.raw;
            raw.scanStatus !in KnownScanStatuses ==>
              StopPackagesPass(calculateVolume)(stopId, ps).error == Some(InvalidScanStatus(raw.scanStatus))
    ensures var raw := ps[FirstFailure(ConvertStep(calculateVolume), ps)].value.raw;
            raw.scanStatus in KnownScanStatuses ==>
              calculateVolume(Dims(raw)).Err? &&
              StopPackagesPass(calculateVolume)(stopId, ps).error == Some(calculateVolume(Dims(raw)).error)
  {
    var step := ConvertStep(calculateVolume);
    PassEachSpec(step, ps);
    var n := FirstFailure(step, ps);
    ConvertStepError(calculateVolume, ps[n].key, ps[n].value);
  }

  /** The writes a raising pass leaves behind: the packages before the
      failing one are converted, it and all later ones are as they were. */
  lemma StopPackagesPassPartial(calculateVolume: Dimensions -> Result<real>, stopId: string, ps: StopPackages)
    requires StopPackagesPass(calculateVolume)(stopId, ps).error.Some?
    ensures FirstFailure(ConvertStep(calculateVolume), ps) < |ps|
    ensures |StopPackagesPass(calculateVolume)(stopId, ps).dict| == |ps|
    ensures forall k :: 0 <= k < FirstFailure(ConvertStep(calculateVolume), ps) ==>
              StopPackagesPass(calculateVolume)(stopId, ps).dict[k]
              == Entry(ps[k].key, ConvertPackage(calculateVolume, ps[k].key, ps[k].value).value)
    ensures forall k :: FirstFailure(ConvertStep(calculateVolume), ps) <= k < |ps| ==>
              StopPackagesPass(calculateVolume)(stopId, ps).dict[k] == ps[k]
  {
    var step := ConvertStep(calculateVolume);
    PassEachSpec(step, ps);
    var n := FirstFailure(step, ps);
    ConvertStepError(calculateVolume, ps[n].key, ps[n].value);
    PassEachFails(step, ps);
    forall k | 0 <= k < n {
      ConvertStepOk(calculateVolume, ps[k].key, ps[k].value);
    }
  }

  /** One route's pass raises exactly when one of its packages cannot be
      converted, and otherwise converts every package. */
  lemma RoutePackagesPassSucceeds(calculateVolume: Dimensions -> Result<real>, routeId: string, stops: RoutePackages)
    ensures RoutePackagesPass(calculateVolume)(routeId, stops).error.None? <==>
            forall j, k :: 0 <= j < |stops| && 0 <= k < |stops[j].value| ==>
              ConvertPackage(calculateVolume, stops[j].value[k].key, stops[j].value[k].value).Ok?
    ensures RoutePackagesPass(calculateVolume)(routeId, stops).error.None? ==>
            SameKeys(RoutePackagesPass(calculateVolume)(routeId, stops).dict, stops) &&
            (forall j :: 0 <= j < |stops| ==>
               SameKeys(RoutePackagesPass(calculateVolume)(routeId, stops).dict[j].value, stops[j].value)) &&
            forall j, k :: 0 <= j < |stops| && 0 <= k < |stops[j].value| ==>
              RoutePackagesPass(calculateVolume)(routeId, stops).dict[j].value[k]
              == Entry(stops[j].value[k].key,
                       ConvertPackage(calculateVolume, stops[j].value[k].key, stops[j].value[k].value).value)
  {
    var step := StopPackagesPass(calculateVolume);
    PassEachSpec(step, stops);
    forall j | 0 <= j < |stops| {
      StopPackagesPassSucceeds(calculateVolume, stops[j].key, stops[j].value);
    }
    var n := FirstFailure(step, stops);
    if n < |stops| {
      assert step(stops[n].key, stops[n].value).error.Some?;
    }
  }

  /** The pass raises exactly when some raw package cannot be converted (an
      unknown scan status, or `calculate_volume` failing on its dimensions);
      when it does not raise, every package has been converted. */
  lemma PackagesPassSucceeds(calculateVolume: Dimensions -> Result<real>, d: PackagesDict)
    ensures PackagesPass(calculateVolume, d).error.None? <==> AllConvertible(calculateVolume, d)
    ensures PackagesPass(calculateVolume, d).error.None? ==>
            SameKeys(PackagesPass(calculateVolume, d).dict, d) &&
            (forall i :: 0 <= i < |d| ==> SameKeys(PackagesPass(calculateVolume, d).dict[i].value, d[i].value)) &&
            (forall i, j :: 0 <= i < |d| && 0 <= j < |d[i].value| ==>
              SameKeys(PackagesPass(calculateVolume, d).dict[i].value[j].value, d[i].value[j].value)) &&
            forall i, j, k :: 0 <= i < |d| && 0 <= j < |d[i].value| && 0 <= k < |d[i].value[j].value| ==>
              PackagesPass(calculateVolume, d).dict[i].value[j].value[k]
              == Entry(d[i].value[j].value[k].key,
                       ConvertPackage(calculateVolume, d[i].value[j].value[k].key, d[i].value[j].value[k].value).value)
    ensures PackagesPass(calculateVolume, d).error.None? ==> AllBuilt(PackagesPass(calculateVolume, d).dict)
  {
    var step := RoutePackagesPass(calculateVolume);
    PackagesPassKeepsKeys(calculateVolume, d);
    PassEachSpec(step, d);
    forall i | 0 <= i < |d| {
      RoutePackagesPassSucceeds(calculateVolume, d[i].key, d[i].value);
    }
    var n := FirstFailure(step, d);
    if n < |d| {
      assert step(d[n].key, d[n].value).error.Some?;
    }
  }

  /** Converted entries are skipped, so running the pass again on what it
      left behind does nothing more, whether or not the first run raised. */
  lemma PackagesPassIdempotent(calculateVolume: Dimensions -> Result<real>, d: PackagesDict)
    ensures PackagesPass(calculateVolume, PackagesPass(calculateVolume, d).dict) == PackagesPass(calculateVolume, d)
  {
    var convert, stopStep, routeStep := ConvertStep(calculateVolume), StopPackagesPass(calculateVolume), RoutePackagesPass(calculateVolume);
    forall id, e ensures convert(id, convert(id, e).dict) == convert(id, e) {
    }
    forall id, ps ensures stopStep(id, stopStep(id, ps).dict) == stopStep(id, ps) {
      PassEachIdempotent(convert, ps);
    }
    forall id, stops ensures routeStep(id, routeStep(id, stops).dict) == routeStep(id, stops) {
      PassEachIdempotent(stopStep, stops);
    }
    PassEachIdempotent(routeStep, d);
  }
}
