/** The closed vocabularies of lmr_analyzer/enums.py.

    Each Python Enum becomes a datatype with one constructor per member,
    `Value()` gives the member's string value, the `...s` constant lists the
    members in declaration order (the order Python iterates an Enum class),
    and `...Members()` is `get_members`, the list of values in that order. */
module Enums {
  import opened Errors

  /** `BaseEnum.get_members`: the values of the members, in member order. */
  function GetMembers<E>(members: seq<E>, value: E -> string): (r: seq<string>)
    ensures |r| == |members|
    ensures forall i :: 0 <= i < |members| ==> r[i] == value(members[i])
  {
    if members == [] then [] else [value(members[0])] + GetMembers(members[1..], value)
  }

  /** No two elements of `s` are equal. */
  predicate Distinct(s: seq<string>) {
    forall i, j :: 0 <= i < j < |s| ==> s[i] != s[j]
  }

  // ----- DistanceMode -----

  datatype DistanceMode = Haversine | Osm | Osmnx | Gmaps {
    function Value(): string {
      match this
      case Haversine => "haversine"
      case Osm => "osm"
      case Osmnx => "osmnx"
      case Gmaps => "gmaps"
    }
  }

  const DistanceModes: seq<DistanceMode> := [Haversine, Osm, Osmnx, Gmaps]

  function DistanceModeMembers(): seq<string> {
    GetMembers(DistanceModes, (m: DistanceMode) => m.Value())
  }

  /** The member with value `s`, if there is one (`DistanceMode(s)`). */
  function ParseDistanceMode(s: string): (r: Option<DistanceMode>)
    ensures r.Some? <==> s in DistanceModeMembers()
    ensures r.Some? ==> r.value.Value() == s
  {
    DistanceModeMembersAre();
    if s == "haversine" then Some(Haversine)
    else if s == "osm" then Some(Osm)
    else if s == "osmnx" then Some(Osmnx)
    else if s == "gmaps" then Some(Gmaps)
    else None
  }

  lemma DistanceModeMembersAre()
    ensures DistanceModeMembers() == ["haversine", "osm", "osmnx", "gmaps"]
  {
  }

  /** Every member appears in the member list. */
  lemma DistanceModeListed()
    ensures forall m: DistanceMode :: m in DistanceModes
  {
    forall m: DistanceMode ensures m in DistanceModes {
      match m
      case Haversine => assert DistanceModes[0] == m;
      case Osm => assert DistanceModes[1] == m;
      case Osmnx => assert DistanceModes[2] == m;
      case Gmaps => assert DistanceModes[3] == m;
    }
  }

  /** No two members share a value. */
  lemma DistanceModeMembersDistinct()
    ensures Distinct(DistanceModeMembers())
  {
    DistanceModeMembersAre();
  }

  /** Each member's value parses back to that member. */
  lemma DistanceModeParseValue()
    ensures forall m: DistanceMode :: ParseDistanceMode(m.Value()) == Some(m)
  {
    forall m: DistanceMode ensures ParseDistanceMode(m.Value()) == Some(m) {
      match m
      case Haversine => assert ParseDistanceMode("haversine") == Some(m);
      case Osm => assert ParseDistanceMode("osm") == Some(m);
      case Osmnx => assert ParseDistanceMode("osmnx") == Some(m);
      case Gmaps => assert ParseDistanceMode("gmaps") == Some(m);
    }
  }


  // ----- LocationType -----

  datatype LocationType = Depot | Pickup | Delivery {
    function Value(): string {
      match this
      case Depot => "depot"
      case Pickup => "pickup"
      case Delivery => "delivery"
    }
  }

  const LocationTypes: seq<LocationType> := [Depot, Pickup, Delivery]

  function LocationTypeMembers(): seq<string> {
    GetMembers(LocationTypes, (t: LocationType) => t.Value())
  }

  function ParseLocationType(s: string): (r: Option<LocationType>)
    ensures r.Some? <==> s in LocationTypeMembers()
    ensures r.Some? ==> r.value.Value() == s
  {
    LocationTypeMembersAre();
    if s == "depot" then Some(Depot)
    else if s == "pickup" then Some(Pickup)
    else if s == "delivery" then Some(Delivery)
    else None
  }

  lemma LocationTypeMembersAre()
    ensures LocationTypeMembers() == ["depot", "pickup", "delivery"]
  {
  }

  /** Every member appears in the member list. */
  lemma LocationTypeListed()
    ensures forall t: LocationType :: t in LocationTypes
  {
    forall t: LocationType ensures t in LocationTypes {
      match t
      case Depot => assert LocationTypes[0] == t;
      case Pickup => assert LocationTypes[1] == t;
      case Delivery => assert LocationTypes[2] == t;
    }
  }

  /** No two members share a value. */
  lemma LocationTypeMembersDistinct()
    ensures Distinct(LocationTypeMembers())
  {
    LocationTypeMembersAre();
  }

  /** Each member's value parses back to that member. */
  lemma LocationTypeParseValue()
    ensures forall t: LocationType :: ParseLocationType(t.Value()) == Some(t)
  {
    forall t: LocationType ensures ParseLocationType(t.Value()) == Some(t) {
      match t
      case Depot => assert ParseLocationType("depot") == Some(t);
      case Pickup => assert ParseLocationType("pickup") == Some(t);
      case Delivery => assert ParseLocationType("delivery") == Some(t);
    }
  }


  // ----- PackageStatus -----

  datatype PackageStatus = ToBeDelivered | Rejected | Attempted | Delivered {
    function Value(): string {
      match this
      case ToBeDelivered => "to-be-delivered"
      case Rejected => "rejected"
      case Attempted => "attempted"
      case Delivered => "delivered"
    }
  }

  const PackageStatuses: seq<PackageStatus> := [ToBeDelivered, Rejected, Attempted, Delivered]

  function PackageStatusMembers(): seq<string> {
    GetMembers(PackageStatuses, (p: PackageStatus) => p.Value())
  }

  function ParsePackageStatus(s: string): (r: Option<PackageStatus>)
    ensures r.Some? <==> s in PackageStatusMembers()
    ensures r.Some? ==> r.value.Value() == s
  {
    PackageStatusMembersAre();
    if s == "to-be-delivered" then Some(ToBeDelivered)
    else if s == "rejected" then Some(Rejected)
    else if s == "attempted" then Some(Attempted)
    else if s == "delivered" then Some(Delivered)
    else None
  }

  lemma PackageStatusMembersAre()
    ensures PackageStatusMembers() == ["to-be-delivered", "rejected", "attempted", "delivered"]
  {
  }

  /** Every member appears in the member list. */
  lemma PackageStatusListed()
    ensures forall p: PackageStatus :: p in PackageStatuses
  {
    forall p: PackageStatus ensures p in PackageStatuses {
      match p
      case ToBeDelivered => assert PackageStatuses[0] == p;
      case Rejected => assert PackageStatuses[1] == p;
      case Attempted => assert PackageStatuses[2] == p;
      case Delivered => assert PackageStatuses[3] == p;
    }
  }

  /** No two members share a value. */
  lemma PackageStatusMembersDistinct()
    ensures Distinct(PackageStatusMembers())
  {
    PackageStatusMembersAre();
  }

  /** Each member's value parses back to that member. */
  lemma PackageStatusParseValue()
    ensures forall p: PackageStatus :: ParsePackageStatus(p.Value()) == Some(p)
  {
    forall p: PackageStatus ensures ParsePackageStatus(p.Value()) == Some(p) {
      match p
      case ToBeDelivered => assert ParsePackageStatus("to-be-delivered") == Some(p);
      case Rejected => assert ParsePackageStatus("rejected") == Some(p);
      case Attempted => assert ParsePackageStatus("attempted") == Some(p);
      case Delivered => assert ParsePackageStatus("delivered") == Some(p);
    }
  }
}
