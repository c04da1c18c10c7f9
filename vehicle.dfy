/** The vehicle record of lmr_analyzer/vehicle.py.

    `Vehicle(name, capacity)` stores both arguments as given, with no
    validation, which is exactly what a datatype constructor does.  Python
    renders the capacity with `str(float)`; that rendering is a parameter of
    `Repr`. */
module Vehicle {
  import opened Errors

  datatype Vehicle = Vehicle(name: string, capacity: real)

  const ReprPrefix: string := "'Vehicle(name="
  const ReprMiddle: string := ", capacity="
  const ReprSuffix: string := ")'"

  /** `Vehicle.__repr__`: the text between the single quotes names both fields. */
  function Repr(v: Vehicle, showCapacity: real -> string): (s: string)
    ensures |s| == |v.name| + |showCapacity(v.capacity)| + 27
    ensures s[..14] == ReprPrefix && s[14..14 + |v.name|] == v.name
    ensures s[|s| - 2..] == ReprSuffix
  {
    ReprPrefix + v.name + ReprMiddle + showCapacity(v.capacity) + ReprSuffix
  }

  /** Index of the first `c` in `s`, or `|s|` when there is none. */
  function IndexOf(s: string, c: char): (k: nat)
    ensures k <= |s|
    ensures k < |s| ==> s[k] == c
    ensures forall j :: 0 <= j < k ==> s[j] != c
  {
    if s == [] then 0 else if s[0] == c then 0 else 1 + IndexOf(s[1..], c)
  }

  /** Reads the name and the rendered capacity back out of a repr. */
  function ParseRepr(s: string): Option<(string, string)> {
    if |s| < |ReprPrefix| + |ReprSuffix|
       || s[..|ReprPrefix|] != ReprPrefix
       || s[|s| - |ReprSuffix|..] != ReprSuffix
    then None
    else
      var body := s[|ReprPrefix|..|s| - |ReprSuffix|];
      var k := IndexOf(body, ',');
      if |body| - k < |ReprMiddle| || body[k..k + |ReprMiddle|] != ReprMiddle then None
      else Some((body[..k], body[k + |ReprMiddle|..]))
  }

  lemma {:induction false} IndexOfAt(a: string, b: string, c: char)
    requires c !in a && b != [] && b[0] == c
    ensures IndexOf(a + b, c) == |a|
  {
    if a != [] {
      assert (a + b)[1..] == a[1..] + b;
      IndexOfAt(a[1..], b, c);
    }
  }

  /** The repr is decodable: a name without a comma and the rendered
      capacity come back out of it unchanged. */
  lemma ReprRoundTrip(v: Vehicle, showCapacity: real -> string)
    requires ',' !in v.name
    ensures ParseRepr(Repr(v, showCapacity)) == Some((v.name, showCapacity(v.capacity)))
  {
    var cap := showCapacity(v.capacity);
    var s := Repr(v, showCapacity);
    var body := v.name + ReprMiddle + cap;
    assert s == ReprPrefix + body + ReprSuffix;
    assert s[|ReprPrefix|..|s| - |ReprSuffix|] == body;
    assert body == v.name + (ReprMiddle + cap);
    IndexOfAt(v.name, ReprMiddle + cap, ',');
    assert body[..|v.name|] == v.name;
    assert body[|v.name|..|v.name| + |ReprMiddle|] == ReprMiddle;
    assert body[|v.name| + |ReprMiddle|..] == cap;
  }

  /** The test fixture: a van of capacity 500.0, which Python renders "500.0". */
  lemma ReprOfVan(showCapacity: real -> string)
    requires showCapacity(500.0) == "500.0"
    ensures Vehicle("Van", 500.0).name == "Van" && Vehicle("Van", 500.0).capacity == 500.0
    ensures Repr(Vehicle("Van", 500.0), showCapacity) == "'Vehicle(name=Van, capacity=500.0)'"
  {
  }
}
