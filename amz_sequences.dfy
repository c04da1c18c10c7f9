/** `amz_serializer.serialize_actual_sequences`: the third pass.

    The actual-sequences dictionary maps route id -> either a list of stop
    names (already converted) or a dictionary of maps stop id -> position
    in the visit order.  Every route of the second kind is replaced, for
    each of its inner maps in turn, by the stop ids of that map sorted by
    position; so the last inner map decides, and a route with no inner map
    is left as it was.  The loop assigns to keys that are already present,
    which leaves the keys and their order unchanged, and it keeps iterating
    over the inner maps of the value it started with.

    Python's `sorted` is stable; it is modelled by a stable insertion sort,
    and the lemmas show that one is the only stable sort. */
module AmzSequences {
  import opened Errors
  import opened Dicts

  /** A value of the actual-sequences dictionary. */
  datatype SequenceEntry = Names(names: seq<string>) | Indexed(maps: Dict<Dict<int>>)

  type SequencesDict = Dict<SequenceEntry>

  ghost predicate Sorted(s: Dict<int>) {
    forall i, j :: 0 <= i < j < |s| ==> s[i].value <= s[j].value
  }

  /** The entries of `s` whose value is `v`, in their order. */
  function WithValue(s: Dict<int>, v: int): (r: Dict<int>)
    ensures |r| <= |s|
  {
    if s == [] then []
    else (if s[0].value == v then [s[0]] else []) + WithValue(s[1..], v)
  }

  /** Inserts `e` before the first entry whose value is at least its own. */
  function Insert(e: Entry<int>, s: Dict<int>): Dict<int> {
    if s == [] then [e]
    else if e.value <= s[0].value then [e] + s
    else [s[0]] + Insert(e, s[1..])
  }

  /** `sorted(d.items(), key=lambda item: item[1])`. */
  function SortByValue(d: Dict<int>): Dict<int> {
    if d == [] then [] else Insert(d[0], SortByValue(d[1..]))
  }

  /** Insertion adds `e` and nothing else. */
  lemma {:induction false} InsertPermutes(e: Entry<int>, s: Dict<int>)
    ensures multiset(Insert(e, s)) == multiset(s) + multiset{e}
  {
    if s != [] && e.value > s[0].value {
      InsertPermutes(e, s[1..]);
      assert s == [s[0]] + s[1..];
    }
  }

  /** Insertion into a sorted sequence keeps it sorted. */
  lemma {:induction false} InsertSorted(e: Entry<int>, s: Dict<int>)
    requires Sorted(s)
    ensures Sorted(Insert(e, s))
  {
    if s != [] && e.value > s[0].value {
      InsertSorted(e, s[1..]);
      InsertPermutes(e, s[1..]);
      var r := Insert(e, s[1..]);
      forall j | 0 <= j < |r| ensures s[0].value <= r[j].value {
        assert r[j] in multiset(r);
        if r[j] != e {
          assert r[j] in multiset(s[1..]);
          var i :| 0 <= i < |s[1..]| && s[1..][i] == r[j];
          assert s[i + 1] == r[j];
        }
      }
      var t := [s[0]] + r;
      forall i, j | 0 <= i < j < |t| ensures t[i].value <= t[j].value {
        if i > 0 {
          assert t[i] == r[i - 1] && t[j] == r[j - 1];
        } else {
          assert t[j] == r[j - 1];
        }
      }
    }
  }

  /** Insertion keeps, for every value, the order of the entries with that
      value, and puts `e` first among them. */
  lemma {:induction false} InsertWithValue(e: Entry<int>, s: Dict<int>, v: int)
    ensures WithValue(Insert(e, s), v) == (if e.value == v then [e] else []) + WithValue(s, v)
  {
    if s == [] {
      assert WithValue([e], v) == (if e.value == v then [e] else []) + WithValue([], v);
    } else if e.value <= s[0].value {
      assert ([e] + s)[1..] == s;
    } else {
      var r := Insert(e, s[1..]);
      var w := WithValue(s[1..], v);
      var head: Dict<int> := if s[0].value == v then [s[0]] else [];
      var first: Dict<int> := if e.value == v then [e] else [];
      InsertWithValue(e, s[1..], v);
      assert ([s[0]] + r)[0] == s[0] && ([s[0]] + r)[1..] == r;
      assert WithValue(Insert(e, s), v) == head + (first + w);
      assert WithValue(s, v) == head + w;
      // e goes after s[0], so at most one of them has value v
      if head == [] {
        assert head + (first + w) == first + (head + w);
      } else {
        assert first == [];
        assert head + (first + w) == first + (head + w);
      }
    }
  }

  /** The sort orders the entries by value and is a permutation of them. */
  lemma {:induction false} SortByValueSorted(d: Dict<int>)
    ensures Sorted(SortByValue(d))
    ensures multiset(SortByValue(d)) == multiset(d)
  {
    if d != [] {
      SortByValueSorted(d[1..]);
      InsertSorted(d[0], SortByValue(d[1..]));
      InsertPermutes(d[0], SortByValue(d[1..]));
      assert d == [d[0]] + d[1..];
    }
  }

  /** The sort is stable: entries with equal values keep their order. */
  lemma {:induction false} SortByValueStable(d: Dict<int>, v: int)
    ensures WithValue(SortByValue(d), v) == WithValue(d, v)
  {
    if d != [] {
      SortByValueStable(d[1..], v);
      InsertWithValue(d[0], SortByValue(d[1..]), v);
    }
  }

  /** An entry of `s` with value `v` is in `WithValue(s, v)`. */
  lemma {:induction false} InWithValue(s: Dict<int>, i: nat)
    requires i < |s|
    ensures s[i] in WithValue(s, s[i].value)
  {
    if i > 0 {
      InWithValue(s[1..], i - 1);
    }
  }

  /** Every entry of `WithValue(s, v)` is an entry of `s` with value `v`. */
  lemma {:induction false} WithValueIn(s: Dict<int>, v: int, x: Entry<int>)
    requires x in WithValue(s, v)
    ensures x in s && x.value == v
  {
    if s != [] && !(s[0].value == v && x == s[0]) {
      WithValueIn(s[1..], v, x);
    }
  }

  /** So the stable sort is the only stable sort: two sequences ordered by
      value that agree, value by value, on the order of their entries are
      equal. */
  lemma {:induction false} StableSortUnique(a: Dict<int>, b: Dict<int>)
    requires Sorted(a) && Sorted(b)
    requires forall v :: WithValue(a, v) == WithValue(b, v)
    ensures a == b
  {
    if a != [] && b != [] {
      var va, vb := a[0].value, b[0].value;
      InWithValue(a, 0);
      WithValueIn(b, va, a[0]);
      InWithValue(b, 0);
      WithValueIn(a, vb, b[0]);
      assert vb <= va by {
        var j :| 0 <= j < |b| && b[j] == a[0];
      }
      assert va <= vb by {
        var j :| 0 <= j < |a| && a[j] == b[0];
      }
      assert WithValue(a, va)[0] == a[0] && WithValue(b, va)[0] == b[0];
      forall v ensures WithValue(a[1..], v) == WithValue(b[1..], v) {
        var wa, wb := WithValue(a, v), WithValue(b, v);
        assert wa == wb;
        if va == v {
          assert wa == [a[0]] + WithValue(a[1..], v);
          assert wb == [b[0]] + WithValue(b[1..], v);
          assert wa[1..] == WithValue(a[1..], v) && wb[1..] == WithValue(b[1..], v);
        } else {
          assert vb != v;
          assert [] + WithValue(a[1..], v) == WithValue(a[1..], v);
          assert [] + WithValue(b[1..], v) == WithValue(b[1..], v);
          assert wa == WithValue(a[1..], v) && wb == WithValue(b[1..], v);
        }
      }
      assert Sorted(a[1..]) && Sorted(b[1..]);
      StableSortUnique(a[1..], b[1..]);
      assert a == [a[0]] + a[1..] && b == [b[0]] + b[1..];
    } else if a != [] {
      InWithValue(a, 0);
    } else if b != [] {
      InWithValue(b, 0);
    }
  }

  /** `list({k: v for k, v in sorted(ac_dict.items(), ...)}.keys())`. */
  function SequenceNames(acDict: Dict<int>): seq<string> {
    Keys(SortByValue(acDict))
  }

  /** The stop names are the map's stop ids, each as often as there. */
  lemma SequenceNamesPermutation(acDict: Dict<int>)
    ensures |SequenceNames(acDict)| == |acDict|
    ensures multiset(SequenceNames(acDict)) == multiset(Keys(acDict))
  {
    SortByValueSorted(acDict);
    assert |SortByValue(acDict)| == |multiset(SortByValue(acDict))| == |multiset(acDict)| == |acDict|;
    SortByValueKeys(acDict);
  }

  /** The stop names are listed in the order of their positions. */
  lemma SequenceNamesOrdered(acDict: Dict<int>)
    requires DistinctKeys(acDict)
    ensures forall i, j :: 0 <= i < j < |SequenceNames(acDict)| ==>
              Lookup(acDict, SequenceNames(acDict)[i]).Ok? && Lookup(acDict, SequenceNames(acDict)[j]).Ok? &&
              Lookup(acDict, SequenceNames(acDict)[i]).value <= Lookup(acDict, SequenceNames(acDict)[j]).value
  {
    var s := SortByValue(acDict);
    var names := SequenceNames(acDict);
    SortByValueSorted(acDict);
    forall i | 0 <= i < |s| ensures Lookup(acDict, s[i].key) == Ok(s[i].value) {
      assert s[i] in multiset(acDict);
      var k :| 0 <= k < |acDict| && acDict[k] == s[i];
      LookupAt(acDict, k);
    }
    forall i, j | 0 <= i < j < |names|
      ensures Lookup(acDict, names[i]).Ok? && Lookup(acDict, names[j]).Ok?
      ensures Lookup(acDict, names[i]).value <= Lookup(acDict, names[j]).value
    {
      assert names[i] == s[i].key && names[j] == s[j].key;
      assert s[i].value <= s[j].value;
    }
  }

  /** Insertion adds the key of `e` to the keys and nothing else. */
  lemma {:induction false} InsertKeys(e: Entry<int>, s: Dict<int>)
    ensures multiset(Keys(Insert(e, s))) == multiset(Keys(s)) + multiset{e.key}
  {
    if s != [] && e.value > s[0].value {
      InsertKeys(e, s[1..]);
      KeysAppend([s[0]], Insert(e, s[1..]));
      KeysAppend([s[0]], s[1..]);
      assert s == [s[0]] + s[1..];
    } else if s != [] {
      KeysAppend([e], s);
    }
  }

  /** The sort puts out the keys it was given. */
  lemma {:induction false} SortByValueKeys(d: Dict<int>)
    ensures multiset(Keys(SortByValue(d))) == multiset(Keys(d))
  {
    if d != [] {
      SortByValueKeys(d[1..]);
      InsertKeys(d[0], SortByValue(d[1..]));
      KeysAppend([d[0]], d[1..]);
      assert d == [d[0]] + d[1..];
    }
  }

  lemma {:induction false} KeysAppend<V>(a: Dict<V>, b: Dict<V>)
    ensures Keys(a + b) == Keys(a) + Keys(b)
  {
    if a != [] {
      KeysAppend(a[1..], b);
      assert (a + b)[1..] == a[1..] + b;
    }
  }

  /** What the pass leaves under one route id. */
  function ConvertSequence(e: SequenceEntry): SequenceEntry {
    match e
    case Names(_) => e
    case Indexed(maps) => if |maps| == 0 then e else Names(SequenceNames(maps[|maps| - 1].value))
  }

  /** The whole of `serialize_actual_sequences`. */
  function SequencesPass(d: SequencesDict): (r: SequencesDict)
    ensures |r| == |d|
  {
    seq(|d|, i requires 0 <= i < |d| => Entry(d[i].key, ConvertSequence(d[i].value)))
  }

  /** `serialize_actual_sequences(actual_sequences)`. */
  method SerializeActualSequences(d: SequencesDict) returns (out: SequencesDict)
    ensures out == SequencesPass(d)
  {
    out := d;
    var k := 0;
    while k < |d|
      invariant 0 <= k <= |d| && |out| == |d|
      invariant out[k..] == d[k..]
      invariant forall j :: 0 <= j < k ==> out[j] == Entry(d[j].key, ConvertSequence(d[j].value))
    {
      var routeId, routeDict := d[k].key, d[k].value;
      if routeDict.Names? {
        k := k + 1;
        continue;
      }
      var m := 0;
      while m < |routeDict.maps|
        invariant 0 <= m <= |routeDict.maps| && |out| == |d|
        invariant out[k + 1..] == d[k + 1..]
        invariant forall j :: 0 <= j < k ==> out[j] == Entry(d[j].key, ConvertSequence(d[j].value))
        invariant m == 0 ==> out[k] == d[k]
        invariant m > 0 ==> out[k] == Entry(routeId, Names(SequenceNames(routeDict.maps[m - 1].value)))
      {
        var acDict := routeDict.maps[m].value;
        var sequenceNames := Keys(SortByValue(acDict));
        out := out[k := Entry(routeId, Names(sequenceNames))];
        m := m + 1;
      }
      assert out[k..] == [out[k]] + d[k + 1..];
      k := k + 1;
    }
  }

  // ----- properties of the pass -----

  /** The route ids stay as they were; lists are left alone; every other
      route becomes the stop names of its last inner map, in the order of
      `SequenceNames` (see `SequenceNamesOrdered` and `SortByValueStable`),
      or stays as it was when it has none. */
  lemma SequencesPassSpec(d: SequencesDict)
    ensures SameKeys(SequencesPass(d), d)
    ensures forall i :: 0 <= i < |d| && d[i].value.Names? ==> SequencesPass(d)[i] == d[i]
    ensures forall i :: 0 <= i < |d| && d[i].value.Indexed? && d[i].value.maps == [] ==> SequencesPass(d)[i] == d[i]
    ensures forall i :: 0 <= i < |d| && d[i].value.Indexed? && d[i].value.maps != [] ==>
              var last := d[i].value.maps[|d[i].value.maps| - 1].value;
              SequencesPass(d)[i].value.Names? &&
              SequencesPass(d)[i].value.names == SequenceNames(last) &&
              |SequencesPass(d)[i].value.names| == |last| &&
              multiset(SequencesPass(d)[i].value.names) == multiset(Keys(last))
  {
    forall i | 0 <= i < |d| && d[i].value.Indexed? && d[i].value.maps != [] {
      SequenceNamesPermutation(d[i].value.maps[|d[i].value.maps| - 1].value);
    }
  }

  /** Converted routes are skipped, so a second run changes nothing. */
  lemma SequencesPassIdempotent(d: SequencesDict)
    ensures SequencesPass(SequencesPass(d)) == SequencesPass(d)
  {
  }

  /** The test data's shape: positions 2, 0, 1 give the stops in the order
      of their positions. */
  lemma SequenceNamesExample()
    ensures SequenceNames([Entry("AA", 2), Entry("BB", 0), Entry("CC", 1)]) == ["BB", "CC", "AA"]
  {
  }
}
