/** Python dictionaries as the serializer sees them.

    A dict keeps its keys in insertion order, and the serializer only ever
    assigns to keys that are already present, which leaves that order as it
    was.  A dictionary is therefore a sequence of entries; assigning to the
    key of entry i replaces entry i's value.  The dictionaries come from
    JSON objects, so their keys are distinct. */
module Dicts {
  import opened Errors

  datatype Entry<V> = Entry(key: string, value: V)

  type Dict<V> = seq<Entry<V>>

  /** `list(d)`: the keys in order. */
  function Keys<V>(d: Dict<V>): (ks: seq<string>)
    ensures |ks| == |d|
    ensures forall i :: 0 <= i < |d| ==> ks[i] == d[i].key
  {
    if d == [] then [] else [d[0].key] + Keys(d[1..])
  }

  /** `a` and `b` have the same keys in the same order. */
  predicate SameKeys<V>(a: Dict<V>, b: Dict<V>) {
    |a| == |b| && forall i :: 0 <= i < |a| ==> a[i].key == b[i].key
  }

  lemma SameKeysSameKeyList<V>(a: Dict<V>, b: Dict<V>)
    requires SameKeys(a, b)
    ensures Keys(a) == Keys(b)
  {
  }

  /** The keys of a dictionary are distinct. */
  ghost predicate DistinctKeys<V>(d: Dict<V>) {
    forall i, j :: 0 <= i < j < |d| ==> d[i].key != d[j].key
  }

  /** `d[k]`: the value stored under `k`, or the KeyError. */
  function Lookup<V>(d: Dict<V>, k: string): (r: Result<V>)
    ensures r.Err? <==> k !in Keys(d)
    ensures r.Err? ==> r.error == MissingKey(k)
    ensures r.Ok? ==> exists i :: 0 <= i < |d| && d[i].key == k && d[i].value == r.value
  {
    if d == [] then Err(MissingKey(k))
    else if d[0].key == k then Ok(d[0].value)
    else Lookup(d[1..], k)
  }

  /** With distinct keys, the value under the key of entry `i` is entry
      `i`'s value. */
  lemma {:induction false} LookupAt<V>(d: Dict<V>, i: nat)
    requires DistinctKeys(d) && i < |d|
    ensures Lookup(d, d[i].key) == Ok(d[i].value)
  {
    if i > 0 {
      assert d[0].key != d[i].key;
      LookupAt(d[1..], i - 1);
    }
  }

  /** Result of a serializer pass: the dictionary as the pass leaves it, and
      the exception it raised, if any.  When a pass raises, the writes it
      made before raising stay in the dictionary. */
  datatype Pass<T> = Pass(dict: T, error: Option<Error>)

  /** Index of the first entry on which `step` raises, `|d|` if none. */
  function FirstFailure<V>(step: (string, V) -> Pass<V>, d: Dict<V>): (k: nat)
    ensures k <= |d|
    ensures forall j :: 0 <= j < k ==> step(d[j].key, d[j].value).error.None?
    ensures k < |d| ==> step(d[k].key, d[k].value).error.Some?
  {
    if d == [] then 0
    else if step(d[0].key, d[0].value).error.Some? then 0
    else 1 + FirstFailure(step, d[1..])
  }

  /** `for key, value in d.items(): d[key] = step(key, value)`, where a step
      that raises has still done its own writes into `value`, and the loop
      ends with that step's exception.  What the pass computes is stated by
      `PassEachSpec`. */
  function PassEach<V>(step: (string, V) -> Pass<V>, d: Dict<V>): Pass<Dict<V>> {
    if d == [] then Pass([], None)
    else
      var first := step(d[0].key, d[0].value);
      var head := Entry(d[0].key, first.dict);
      if first.error.Some? then Pass([head] + d[1..], first.error)
      else
        var rest := PassEach(step, d[1..]);
        Pass([head] + rest.dict, rest.error)
  }

  /** The pass keeps the keys and their order; every entry up to and
      including the first failing one holds what its step left, the entries
      after it are as they were, and the pass raises exactly when a step
      does, with that step's exception. */
  lemma {:induction false} PassEachSpec<V>(step: (string, V) -> Pass<V>, d: Dict<V>)
    ensures SameKeys(PassEach(step, d).dict, d)
    ensures forall j :: 0 <= j < |d| && j <= FirstFailure(step, d) ==>
              PassEach(step, d).dict[j].value == step(d[j].key, d[j].value).dict
    ensures forall j :: FirstFailure(step, d) < j < |d| ==> PassEach(step, d).dict[j] == d[j]
    ensures PassEach(step, d).error.None? <==> FirstFailure(step, d) == |d|
    ensures FirstFailure(step, d) < |d| ==>
              PassEach(step, d).error == step(d[FirstFailure(step, d)].key, d[FirstFailure(step, d)].value).error
  {
    if d != [] {
      var first := step(d[0].key, d[0].value);
      var head := Entry(d[0].key, first.dict);
      if first.error.Some? {
        assert PassEach(step, d).dict == [head] + d[1..];
      } else {
        PassEachSpec(step, d[1..]);
        var rest := PassEach(step, d[1..]);
        assert PassEach(step, d).dict == [head] + rest.dict;
        assert FirstFailure(step, d) == 1 + FirstFailure(step, d[1..]);
      }
    }
  }

  /** A pass whose step can be rerun on its own output without effect can
      itself be rerun without effect, whether or not it raised. */
  lemma {:induction false} PassEachIdempotent<V>(step: (string, V) -> Pass<V>, d: Dict<V>)
    requires forall key, v :: step(key, step(key, v).dict) == step(key, v)
    ensures PassEach(step, PassEach(step, d).dict) == PassEach(step, d)
  {
    if d != [] {
      var first := step(d[0].key, d[0].value);
      var head := Entry(d[0].key, first.dict);
      assert step(head.key, head.value) == first;
      if first.error.Some? {
        assert ([head] + d[1..])[1..] == d[1..];
      } else {
        var rest := PassEach(step, d[1..]);
        PassEachIdempotent(step, d[1..]);
        assert ([head] + rest.dict)[1..] == rest.dict;
      }
    }
  }

  /** The state a loop that stopped at entry `k` has built, with `step`
      raising there, is the pass's result. */
  lemma PassEachStopsAt<V>(step: (string, V) -> Pass<V>, d: Dict<V>, k: nat, out: Dict<V>)
    requires k < |d| == |out|
    requires forall j :: 0 <= j < k ==> step(d[j].key, d[j].value).error.None?
    requires step(d[k].key, d[k].value).error.Some?
    requires forall j :: 0 <= j <= k ==> out[j] == Entry(d[j].key, step(d[j].key, d[j].value).dict)
    requires out[k + 1..] == d[k + 1..]
    ensures PassEach(step, d) == Pass(out, step(d[k].key, d[k].value).error)
  {
    PassEachSpec(step, d);
    var r := PassEach(step, d);
    assert FirstFailure(step, d) == k;
    forall j | k < j < |d| ensures r.dict[j] == out[j] {
      assert out[j] == out[k + 1..][j - k - 1];
    }
    assert r.dict == out;
  }

  /** The state a loop that ran to the end has built is the pass's result. */
  lemma PassEachCompletes<V>(step: (string, V) -> Pass<V>, d: Dict<V>, out: Dict<V>)
    requires |out| == |d|
    requires forall j :: 0 <= j < |d| ==> step(d[j].key, d[j].value).error.None?
    requires forall j :: 0 <= j < |d| ==> out[j] == Entry(d[j].key, step(d[j].key, d[j].value).dict)
    ensures PassEach(step, d) == Pass(out, None)
  {
    PassEachSpec(step, d);
    var r := PassEach(step, d);
    assert FirstFailure(step, d) == |d|;
    assert r.dict == out;
  }

  /** When the pass raises at an entry whose step made no writes, that entry
      and all later ones are as they were, the earlier ones hold what their
      steps left, and the failing step's exception is the pass's. */
  lemma PassEachFails<V>(step: (string, V) -> Pass<V>, d: Dict<V>)
    requires PassEach(step, d).error.Some?
    requires FirstFailure(step, d) < |d| ==>
             step(d[FirstFailure(step, d)].key, d[FirstFailure(step, d)].value).dict == d[FirstFailure(step, d)].value
    ensures FirstFailure(step, d) < |d| && |PassEach(step, d).dict| == |d|
    ensures PassEach(step, d).error == step(d[FirstFailure(step, d)].key, d[FirstFailure(step, d)].value).error
    ensures forall k :: 0 <= k < FirstFailure(step, d) ==>
              PassEach(step, d).dict[k] == Entry(d[k].key, step(d[k].key, d[k].value).dict)
    ensures forall k :: FirstFailure(step, d) <= k < |d| ==> PassEach(step, d).dict[k] == d[k]
  {
    PassEachSpec(step, d);
  }
}
