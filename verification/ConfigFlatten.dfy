/**
  A nested configuration becomes a list of `path=literal` overrides. Literals are opaque; a value that has
  none is an error.
 */
module ConfigFlatten {
  import opened Wrappers
  import opened StringOrder
  import opened Strings

  /** `Bad` is any value the source rejects, with its reason: nil, a map with other keys than strings, … */
  datatype Value = Leaf(literal: string) | Bad(reason: string) | Table(entries: map<string, Value>)

  // ---- keys in order ----

  /** The keys of a map in sorted order; there is only one such sequence. */
  ghost function SortedKeys(m: map<string, Value>): (keys: seq<string>)
    ensures Sorted(keys) && multiset(keys) == multiset(m.Keys)
  {
    Enumerable(m.Keys);
    var keys :| Sorted(keys) && multiset(keys) == multiset(m.Keys);
    keys
  }

  lemma Enumerable(s: set<string>)
    ensures exists keys :: Sorted(keys) && multiset(keys) == multiset(s)
  {
    var listed := Listed(s);
    assert Sorted(SortStrings(listed)) && multiset(SortStrings(listed)) == multiset(s);
  }

  method CollectKeys(m: map<string, Value>) returns (keys: seq<string>)
    ensures keys == SortedKeys(m)
  {
    hide SortStrings, Sorted;
    var listed: seq<string> := [];
    var left := m.Keys;
    while left != {}
      invariant left <= m.Keys && multiset(listed) == multiset(m.Keys - left)
      decreases |left|
    {
      var k :| k in left;
      assert m.Keys - (left - {k}) == (m.Keys - left) + {k};
      listed, left := listed + [k], left - {k};
    }
    assert m.Keys - {} == m.Keys;
    keys := SortStrings(listed);
    SortedIsUnique(keys, SortedKeys(m));
  }

  lemma KeysAreKeys(m: map<string, Value>)
    ensures forall k :: k in SortedKeys(m) <==> k in m
    ensures |SortedKeys(m)| == |m.Keys|
  {
    var keys := SortedKeys(m);
    forall k
      ensures k in keys <==> k in m
    {
      assert k in keys <==> k in multiset(keys);
    }
    assert |multiset(keys)| == |multiset(m.Keys)|;
  }

  // ---- flattening ----

  function Child(path: string, key: string): string {
    if path != "" then path + "." + key else key
  }

  ghost function Flatten(path: string, v: Value): Result<seq<string>, string>
    decreases v, 1, 0
  {
    match v
    case Bad(reason) => Err("config " + path + ": " + reason)
    case Leaf(literal) => Ok([path + "=" + literal])
    case Table(entries) => KeysAreKeys(entries); FlattenKeys(path, v, SortedKeys(entries))
  }

  ghost function FlattenKeys(path: string, v: Value, keys: seq<string>): Result<seq<string>, string>
    requires v.Table? && forall k <- keys :: k in v.entries
    decreases v, 0, |keys|
  {
    if keys == [] then
      Ok([])
    else
      Chain(Flatten(Child(path, keys[0]), v.entries[keys[0]]), FlattenKeys(path, v, keys[1..]))
  }

  /** The first error wins. */
  function Chain<T, E>(a: Result<seq<T>, E>, b: Result<seq<T>, E>): Result<seq<T>, E> {
    if a.Err? then a else if b.Err? then b else Ok(a.value + b.value)
  }

  lemma ChainIsAssociative<T, E>(a: Result<seq<T>, E>, b: Result<seq<T>, E>, c: Result<seq<T>, E>)
    ensures Chain(a, Chain(b, c)) == Chain(Chain(a, b), c)
    ensures Chain(Ok([]), a) == a == Chain(a, Ok([]))
  {
    if a.Ok? {
      assert [] + a.value == a.value == a.value + [];
      if b.Ok? && c.Ok? {
        assert a.value + b.value + c.value == a.value + (b.value + c.value);
      }
    }
  }

  lemma {:induction false} FlattenKeysAppend(path: string, v: Value, a: seq<string>, b: seq<string>)
    requires v.Table? && (forall k <- a + b :: k in v.entries)
    ensures forall k <- a :: k in v.entries
    ensures forall k <- b :: k in v.entries
    ensures FlattenKeys(path, v, a + b) == Chain(FlattenKeys(path, v, a), FlattenKeys(path, v, b))
    decreases |a|
  {
    forall k | k in a || k in b ensures k in v.entries { assert k in a + b; }
    if a == [] {
      assert a + b == b;
      ChainIsAssociative(FlattenKeys(path, v, b), Ok([]), Ok([]));
    } else {
      assert (a + b)[1..] == a[1..] + b && (a + b)[0] == a[0];
      FlattenKeysAppend(path, v, a[1..], b);
      ChainIsAssociative(Flatten(Child(path, a[0]), v.entries[a[0]]), FlattenKeys(path, v, a[1..]), FlattenKeys(path, v, b));
    }
  }

  /** flattenConfigValue. */
  method FlattenConfigValue(path: string, v: Value) returns (r: Result<seq<string>, string>)
    ensures r == Flatten(path, v)
    decreases v, 1
  {
    match v
    case Bad(reason) => r := Err("config " + path + ": " + reason);
    case Leaf(literal) => r := Ok([path + "=" + literal]);
    case Table(entries) => r := FlattenTable(path, v);
  }

  method FlattenTable(path: string, v: Value) returns (r: Result<seq<string>, string>)
    requires v.Table?
    ensures r == Flatten(path, v)
    decreases v, 0
  {
    hide Flatten, SortedKeys;
    KeysAreKeys(v.entries);
    var keys := CollectKeys(v.entries);
    var overrides: seq<string> := [];
    FlattenOfTable(path, v);
    assert keys[..0] == [];
    for i := 0 to |keys|
      invariant FlattenKeys(path, v, keys[..i]) == Ok(overrides)
    {
      var flattened := FlattenConfigValue(Child(path, keys[i]), v.entries[keys[i]]);
      NextKey(path, v, keys, i, overrides);
      if flattened.Err? {
        return flattened;
      }
      overrides := overrides + flattened.value;
    }
    assert keys[..|keys|] == keys;
    return Ok(overrides);
  }

  lemma FlattenOfTable(path: string, v: Value)
    requires v.Table?
    ensures forall k <- SortedKeys(v.entries) :: k in v.entries
    ensures Flatten(path, v) == FlattenKeys(path, v, SortedKeys(v.entries))
  {
    KeysAreKeys(v.entries);
  }

  lemma NextKey(path: string, v: Value, keys: seq<string>, i: nat, done: seq<string>)
    requires v.Table? && (forall k <- keys :: k in v.entries) && i < |keys|
    requires FlattenKeys(path, v, keys[..i]) == Ok(done)
    ensures var next := Flatten(Child(path, keys[i]), v.entries[keys[i]]);
      && (next.Err? ==> FlattenKeys(path, v, keys) == next)
      && (next.Ok? ==> FlattenKeys(path, v, keys[..i + 1]) == Ok(done + next.value))
  {
    hide Flatten;
    var key := [keys[i]];
    assert keys[..i + 1] == keys[..i] + key && keys == keys[..i] + keys[i..] && keys[i..][1..] == keys[i + 1..];
    FlattenKeysAppend(path, v, keys[..i], key);
    FlattenKeysAppend(path, v, keys[..i], keys[i..]);
    assert key[1..] == [] && key[0] == keys[i];
    var next := Flatten(Child(path, keys[i]), v.entries[keys[i]]);
    ChainIsAssociative(next, Ok([]), Ok([]));
    assert FlattenKeys(path, v, key) == Chain(next, Ok([]));
  }

  /** flattenConfigOverrides. */
  method FlattenConfigOverrides(config: map<string, Value>) returns (r: Result<seq<string>, string>)
    ensures r == Flatten("", Table(config))
  {
    if |config| == 0 {
      FlattenOfTable("", Table(config));
      KeysAreKeys(config);
      return Ok([]);
    }
    r := FlattenTable("", Table(config));
  }
}
