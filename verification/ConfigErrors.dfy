/** Which error a configuration that cannot be encoded gives: that of its first bad value, in path order. */
module ConfigErrors {
  import opened Wrappers
  import opened StringOrder
  import opened ConfigFlatten
  import opened ConfigTheorems

  /** Following the path through the tables leads to a value that has no literal. */
  ghost predicate BadAt(v: Value, path: seq<string>, reason: string)
    decreases |path|
  {
    if path == [] then v == Bad(reason)
    else v.Table? && path[0] in v.entries && BadAt(v.entries[path[0]], path[1..], reason)
  }

  /** The path as it is written: with dots, but none behind an empty beginning. */
  function PathText(base: string, path: seq<string>): string
    decreases |path|
  {
    if path == [] then base
    else PathText(if base == "" then path[0] else base + "." + path[0], path[1..])
  }

  ghost predicate NoneBefore(v: Value, path: seq<string>) {
    forall other, reason :: BadAt(v, other, reason) ==> other == path || ComesBefore(path, other)
  }

  ghost predicate NoneBeforeIn(v: Value, keys: seq<string>, path: seq<string>) {
    forall other, reason :: BadAt(v, other, reason) && other != [] && other[0] in keys ==> other == path || ComesBefore(path, other)
  }

  lemma BeforeBelow(k: string, a: seq<string>, b: seq<string>)
    requires ComesBefore(a, b)
    ensures ComesBefore([k] + a, [k] + b)
  {
    var n: nat :| PathBefore(a, b, n);
    assert ([k] + a)[..n + 1] == [k] + a[..n] && ([k] + b)[..n + 1] == [k] + b[..n];
    assert PathBefore([k] + a, [k] + b, n + 1);
  }

  lemma {:induction false} FirstBad(base: string, v: Value) returns (path: seq<string>, reason: string)
    requires Flatten(base, v).Err?
    ensures BadAt(v, path, reason) && NoneBefore(v, path)
    ensures Flatten(base, v).error == "config " + PathText(base, path) + ": " + reason
    decreases v, 1, 0
  {
    if v.Bad? {
      path, reason := [], v.reason;
    } else {
      FlattenOfTable(base, v);
      KeysAreKeys(v.entries);
      SortedKeysAreDistinct(v.entries);
      path, reason := FirstBadKey(base, v, SortedKeys(v.entries));
      forall other, r | BadAt(v, other, r)
        ensures other == path || ComesBefore(path, other)
      {
        assert other != [] && other[0] in SortedKeys(v.entries);
      }
    }
  }

  lemma {:induction false} FirstBadKey(base: string, v: Value, keys: seq<string>) returns (path: seq<string>, reason: string)
    requires v.Table? && (forall k <- keys :: k in v.entries) && Sorted(keys)
    requires forall i, j :: 0 <= i < j < |keys| ==> keys[i] != keys[j]
    requires FlattenKeys(base, v, keys).Err?
    ensures path != [] && path[0] in keys && BadAt(v, path, reason) && NoneBeforeIn(v, keys, path)
    ensures FlattenKeys(base, v, keys).error == "config " + PathText(base, path) + ": " + reason
    decreases v, 0, |keys|
  {
    var k := keys[0];
    var below := v.entries[k];
    if Flatten(Child(base, k), below).Err? {
      var rest;
      rest, reason := FirstBad(Child(base, k), below);
      path := [k] + rest;
      assert path[1..] == rest;
      forall other, r | BadAt(v, other, r) && other != [] && other[0] in keys
        ensures other == path || ComesBefore(path, other)
      {
        if other[0] == k {
          assert BadAt(below, other[1..], r) && other == [k] + other[1..];
          if other[1..] != rest {
            BeforeBelow(k, rest, other[1..]);
          }
        } else {
          EarlierKey(keys, 0, path, other);
        }
      }
    } else {
      path, reason := FirstBadKey(base, v, keys[1..]);
      FlattensIffEncodable(Child(base, k), below);
      forall other, r | BadAt(v, other, r) && other != [] && other[0] in keys
        ensures other == path || ComesBefore(path, other)
      {
        if other[0] == k {
          BadIsNotEncodable(below, other[1..], r);
        } else {
          assert other[0] in keys[1..];
        }
      }
    }
  }

  lemma EarlierKey(keys: seq<string>, i: nat, a: seq<string>, b: seq<string>)
    requires Sorted(keys) && i < |keys| && a != [] && a[0] == keys[i] && b != [] && b[0] != a[0] && b[0] in keys[i..]
    ensures ComesBefore(a, b)
  {
    var j :| 0 <= j < |keys[i..]| && keys[i..][j] == b[0];
    assert keys[i + j] == b[0];
    assert PathBefore(a, b, 0);
  }

  lemma {:induction false} BadIsNotEncodable(v: Value, path: seq<string>, reason: string)
    requires BadAt(v, path, reason)
    ensures !Encodable(v)
    decreases |path|
  {
    if path != [] {
      BadIsNotEncodable(v.entries[path[0]], path[1..], reason);
    }
  }

  /**
    The error of a configuration: it names a path to a value that has no literal, with the value's reason,
    and every other such value comes later in path order, whatever order the maps are walked in.
   */
  lemma FirstErrorIsReported(config: map<string, Value>)
    requires !Encodable(Table(config))
    ensures exists path, reason ::
      && BadAt(Table(config), path, reason) && NoneBefore(Table(config), path)
      && Flatten("", Table(config)) == Err("config " + PathText("", path) + ": " + reason)
  {
    FlattensIffEncodable("", Table(config));
    var path, reason := FirstBad("", Table(config));
  }
}
