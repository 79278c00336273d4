/** Re-inserting every override at its path rebuilds the configuration, without its empty tables. */
module ConfigTheorems {
  import opened Wrappers
  import opened StringOrder
  import opened ConfigFlatten

  datatype Entry = Entry(path: seq<string>, literal: string)

  /** Without the two characters that structure an override. */
  ghost predicate Clean(k: string) {
    '.' !in k && '=' !in k
  }

  /** Every leaf has a literal. */
  ghost predicate Encodable(v: Value) {
    match v
    case Table(entries) => forall k :: k in entries ==> Encodable(entries[k])
    case Leaf(_) => true
    case Bad(_) => false
  }

  ghost predicate HasLeaf(v: Value) {
    match v
    case Table(entries) => exists k :: k in entries && HasLeaf(entries[k])
    case _ => true
  }

  /** Every key that leads to a leaf is clean. */
  ghost predicate CleanKeys(v: Value) {
    match v
    case Table(entries) => forall k :: k in entries && HasLeaf(entries[k]) ==> Clean(k) && CleanKeys(entries[k])
    case _ => true
  }

  /** An empty key at the top holds a table with a leaf. */
  ghost predicate EmptyTop(config: map<string, Value>) {
    "" in config && config[""].Table? && HasLeaf(config[""])
  }

  /** A value without the tables that hold no leaf. */
  ghost function Prune(v: Value): Value
    decreases v, 1
  {
    if v.Table? then Table(PruneEntries(v)) else v
  }

  ghost function PruneEntries(v: Value): map<string, Value>
    requires v.Table?
    decreases v, 0
  {
    map k | k in v.entries && HasLeaf(v.entries[k]) :: Prune(v.entries[k])
  }

  // ---- when flattening succeeds ----

  lemma {:induction false} FlattensIffEncodable(path: string, v: Value)
    ensures Flatten(path, v).Ok? <==> Encodable(v)
    decreases v, 1, 0
  {
    if v.Table? {
      FlattenOfTable(path, v);
      KeysAreKeys(v.entries);
      KeysFlattenIffEncodable(path, v, SortedKeys(v.entries));
    }
  }

  lemma {:induction false} KeysFlattenIffEncodable(path: string, v: Value, keys: seq<string>)
    requires v.Table? && forall k <- keys :: k in v.entries
    ensures FlattenKeys(path, v, keys).Ok? <==> forall k <- keys :: Encodable(v.entries[k])
    decreases v, 0, |keys|
  {
    if keys != [] {
      FlattensIffEncodable(Child(path, keys[0]), v.entries[keys[0]]);
      KeysFlattenIffEncodable(path, v, keys[1..]);
      assert keys == [keys[0]] + keys[1..];
    }
  }

  // ---- the entries behind the overrides ----

  ghost function Entries(path: seq<string>, v: Value): seq<Entry>
    decreases v, 1, 0
  {
    match v
    case Bad(_) => []
    case Leaf(literal) => [Entry(path, literal)]
    case Table(entries) => KeysAreKeys(entries); EntriesOf(path, v, SortedKeys(entries))
  }

  ghost function EntriesOf(path: seq<string>, v: Value, keys: seq<string>): seq<Entry>
    requires v.Table? && forall k <- keys :: k in v.entries
    decreases v, 0, |keys|
  {
    if keys == [] then [] else Entries(path + [keys[0]], v.entries[keys[0]]) + EntriesOf(path, v, keys[1..])
  }

  function JoinDots(path: seq<string>): string {
    if path == [] then "" else if |path| == 1 then path[0] else path[0] + "." + JoinDots(path[1..])
  }

  function Text(e: Entry): string {
    JoinDots(e.path) + "=" + e.literal
  }

  function Texts(es: seq<Entry>): (r: seq<string>)
    ensures |r| == |es|
  {
    seq(|es|, i requires 0 <= i < |es| => Text(es[i]))
  }

  ghost predicate CleanPath(path: seq<string>) {
    forall k <- path :: Clean(k)
  }

  lemma {:induction false} JoinIsChild(path: seq<string>, k: string)
    requires path != [] && path[0] != ""
    ensures JoinDots(path) != "" && JoinDots(path + [k]) == Child(JoinDots(path), k)
    decreases |path|
  {
    JoinAppend(path, k);
  }

  lemma {:induction false} JoinAppend(path: seq<string>, k: string)
    requires path != []
    ensures JoinDots(path + [k]) == JoinDots(path) + "." + k
    decreases |path|
  {
    assert (path + [k])[1..] == path[1..] + [k];
    if |path| > 1 {
      JoinAppend(path[1..], k);
      assert path[0] + "." + (JoinDots(path[1..]) + "." + k) == (path[0] + "." + JoinDots(path[1..])) + "." + k;
    } else {
      assert path[1..] + [k] == [k];
    }
  }

  /** The overrides are the entries, written out, below any key that is not empty. */
  lemma {:induction false} OverridesAreEntries(path: seq<string>, v: Value)
    requires Encodable(v) && path != [] && path[0] != ""
    ensures Flatten(JoinDots(path), v) == Ok(Texts(Entries(path, v)))
    decreases v, 1, 0
  {
    if v.Table? {
      FlattenOfTable(JoinDots(path), v);
      KeysAreKeys(v.entries);
      OverridesOfKeys(path, v, SortedKeys(v.entries));
    } else {
      assert Texts(Entries(path, v)) == [Text(Entry(path, v.literal))];
    }
  }

  lemma {:induction false} OverridesOfKeys(path: seq<string>, v: Value, keys: seq<string>)
    requires v.Table? && Encodable(v) && path != [] && path[0] != ""
    requires forall k <- keys :: k in v.entries
    ensures FlattenKeys(JoinDots(path), v, keys) == Ok(Texts(EntriesOf(path, v, keys)))
    decreases v, 0, |keys|
  {
    if keys != [] {
      var k := keys[0];
      JoinIsChild(path, k);
      OverridesAreEntries(path + [k], v.entries[k]);
      OverridesOfKeys(path, v, keys[1..]);
      TextsAppend(Entries(path + [k], v.entries[k]), EntriesOf(path, v, keys[1..]));
    }
  }

  /** Where there is no leaf there is no override. */
  lemma {:induction false} NoLeafNoOverride(path: string, v: Value)
    requires Encodable(v) && !HasLeaf(v)
    ensures Flatten(path, v) == Ok([])
    decreases v, 1, 0
  {
    FlattenOfTable(path, v);
    KeysAreKeys(v.entries);
    NoLeafInKeys(path, v, SortedKeys(v.entries));
  }

  lemma {:induction false} NoLeafInKeys(path: string, v: Value, keys: seq<string>)
    requires v.Table? && Encodable(v) && !HasLeaf(v) && forall k <- keys :: k in v.entries
    ensures FlattenKeys(path, v, keys) == Ok([])
    decreases v, 0, |keys|
  {
    if keys != [] {
      NoLeafNoOverride(Child(path, keys[0]), v.entries[keys[0]]);
      NoLeafInKeys(path, v, keys[1..]);
      ChainIsAssociative(FlattenKeys(path, v, keys[1..]), Ok([]), Ok([]));
    }
  }

  /** The value of one key of the configuration. */
  lemma OverridesOfTopKey(config: map<string, Value>, k: string)
    requires Encodable(Table(config)) && !EmptyTop(config) && k in config
    ensures Flatten(k, config[k]) == Ok(Texts(Entries([k], config[k])))
  {
    assert JoinDots([k]) == k;
    if k != "" {
      OverridesAreEntries([k], config[k]);
    } else if config[k].Table? {
      NoLeafNoOverride(k, config[k]);
      NoEntriesIffNoLeaf([k], config[k]);
    } else {
      assert Texts(Entries([k], config[k])) == [Text(Entry([k], config[k].literal))];
    }
  }

  lemma {:induction false} OverridesOfTopKeys(config: map<string, Value>, keys: seq<string>)
    requires Encodable(Table(config)) && !EmptyTop(config) && forall k <- keys :: k in config
    ensures FlattenKeys("", Table(config), keys) == Ok(Texts(EntriesOf([], Table(config), keys)))
    decreases |keys|
  {
    hide Flatten, Entries, Encodable;
    if keys != [] {
      var k := keys[0];
      assert [] + [k] == [k];
      OverridesOfTopKey(config, k);
      OverridesOfTopKeys(config, keys[1..]);
      TextsAppend(Entries([k], config[k]), EntriesOf([], Table(config), keys[1..]));
    }
  }

  lemma OverridesOfConfig(config: map<string, Value>)
    requires Encodable(Table(config)) && !EmptyTop(config)
    ensures Flatten("", Table(config)) == Ok(Texts(Entries([], Table(config))))
  {
    hide Encodable, EmptyTop, FlattenKeys, EntriesOf;
    FlattenOfTable("", Table(config));
    EntriesOfTable([], Table(config));
    OverridesOfTopKeys(config, SortedKeys(config));
  }

  lemma TextsAppend(a: seq<Entry>, b: seq<Entry>)
    ensures Texts(a + b) == Texts(a) + Texts(b)
  {
  }

  // ---- reading an override ----

  /** The text in front of the first `c`. */
  function Until(s: string, c: char): (r: string)
    ensures |r| <= |s| && (c in s ==> |r| < |s|)
  {
    if s == "" || s[0] == c then "" else [s[0]] + Until(s[1..], c)
  }

  function SplitDots(s: string): (path: seq<string>)
    ensures path != []
    decreases |s|
  {
    if '.' in s then [Until(s, '.')] + SplitDots(s[|Until(s, '.')| + 1..]) else [s]
  }

  function Decode(s: string): (e: Entry)
    ensures e.path != []
  {
    var path := Until(s, '=');
    Entry(SplitDots(path), if |path| < |s| then s[|path| + 1..] else "")
  }

  lemma {:induction false} UntilOf(a: string, c: char, b: string)
    requires c !in a
    ensures Until(a + [c] + b, c) == a && (a + [c] + b)[|a| + 1..] == b
  {
    if a != "" {
      assert (a + [c] + b)[1..] == a[1..] + [c] + b;
      UntilOf(a[1..], c, b);
      assert a == [a[0]] + a[1..];
    } else {
      assert a + [c] + b == [c] + b;
    }
  }

  lemma SplitAtFirst(key: string, rest: string)
    requires '.' !in key
    ensures SplitDots(key + "." + rest) == [key] + SplitDots(rest)
  {
    hide Until;
    UntilOf(key, '.', rest);
    assert (key + "." + rest)[|key|] == '.';
  }

  lemma JoinStep(path: seq<string>)
    requires |path| > 1
    ensures JoinDots(path) == path[0] + "." + JoinDots(path[1..])
  {
  }

  lemma SplitOfOne(key: string)
    requires '.' !in key
    ensures JoinDots([key]) == key && SplitDots(key) == [key]
  {
  }

  lemma NoEqualsSign(key: string, rest: string)
    requires '=' !in key && '=' !in rest
    ensures '=' !in key + "." + rest
  {
  }

  lemma {:induction false} SplitUndoesJoin(path: seq<string>)
    requires path != [] && CleanPath(path)
    ensures SplitDots(JoinDots(path)) == path && '=' !in JoinDots(path)
  {
    hide JoinDots, SplitDots;
    assert Clean(path[0]);
    if |path| == 1 {
      assert path == [path[0]];
      SplitOfOne(path[0]);
    } else {
      SplitUndoesJoin(path[1..]);
      JoinStep(path);
      SplitAtFirst(path[0], JoinDots(path[1..]));
      NoEqualsSign(path[0], JoinDots(path[1..]));
      assert path == [path[0]] + path[1..];
    }
  }

  lemma DecodeUndoesText(e: Entry)
    requires e.path != [] && CleanPath(e.path)
    ensures Decode(Text(e)) == e
  {
    SplitUndoesJoin(e.path);
    UntilOf(JoinDots(e.path), '=', e.literal);
  }

  // ---- re-inserting ----

  function Below(t: map<string, Value>, k: string): map<string, Value> {
    if k in t && t[k].Table? then t[k].entries else map[]
  }

  function Put(t: map<string, Value>, path: seq<string>, literal: string): map<string, Value>
    requires path != []
    decreases |path|
  {
    if |path| == 1 then t[path[0] := Leaf(literal)]
    else t[path[0] := Table(Put(Below(t, path[0]), path[1..], literal))]
  }

  function PutAll(t: map<string, Value>, es: seq<Entry>): map<string, Value>
    requires forall e <- es :: e.path != []
    decreases |es|
  {
    if es == [] then t else PutAll(Put(t, es[0].path, es[0].literal), es[1..])
  }

  lemma {:induction false} PutAllAppend(t: map<string, Value>, a: seq<Entry>, b: seq<Entry>)
    requires forall e <- a + b :: e.path != []
    ensures (forall e <- a :: e.path != []) && (forall e <- b :: e.path != [])
    ensures PutAll(t, a + b) == PutAll(PutAll(t, a), b)
    decreases |a|
  {
    forall e | e in a || e in b ensures e.path != [] { assert e in a + b; }
    if a == [] {
      assert a + b == b;
    } else {
      assert (a + b)[1..] == a[1..] + b;
      PutAllAppend(Put(t, a[0].path, a[0].literal), a[1..], b);
    }
  }

  /** The entries of a value one level further down. */
  function Under(k: string, es: seq<Entry>): (r: seq<Entry>)
    ensures |r| == |es| && forall e <- r :: e.path != []
  {
    if es == [] then [] else [Entry([k] + es[0].path, es[0].literal)] + Under(k, es[1..])
  }

  lemma {:induction false} PutUnder(t: map<string, Value>, k: string, es: seq<Entry>)
    requires forall e <- es :: e.path != []
    ensures PutAll(t, Under(k, es)) == if es == [] then t else t[k := Table(PutAll(Below(t, k), es))]
    decreases |es|
  {
    if es != [] {
      var e := es[0];
      var u := Put(t, [k] + e.path, e.literal);
      assert ([k] + e.path)[1..] == e.path;
      assert u == t[k := Table(Put(Below(t, k), e.path, e.literal))];
      assert Under(k, es)[1..] == Under(k, es[1..]);
      PutUnder(u, k, es[1..]);
      assert t[k := Table(Put(Below(t, k), e.path, e.literal))][k := Table(PutAll(Below(t, k), es))]
          == t[k := Table(PutAll(Below(t, k), es))];
    }
  }

  lemma {:induction false} UnderAppend(k: string, a: seq<Entry>, b: seq<Entry>)
    ensures Under(k, a + b) == Under(k, a) + Under(k, b)
  {
    if a == [] {
      assert a + b == b;
    } else {
      assert (a + b)[1..] == a[1..] + b;
      UnderAppend(k, a[1..], b);
    }
  }

  /** Entries collected under a longer path are the entries moved down. */
  lemma {:induction false} EntriesMoveDown(k: string, path: seq<string>, v: Value)
    ensures Entries([k] + path, v) == Under(k, Entries(path, v))
    decreases v, 1, 0
  {
    if v.Table? {
      KeysAreKeys(v.entries);
      KeysMoveDown(k, path, v, SortedKeys(v.entries));
    }
  }

  lemma {:induction false} KeysMoveDown(k: string, path: seq<string>, v: Value, keys: seq<string>)
    requires v.Table? && forall j <- keys :: j in v.entries
    ensures EntriesOf([k] + path, v, keys) == Under(k, EntriesOf(path, v, keys))
    decreases v, 0, |keys|
  {
    if keys != [] {
      var j := keys[0];
      assert ([k] + path) + [j] == [k] + (path + [j]);
      EntriesMoveDown(k, path + [j], v.entries[j]);
      KeysMoveDown(k, path, v, keys[1..]);
      UnderAppend(k, Entries(path + [j], v.entries[j]), EntriesOf(path, v, keys[1..]));
    }
  }

  /** Every entry of a value lies under the value's path, and only a leaf lies exactly there. */
  lemma {:induction false} EntriesLieBelow(path: seq<string>, v: Value)
    ensures forall e <- Entries(path, v) :: path <= e.path && (v.Table? ==> |path| < |e.path|)
    ensures Encodable(v) && CleanKeys(v) && CleanPath(path) ==> forall e <- Entries(path, v) :: CleanPath(e.path)
    decreases v, 1, 0
  {
    if v.Table? {
      KeysAreKeys(v.entries);
      KeysLieBelow(path, v, SortedKeys(v.entries));
    }
  }

  lemma {:induction false} KeysLieBelow(path: seq<string>, v: Value, keys: seq<string>)
    requires v.Table? && forall k <- keys :: k in v.entries
    ensures forall e <- EntriesOf(path, v, keys) :: |path| < |e.path| && path <= e.path && e.path[|path|] in keys
    ensures Encodable(v) && CleanKeys(v) && CleanPath(path) ==> forall e <- EntriesOf(path, v, keys) :: CleanPath(e.path)
    decreases v, 0, |keys|
  {
    if keys != [] {
      var k := keys[0];
      EntriesLieBelow(path + [k], v.entries[k]);
      KeysLieBelow(path, v, keys[1..]);
      forall e | e in Entries(path + [k], v.entries[k])
        ensures |path| < |e.path| && path <= e.path && e.path[|path|] == k
      {
        assert path + [k] <= e.path && e.path[|path|] == (path + [k])[|path|];
      }
      if Encodable(v) && !HasLeaf(v.entries[k]) {
        NoEntriesIffNoLeaf(path + [k], v.entries[k]);
      }
    }
  }

  lemma {:induction false} NoEntriesIffNoLeaf(path: seq<string>, v: Value)
    requires Encodable(v)
    ensures Entries(path, v) == [] <==> !HasLeaf(v)
    decreases v, 1, 0
  {
    if v.Table? {
      KeysAreKeys(v.entries);
      NoEntriesOfKeys(path, v, SortedKeys(v.entries));
    }
  }

  lemma {:induction false} NoEntriesOfKeys(path: seq<string>, v: Value, keys: seq<string>)
    requires v.Table? && Encodable(v) && forall k <- keys :: k in v.entries
    ensures EntriesOf(path, v, keys) == [] <==> forall k <- keys :: !HasLeaf(v.entries[k])
    decreases v, 0, |keys|
  {
    if keys != [] {
      NoEntriesIffNoLeaf(path + [keys[0]], v.entries[keys[0]]);
      NoEntriesOfKeys(path, v, keys[1..]);
      assert keys == [keys[0]] + keys[1..];
    }
  }

  // ---- the round trip ----

  lemma SortedKeysAreDistinct(m: map<string, Value>)
    ensures forall i, j :: 0 <= i < j < |SortedKeys(m)| ==> SortedKeys(m)[i] != SortedKeys(m)[j]
  {
    var keys := SortedKeys(m);
    forall i, j | 0 <= i < j < |keys|
      ensures keys[i] != keys[j]
    {
      assert multiset(keys)[keys[i]] <= 1;
      assert keys == keys[..i] + [keys[i]] + keys[i + 1..j] + [keys[j]] + keys[j + 1..];
    }
  }

  /** What inserting the entries of these keys makes of a table that has none of them. */
  ghost function Grown(t: map<string, Value>, v: Value, keys: seq<string>): map<string, Value>
    requires v.Table? && forall k <- keys :: k in v.entries
  {
    map k | k in t.Keys + v.entries.Keys && (k in t || (k in keys && HasLeaf(v.entries[k]))) ::
      if k in t then t[k] else Prune(v.entries[k])
  }

  lemma {:induction false} PutValue(t: map<string, Value>, k: string, v: Value)
    requires Encodable(v) && k !in t
    ensures forall e <- Entries([k], v) :: e.path != []
    ensures PutAll(t, Entries([k], v)) == if HasLeaf(v) then t[k := Prune(v)] else t
    decreases v, 1, 0
  {
    EntriesLieBelow([k], v);
    if v.Table? {
      EntriesLieBelow([], v);
      assert [k] + [] == [k];
      EntriesMoveDown(k, [], v);
      PutUnder(t, k, Entries([], v));
      NoEntriesIffNoLeaf([], v);
      PutTable(v);
      assert Below(t, k) == map[];
    } else {
      assert Put(t, [k], v.literal) == t[k := v];
    }
  }

  lemma EntriesOfTable(path: seq<string>, v: Value)
    requires v.Table?
    ensures forall k <- SortedKeys(v.entries) :: k in v.entries
    ensures Entries(path, v) == EntriesOf(path, v, SortedKeys(v.entries))
  {
    KeysAreKeys(v.entries);
  }

  lemma GrownFromNothing(v: Value)
    requires v.Table?
    ensures forall k <- SortedKeys(v.entries) :: k in v.entries
    ensures Table(Grown(map[], v, SortedKeys(v.entries))) == Prune(v)
  {
    hide SortedKeys, Grown;
    KeysAreKeys(v.entries);
    GrownIsPruned(v, SortedKeys(v.entries));
  }

  lemma GrownIsPruned(v: Value, keys: seq<string>)
    requires v.Table? && forall k :: k in keys <==> k in v.entries
    ensures Grown(map[], v, keys) == PruneEntries(v)
  {
    hide Prune, HasLeaf;
  }

  lemma {:induction false} PutTable(v: Value)
    requires v.Table? && Encodable(v)
    ensures forall e <- Entries([], v) :: e.path != []
    ensures Table(PutAll(map[], Entries([], v))) == Prune(v)
    decreases v, 0, |v.entries.Keys| + 1
  {
    hide Entries, EntriesOf, PutAll, SortedKeys, Grown, Prune;
    KeysAreKeys(v.entries);
    SortedKeysAreDistinct(v.entries);
    EntriesOfTable([], v);
    PutKeys(map[], v, SortedKeys(v.entries));
    GrownFromNothing(v);
  }

  lemma GrowByOne(t: map<string, Value>, u: map<string, Value>, v: Value, keys: seq<string>)
    requires v.Table? && keys != [] && (forall k <- keys :: k in v.entries && k !in t)
    requires u == if HasLeaf(v.entries[keys[0]]) then t[keys[0] := Prune(v.entries[keys[0]])] else t
    requires forall j :: 0 < j < |keys| ==> keys[0] != keys[j]
    ensures Grown(u, v, keys[1..]) == Grown(t, v, keys)
  {
    hide Prune, HasLeaf;
    assert keys == [keys[0]] + keys[1..];
  }

  lemma {:induction false} PutKeys(t: map<string, Value>, v: Value, keys: seq<string>)
    requires v.Table? && Encodable(v) && (forall k <- keys :: k in v.entries && k !in t)
    requires forall i, j :: 0 <= i < j < |keys| ==> keys[i] != keys[j]
    ensures forall e <- EntriesOf([], v, keys) :: e.path != []
    ensures PutAll(t, EntriesOf([], v, keys)) == Grown(t, v, keys)
    decreases v, 0, |keys|
  {
    hide Entries, Prune, HasLeaf;
    KeysLieBelow([], v, keys);
    if keys == [] {
      assert Grown(t, v, keys) == t;
    } else {
      hide PutAll, Grown;
      var k := keys[0];
      assert [] + [k] == [k];
      PutValue(t, k, v.entries[k]);
      PutAllAppend(t, Entries([k], v.entries[k]), EntriesOf([], v, keys[1..]));
      var u := if HasLeaf(v.entries[k]) then t[k := Prune(v.entries[k])] else t;
      PutKeys(u, v, keys[1..]);
      GrowByOne(t, u, v, keys);
    }
  }

  function DecodeAll(overrides: seq<string>): (r: seq<Entry>)
    ensures |r| == |overrides|
  {
    seq(|overrides|, i requires 0 <= i < |overrides| => Decode(overrides[i]))
  }

  /** What the server makes of the overrides: each literal put at its dotted path. */
  function Rebuilt(overrides: seq<string>): map<string, Value> {
    PutAll(map[], DecodeAll(overrides))
  }

  lemma DecodedAreEntries(config: map<string, Value>)
    requires Encodable(Table(config)) && CleanKeys(Table(config)) && !EmptyTop(config)
    ensures Flatten("", Table(config)).Ok?
    ensures DecodeAll(Flatten("", Table(config)).value) == Entries([], Table(config))
  {
    hide Flatten, Entries, EmptyTop, Encodable, CleanKeys, Decode;
    var es := Entries([], Table(config));
    OverridesOfConfig(config);
    EntriesLieBelow([], Table(config));
    forall i | 0 <= i < |es|
      ensures Decode(Text(es[i])) == es[i]
    {
      assert es[i] in es;
      DecodeUndoesText(es[i]);
    }
  }

  // ---- what cannot come back ----

  /** Every key is clean, at every depth. */
  ghost predicate AllClean(v: Value) {
    match v
    case Table(entries) => forall k :: k in entries ==> Clean(k) && AllClean(entries[k])
    case _ => true
  }

  lemma {:induction false} PrunedIsCleanOnlyIf(v: Value)
    requires AllClean(Prune(v))
    ensures CleanKeys(v)
  {
    if v.Table? {
      forall k | k in v.entries && HasLeaf(v.entries[k])
        ensures Clean(k) && CleanKeys(v.entries[k])
      {
        assert k in Prune(v).entries && Prune(v).entries[k] == Prune(v.entries[k]);
        PrunedIsCleanOnlyIf(v.entries[k]);
      }
    }
  }

  lemma {:induction false} UntilLacks(s: string, c: char, d: char)
    ensures c !in Until(s, c)
    ensures d !in s ==> d !in Until(s, c)
  {
    if s != "" && s[0] != c {
      UntilLacks(s[1..], c, d);
      assert s == [s[0]] + s[1..];
    }
  }

  lemma {:induction false} SplitIsClean(s: string)
    requires '=' !in s
    ensures CleanPath(SplitDots(s))
    decreases |s|
  {
    UntilLacks(s, '.', '=');
    if '.' in s {
      var rest := s[|Until(s, '.')| + 1..];
      assert forall c <- rest :: c in s;
      SplitIsClean(rest);
      assert SplitDots(s) == [Until(s, '.')] + SplitDots(rest);
    }
  }

  lemma DecodedIsClean(o: string)
    ensures Decode(o).path != [] && CleanPath(Decode(o).path)
  {
    UntilLacks(o, '=', '=');
    SplitIsClean(Until(o, '='));
  }

  lemma {:induction false} PutKeepsClean(t: map<string, Value>, path: seq<string>, literal: string)
    requires path != [] && CleanPath(path) && AllClean(Table(t))
    ensures AllClean(Table(Put(t, path, literal)))
    decreases |path|
  {
    assert Clean(path[0]);
    if |path| > 1 {
      PutKeepsClean(Below(t, path[0]), path[1..], literal);
    }
  }

  lemma {:induction false} PutAllKeepsClean(t: map<string, Value>, es: seq<Entry>)
    requires (forall e <- es :: e.path != [] && CleanPath(e.path)) && AllClean(Table(t))
    ensures AllClean(Table(PutAll(t, es)))
    decreases |es|
  {
    if es != [] {
      PutKeepsClean(t, es[0].path, es[0].literal);
      PutAllKeepsClean(Put(t, es[0].path, es[0].literal), es[1..]);
    }
  }

  /** Whatever the overrides are, no key of what is rebuilt has one of the two characters. */
  lemma RebuiltIsClean(overrides: seq<string>)
    ensures AllClean(Table(Rebuilt(overrides)))
  {
    hide Decode, AllClean, CleanPath;
    forall i | 0 <= i < |overrides|
      ensures CleanPath(Decode(overrides[i]).path)
    {
      DecodedIsClean(overrides[i]);
    }
    NothingIsClean();
    PutAllKeepsClean(map[], DecodeAll(overrides));
  }

  lemma NothingIsClean()
    ensures AllClean(Table(map[]))
  {
  }

  ghost predicate DotFirst(s: string) {
    s != "" && s[0] == '.'
  }

  /** With clean keys no override starts with a dot: an empty path drops the key before it. */
  lemma {:induction false} NoDotFirst(path: string, v: Value)
    requires Encodable(v) && CleanKeys(v) && !DotFirst(path)
    ensures Flatten(path, v).Ok? && forall o <- Flatten(path, v).value :: !DotFirst(o)
    decreases v, 1, 0
  {
    if v.Table? {
      FlattenOfTable(path, v);
      KeysAreKeys(v.entries);
      NoDotFirstInKeys(path, v, SortedKeys(v.entries));
    }
  }

  lemma {:induction false} NoDotFirstInKeys(path: string, v: Value, keys: seq<string>)
    requires v.Table? && Encodable(v) && CleanKeys(v) && !DotFirst(path) && forall k <- keys :: k in v.entries
    ensures FlattenKeys(path, v, keys).Ok? && forall o <- FlattenKeys(path, v, keys).value :: !DotFirst(o)
    decreases v, 0, |keys|
  {
    if keys != [] {
      var k := keys[0];
      if HasLeaf(v.entries[k]) {
        NoDotFirst(Child(path, k), v.entries[k]);
      } else {
        NoLeafNoOverride(Child(path, k), v.entries[k]);
      }
      NoDotFirstInKeys(path, v, keys[1..]);
    }
  }

  lemma EmptyFirstIsAlone(o: string)
    requires !DotFirst(o)
    ensures var path := Decode(o).path; path != [] && (path[0] == "" ==> |path| == 1)
  {
    var u := Until(o, '=');
    assert u != "" ==> u[0] == o[0];
    assert '.' in u ==> Until(u, '.') != "";
  }

  lemma {:induction false} PutAllKeepsEmptyLeaf(t: map<string, Value>, es: seq<Entry>)
    requires forall e <- es :: e.path != [] && (e.path[0] == "" ==> |e.path| == 1)
    requires "" in t ==> t[""].Leaf?
    ensures var u := PutAll(t, es); "" in u ==> u[""].Leaf?
    decreases |es|
  {
    if es != [] {
      PutAllKeepsEmptyLeaf(Put(t, es[0].path, es[0].literal), es[1..]);
    }
  }

  lemma EmptyTopIsLost(config: map<string, Value>)
    requires Encodable(Table(config)) && CleanKeys(Table(config))
    ensures Flatten("", Table(config)).Ok?
    ensures var u := Rebuilt(Flatten("", Table(config)).value); "" in u ==> u[""].Leaf?
  {
    hide Flatten, Decode, Encodable, CleanKeys;
    NoDotFirst("", Table(config));
    var overrides := Flatten("", Table(config)).value;
    forall i | 0 <= i < |overrides|
      ensures var path := Decode(overrides[i]).path; path[0] == "" ==> |path| == 1
    {
      assert overrides[i] in overrides;
      EmptyFirstIsAlone(overrides[i]);
    }
    PutAllKeepsEmptyLeaf(map[], DecodeAll(overrides));
  }

  // ---- the exact condition ----

  /**
    For every configuration whose values all have literals: putting every override at its dotted path
    rebuilds the tree without its empty tables if and only if every key that leads to a leaf has
    neither a dot nor an equals sign, and no empty key at the top holds a table with a leaf.
   */
  lemma RoundTripIff(config: map<string, Value>)
    requires Encodable(Table(config))
    ensures Flatten("", Table(config)).Ok?
    ensures Table(Rebuilt(Flatten("", Table(config)).value)) == Prune(Table(config))
      <==> CleanKeys(Table(config)) && !EmptyTop(config)
  {
    hide Flatten, Encodable, CleanKeys, AllClean, Rebuilt;
    var v := Table(config);
    FlattensIffEncodable("", v);
    var rebuilt := Table(Rebuilt(Flatten("", v).value));
    if !CleanKeys(v) {
      RebuiltIsClean(Flatten("", v).value);
      if rebuilt == Prune(v) {
        PrunedIsCleanOnlyIf(v);
      }
    } else if EmptyTop(config) {
      EmptyTopIsLost(config);
      PrunedEntry(config, "");
    } else {
      DecodedAreEntries(config);
      PutTable(v);
      RebuiltFrom(Flatten("", v).value, Entries([], v));
    }
  }

  lemma PrunedEntry(config: map<string, Value>, k: string)
    requires k in config && HasLeaf(config[k])
    ensures k in Prune(Table(config)).entries && Prune(Table(config)).entries[k] == Prune(config[k])
  {
  }

  lemma RebuiltFrom(overrides: seq<string>, es: seq<Entry>)
    requires DecodeAll(overrides) == es
    ensures forall e <- es :: e.path != []
    ensures Rebuilt(overrides) == PutAll(map[], es)
  {
  }

  lemma FlattenOfOne(path: string, k: string, v: Value)
    ensures Flatten(path, Table(map[k := v])) == Flatten(Child(path, k), v)
  {
    hide Flatten;
    var m := map[k := v];
    FlattenOfTable(path, Table(m));
    KeysAreKeys(m);
    assert m.Keys == {k};
    var keys := SortedKeys(m);
    assert keys == [k] && keys[1..] == [];
    assert FlattenKeys(path, Table(m), keys) == Chain(Flatten(Child(path, k), v), FlattenKeys(path, Table(m), keys[1..]));
    ChainIsAssociative(Flatten(Child(path, k), v), Ok([]), Ok([]));
  }

  /** An empty key over a table is such a configuration: its settings move one level up. */
  lemma EmptyKeyMovesUp(k: string, literal: string)
    requires Clean(k)
    ensures var config := map["" := Table(map[k := Leaf(literal)])];
      var overrides := Flatten("", Table(config));
      && Encodable(Table(config)) && CleanKeys(Table(config)) && EmptyTop(config)
      && overrides == Ok([k + "=" + literal]) && Rebuilt(overrides.value) == map[k := Leaf(literal)]
  {
    FlattenOfOne("", "", Table(map[k := Leaf(literal)]));
    FlattenOfOne("", k, Leaf(literal));
    UntilOf(k, '=', literal);
    SplitOfOne(k);
    var e := Entry([k], literal);
    assert DecodeAll([k + "=" + literal]) == [e] && [e][1..] == [];
    RebuiltFrom([k + "=" + literal], [e]);
    assert PutAll(map[], [e]) == PutAll(Put(map[], [k], literal), []);
  }

  // ---- order ----

  /** At the first component where they differ, `a` has the smaller one; neither is a prefix of the other. */
  ghost predicate PathBefore(a: seq<string>, b: seq<string>, n: nat) {
    n < |a| && n < |b| && a[..n] == b[..n] && a[n] != b[n] && Before(a[n], b[n])
  }

  ghost predicate ComesBefore(a: seq<string>, b: seq<string>) {
    exists n :: PathBefore(a, b, n)
  }

  ghost predicate Ordered(es: seq<Entry>) {
    forall i, j :: 0 <= i < j < |es| ==> ComesBefore(es[i].path, es[j].path)
  }

  /** The overrides come ordered by path components, and no path equals or extends another. */
  lemma {:induction false} EntriesAreOrdered(path: seq<string>, v: Value)
    ensures Ordered(Entries(path, v))
    decreases v, 1, 0
  {
    if v.Table? {
      KeysAreKeys(v.entries);
      SortedKeysAreDistinct(v.entries);
      KeysAreOrdered(path, v, SortedKeys(v.entries));
    }
  }

  lemma {:induction false} KeysAreOrdered(path: seq<string>, v: Value, keys: seq<string>)
    requires v.Table? && (forall k <- keys :: k in v.entries) && Sorted(keys)
    requires forall i, j :: 0 <= i < j < |keys| ==> keys[i] != keys[j]
    ensures Ordered(EntriesOf(path, v, keys))
    decreases v, 0, |keys|
  {
    if keys != [] {
      var k := keys[0];
      var first, rest := Entries(path + [k], v.entries[k]), EntriesOf(path, v, keys[1..]);
      EntriesAreOrdered(path + [k], v.entries[k]);
      KeysAreOrdered(path, v, keys[1..]);
      EntriesLieBelow(path + [k], v.entries[k]);
      KeysLieBelow(path, v, keys[1..]);
      forall a, b | a in first && b in rest
        ensures ComesBefore(a.path, b.path)
      {
        assert a.path[|path|] == (path + [k])[|path|] == k;
        assert a.path[..|path|] == path == b.path[..|path|];
        var j :| 0 <= j < |keys[1..]| && keys[1..][j] == b.path[|path|];
        assert keys[j + 1] == b.path[|path|];
        assert PathBefore(a.path, b.path, |path|);
      }
      JoinOrdered(first, rest);
    }
  }

  lemma JoinOrdered(a: seq<Entry>, b: seq<Entry>)
    requires Ordered(a) && Ordered(b) && forall x, y :: x in a && y in b ==> ComesBefore(x.path, y.path)
    ensures Ordered(a + b)
  {
    hide ComesBefore;
    var c := a + b;
    forall i, j | 0 <= i < j < |c|
      ensures ComesBefore(c[i].path, c[j].path)
    {
      if i < |a| && |a| <= j {
        assert c[i] in a && c[j] in b;
      }
    }
  }

  /**
    The overrides of a configuration that survives are ordered by path components, whatever order the
    maps are walked in, and no path equals or extends another.
   */
  lemma OverridesAreOrdered(config: map<string, Value>, i: nat, j: nat)
    requires Encodable(Table(config)) && CleanKeys(Table(config)) && !EmptyTop(config)
    ensures Flatten("", Table(config)).Ok?
    ensures var overrides := Flatten("", Table(config)).value;
      i < j < |overrides| ==>
        var a, b := Decode(overrides[i]).path, Decode(overrides[j]).path;
        ComesBefore(a, b) && !(a <= b) && !(b <= a)
  {
    hide Entries, Flatten, Decode, Encodable, CleanKeys;
    DecodedAreEntries(config);
    EntriesAreOrdered([], Table(config));
    var overrides := Flatten("", Table(config)).value;
    if i < j < |overrides| {
      var es := DecodeAll(overrides);
      assert es[i] == Decode(overrides[i]) && es[j] == Decode(overrides[j]);
      var n :| PathBefore(es[i].path, es[j].path, n);
    }
  }
}
