/**
  When the generated declarations are the right ones. A declaration is filed under a name, a union's variant
  takes its title for a name, and the first schema that comes under a name is the one that counts.
 */
module GeneratorTheorems {
  import opened Wrappers
  import opened Strings
  import opened StringOrder
  import opened Schemas
  import opened GeneratorRun
  import opened ProtocolGen

  /** Whoever asks for a type of some name and schema finds the declaration of that schema under the name. */
  ghost predicate AllServed(b: Bundle, p: Progress) {
    forall m, v :: Asked(b, m, v) ==> m in p.decls && p.decls[m] == DeclOf(m, v)
  }

  /** Schemas that the bundle and its unions put under one name have one declaration. */
  ghost predicate NoClash(b: Bundle) {
    forall m, v, w :: Asked(b, m, v) && Asked(b, m, w) ==> DeclOf(m, v) == DeclOf(m, w)
  }

  lemma EmittedIsAsked(b: Bundle, p: Progress, n: string)
    requires Complete(b, p) && n in p.decls
    ensures n in p.sources && Asked(b, n, p.sources[n]) && p.decls[n] == DeclOf(n, p.sources[n])
    ensures Met(b, p.emitted, p.decls[n])
  {
    hide Asked, DeclOf, Met;
  }

  lemma DeclOfUnion(name: string, union: Schema, i: nat, variant: string, node: Schema)
    requires VariantAt(name, union, i, variant, node)
    ensures var d := DeclOf(name, union); d.UnionDecl? && i < |d.variants| && d.variants[i] == Own(variant)
  {
    hide GoTypeName, VariantTypeName;
  }

  /** Without a clash everyone who asks is served, by induction on the unions above. */
  lemma {:induction false} ServedAtDepth(b: Bundle, p: Progress, m: string, v: Schema, depth: nat)
    requires Complete(b, p) && NoClash(b) && AskedAt(b, m, v, depth)
    ensures m in p.decls && p.decls[m] == DeclOf(m, v)
    decreases depth
  {
    hide DeclOf, VariantAt, Met, Complete;
    if depth == 0 {
      NameIsDeclared(b, p, m);
    } else {
      var parent, union, i :| AskedAt(b, parent, union, depth - 1) && VariantAt(parent, union, i, m, v);
      ServedAtDepth(b, p, parent, union, depth - 1);
      DeclOfUnion(parent, union, i, m, v);
      VariantIsDeclared(b, p, parent, i);
    }
    EmittedIsAsked(b, p, m);
    assert Asked(b, m, v);
  }

  lemma NameIsDeclared(b: Bundle, p: Progress, n: string)
    requires Complete(b, p) && n != "" && Lookup(b, n).Some?
    ensures n in p.decls
  {
  }

  lemma VariantIsDeclared(b: Bundle, p: Progress, parent: string, i: nat)
    requires Complete(b, p) && parent in p.decls && p.decls[parent].UnionDecl?
    requires i < |p.decls[parent].variants| && p.decls[parent].variants[i].Own?
    ensures p.decls[parent].variants[i].key in p.decls
  {
    hide Asked, DeclOf, Lookup;
    EmittedIsAsked(b, p, parent);
  }

  /**
    The exact condition, on the bundle alone: every declaration is that of each schema that asks for it if
    and only if no two schemas with different declarations come under one name.
   */
  lemma ServedIff(b: Bundle, p: Progress)
    requires Complete(b, p)
    ensures AllServed(b, p) <==> NoClash(b)
  {
    hide DeclOf, Complete, AskedAt;
    if NoClash(b) {
      forall m, v | Asked(b, m, v)
        ensures m in p.decls && p.decls[m] == DeclOf(m, v)
      {
        var depth: nat :| AskedAt(b, m, v, depth);
        ServedAtDepth(b, p, m, v, depth);
      }
    }
  }

  /**
    Of one name of the bundle: it has its own declaration unless a variant with another one came first,
    and so, whatever the order, if no variant that can come under the name has another one.
   */
  lemma BundleNameIff(b: Bundle, p: Progress, n: string)
    requires Complete(b, p) && n != "" && Lookup(b, n).Some?
    ensures n in p.decls && n in p.sources
    ensures p.decls[n] == DeclOf(n, Lookup(b, n).value) <==>
      !exists parent, union, i ::
        && Asked(b, parent, union) && VariantAt(parent, union, i, n, p.sources[n])
        && DeclOf(n, p.sources[n]) != DeclOf(n, Lookup(b, n).value)
    ensures (forall v :: Asked(b, n, v) ==> DeclOf(n, v) == DeclOf(n, Lookup(b, n).value))
      ==> p.decls[n] == DeclOf(n, Lookup(b, n).value)
  {
    hide DeclOf, VariantAt, Complete, Lookup;
    NameIsDeclared(b, p, n);
    EmittedIsAsked(b, p, n);
    var depth: nat :| AskedAt(b, n, p.sources[n], depth);
    if depth > 0 {
      var parent, union, i :| AskedAt(b, parent, union, depth - 1) && VariantAt(parent, union, i, n, p.sources[n]);
      assert Asked(b, parent, union);
    }
  }

  // ---- Go types ----

  /** No Go type is declared twice: declarations are filed under the names as the bundle spells them. */
  ghost predicate GoTypesDistinct(p: Progress) {
    forall m, n :: m in p.decls && n in p.decls && m != n ==> p.decls[m].name != p.decls[n].name
  }

  /** Different names that are asked for give different Go names. */
  ghost predicate GoNamesDistinct(b: Bundle) {
    forall m, n, v, w :: Asked(b, m, v) && Asked(b, n, w) && GoTypeName(m) == GoTypeName(n) ==> m == n
  }

  lemma GoTypesDistinctIff(b: Bundle, p: Progress)
    requires Complete(b, p)
    ensures GoTypesDistinct(p) <==>
      forall m, n :: m in p.emitted && n in p.emitted && GoTypeName(m) == GoTypeName(n) ==> m == n
  {
    hide GoTypeName, Complete;
    forall n | n in p.emitted || n in p.decls
      ensures n in p.emitted && n in p.decls && p.decls[n].name == GoTypeName(n)
    {
      EmittedIsDeclared(b, p, n);
      DeclHasGoName(b, p, n);
    }
  }

  lemma EmittedIsDeclared(b: Bundle, p: Progress, n: string)
    requires Complete(b, p) && (n in p.emitted || n in p.decls)
    ensures n in p.emitted && n in p.decls
  {
  }

  /**
    The output is right, each declaration that of every schema that asks for it and each Go type declared
    once, if and only if the bundle has no clash and its names differ as Go names.
   */
  lemma OutputIsRightIff(b: Bundle, p: Progress)
    requires Complete(b, p)
    ensures AllServed(b, p) && GoTypesDistinct(p) <==> NoClash(b) && GoNamesDistinct(b)
  {
    hide DeclOf, Asked, Complete, GoTypeName, NoClash;
    ServedIff(b, p);
    GoTypesDistinctIff(b, p);
    forall n | n in p.emitted
      ensures n in p.sources && Asked(b, n, p.sources[n])
    {
      EmittedIsDeclared(b, p, n);
      EmittedIsAsked(b, p, n);
    }
    forall m, v | AllServed(b, p) && Asked(b, m, v)
      ensures m in p.emitted
    {
      EmittedIsDeclared(b, p, m);
    }
  }

  /** Two names of a bundle that make one Go name are two declarations of one Go type, in every run. */
  lemma SameGoNameTwice(b: Bundle, p: Progress, m: string, n: string)
    requires Complete(b, p) && m != n && m != "" && n != "" && Lookup(b, m).Some? && Lookup(b, n).Some?
    requires GoTypeName(m) == GoTypeName(n)
    ensures m in p.decls && n in p.decls && p.decls[m].name == p.decls[n].name
  {
    hide GoTypeName, Complete, Lookup;
    NameIsDeclared(b, p, m);
    NameIsDeclared(b, p, n);
    EmittedIsDeclared(b, p, m);
    EmittedIsDeclared(b, p, n);
    DeclHasGoName(b, p, m);
    DeclHasGoName(b, p, n);
  }

  lemma CamelStays()
    ensures GoTypeName("FooBar") == "FooBar"
  {
    AlphanumericIsCamelCase("ooBar");
    assert "FooBar"[1..] == "ooBar";
    assert CamelCase("FooBar", true) == "FooBar";
  }

  lemma SnakeBecomesCamel()
    ensures GoTypeName("foo_bar") == "FooBar"
  {
    AlphanumericIsCamelCase("ar");
    assert "bar"[1..] == "ar" && "_bar"[1..] == "bar" && "o_bar"[1..] == "_bar";
    assert CamelCase("bar", true) == "Bar" && CamelCase("_bar", false) == "Bar";
    assert CamelCase("o_bar", false) == "oBar";
    assert "oo_bar"[1..] == "o_bar" && "foo_bar"[1..] == "oo_bar";
    assert CamelCase("oo_bar", false) == "ooBar";
  }

  /** The run over a bundle with these two names ends with two declarations of the Go type FooBar. */
  method SnakeAndCamelClash(b: Bundle) returns (one: Decl, other: Decl)
    requires "foo_bar" in b.definitions && "FooBar" in b.definitions
    ensures one.name == other.name == "FooBar"
  {
    hide Complete;
    CamelStays();
    SnakeBecomesCamel();
    var g := GenerateProtocol(b);
    SameGoNameTwice(b, g.Now(), "foo_bar", "FooBar");
    DeclHasGoNameIn(b, g.Now(), "FooBar");
    one, other := g.decls["foo_bar"], g.decls["FooBar"];
  }

  lemma DeclHasGoNameIn(b: Bundle, p: Progress, n: string)
    requires Complete(b, p) && n in p.decls
    ensures p.decls[n].name == GoTypeName(n)
  {
    hide GoTypeName;
    EmittedIsDeclared(b, p, n);
    DeclHasGoName(b, p, n);
  }

  // ---- a clash, in both orders ----

  lemma {:induction false} LaterNamesKeep(b: Bundle, p: Progress, names: seq<string>, i: nat, j: nat)
    requires i <= j <= |names|
    ensures Keeps(EmitNames(b, p, names, i), EmitNames(b, p, names, j))
    decreases j
  {
    hide Ensure, Keeps;
    if i == j {
      KeepsItself(EmitNames(b, p, names, i));
    } else {
      LaterNamesKeep(b, p, names, i, j - 1);
      KeepsIsTransitive(EmitNames(b, p, names, i), EmitNames(b, p, names, j - 1), EmitNames(b, p, names, j));
    }
  }

  /** The first one to ask for a name gives it its schema. */
  lemma FirstOneMarks(b: Bundle, p: Progress, name: string, node: Schema, q: Progress)
    requires p.sources.Keys == p.emitted && name !in p.emitted && Keeps(Ensure(b, p, name, Some(node)), q)
    ensures name in q.sources && q.sources[name] == node
  {
    hide Visit, DeclOf;
    var m := Marked(p, name, node);
    assert Keeps(m, Visit(b, m, name, node));
  }

  const ALPHA := "Alpha"
  const ZED := "Zed"

  function TwoNames(first: Schema, second: Schema): Bundle {
    Bundle(map[ALPHA := first, ZED := second], map[], None, None, None)
  }

  lemma AlphaIsFirst(first: Schema, second: Schema)
    ensures var names := SortedNames(TwoNames(first, second)); names != [] && names[0] == ALPHA
  {
    var b := TwoNames(first, second);
    var names := SortedNames(b);
    assert b.definitions.Keys == {ALPHA, ZED} && b.supplemental.Keys == {};
    assert ALPHA in multiset(names);
    var i :| 0 <= i < |names| && names[i] == ALPHA;
    assert names[0] in multiset(names);
    assert names[0] in {ALPHA, ZED, CLIENT_REQUEST, SERVER_NOTIFICATION, SERVER_REQUEST};
    assert i > 0 ==> Before(names[0], ALPHA);
    assert !Before(ZED, ALPHA) && !Before(CLIENT_REQUEST, ALPHA) && !Before(SERVER_NOTIFICATION, ALPHA) && !Before(SERVER_REQUEST, ALPHA);
  }

  /** Alpha is asked for before anything else. */
  lemma AlphaStarts(first: Schema, second: Schema)
    ensures var b := TwoNames(first, second);
      Keeps(Ensure(b, NO_PROGRESS, ALPHA, Some(first)), Generated(b))
  {
    hide Ensure, Keeps;
    var b := TwoNames(first, second);
    var names := SortedNames(b);
    AlphaIsFirst(first, second);
    LaterNamesKeep(b, NO_PROGRESS, names, 1, |names|);
    assert Lookup(b, ALPHA) == Some(first);
    assert EmitNames(b, NO_PROGRESS, names, 0) == NO_PROGRESS;
  }

  /** A union of one variant. */
  function UnionOf(v: Schema): Schema {
    Schema(NoType, "", "", [], [], [], None, None, [v], [], [])
  }

  predicate IsTitled(v: Schema, title: string) {
    OwnType(v) && v.title == title && !(HasProperty(v, "method") && HasProperty(v, "params"))
  }

  lemma VariantIsMarked(b: Bundle, v: Schema, name: string, q: Progress)
    requires IsTitled(v, name) && name != ALPHA && name != ""
    requires Keeps(Ensure(b, NO_PROGRESS, ALPHA, Some(UnionOf(v))), q)
    ensures name in q.sources && q.sources[name] == v
  {
    var u := UnionOf(v);
    var m := Marked(NO_PROGRESS, ALPHA, u);
    assert VisitVariants(b, m, ALPHA, u, 0) == m;
    var visited := Visit(b, m, ALPHA, u);
    assert visited == VisitVariants(b, m, ALPHA, u, 1) == VisitVariant(b, m, GoTypeName(ALPHA), v, 0);
    assert visited == Ensure(b, m, name, Some(v));
    hide Ensure, Keeps;
    UnionStaysKept(b, v, q, visited);
    FirstOneMarks(b, m, name, v, q);
  }

  lemma UnionStaysKept(b: Bundle, v: Schema, q: Progress, visited: Progress)
    requires visited == Visit(b, Marked(NO_PROGRESS, ALPHA, UnionOf(v)), ALPHA, UnionOf(v))
    requires Keeps(Ensure(b, NO_PROGRESS, ALPHA, Some(UnionOf(v))), q)
    ensures Keeps(visited, q)
  {
    hide Visit, DeclOf;
  }

  /** A union's variant comes before the bundle's own name, and the name gets the variant's declaration. */
  method TitleTakesName(v: Schema, z: Schema) returns (code: Decl)
    requires IsTitled(v, ZED)
    ensures code == DeclOf(ZED, v) && Lookup(TwoNames(UnionOf(v), z), ZED) == Some(z)
  {
    hide Complete, DeclOf, Generated, Ensure, Keeps;
    var b := TwoNames(UnionOf(v), z);
    var g := GenerateProtocol(b);
    AlphaStarts(UnionOf(v), z);
    VariantIsMarked(b, v, ZED, g.Now());
    NameIsDeclared(b, g.Now(), ZED);
    EmittedIsAsked(b, g.Now(), ZED);
    code := g.decls[ZED];
  }

  /** The other way round the bundle's name comes first, and the union's variant is declared as that. */
  method NameTakesTitle(v: Schema, z: Schema) returns (code: Decl)
    requires IsTitled(v, ALPHA)
    ensures code == DeclOf(ALPHA, z) && Asked(TwoNames(z, UnionOf(v)), ALPHA, v)
  {
    hide Complete, DeclOf, Generated, Ensure, Keeps;
    var b := TwoNames(z, UnionOf(v));
    var g := GenerateProtocol(b);
    AlphaStarts(z, UnionOf(v));
    FirstOneMarks(b, NO_PROGRESS, ALPHA, z, g.Now());
    NameIsDeclared(b, g.Now(), ALPHA);
    EmittedIsAsked(b, g.Now(), ALPHA);
    NameIsAsked(b, ZED);
    VariantIsAsked(b, ZED, UnionOf(v), 0, ALPHA, v);
    code := g.decls[ALPHA];
  }
}
