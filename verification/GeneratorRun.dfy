/**
  What a run of the type generator does, as functions on its state: which names are marked, in which order,
  and with which declarations. A name is marked before its schema is visited, so that the walk ends.
 */
module GeneratorRun {
  import opened Wrappers
  import opened Schemas
  import opened StringOrder
  import opened Strings

  /** The generator's state; `sources` is the schema each emitted name stands for. */
  datatype Progress = Progress(
    decls: map<string, Decl>, order: seq<string>, emitted: set<string>, sources: map<string, Schema>)

  const NO_PROGRESS := Progress(map[], [], {}, map[])

  ghost function Marked(p: Progress, name: string, node: Schema): Progress {
    p.(emitted := p.emitted + {name}, order := p.order + [name], sources := p.sources[name := node])
  }

  ghost function Declared(p: Progress, name: string, code: Decl): Progress {
    p.(decls := p.decls[name := code])
  }

  /** Nothing that is emitted is taken back or given another schema. */
  ghost predicate Keeps(p: Progress, q: Progress) {
    && p.emitted <= q.emitted
    && (p.sources.Keys == p.emitted ==>
          q.sources.Keys == q.emitted && forall n :: n in p.sources ==> q.sources[n] == p.sources[n])
  }

  lemma KeepsIsTransitive(p: Progress, q: Progress, r: Progress)
    requires Keeps(p, q) && Keeps(q, r)
    ensures Keeps(p, r)
  {
  }

  lemma KeepsItself(p: Progress)
    ensures Keeps(p, p)
  {
  }

  lemma MarkKeeps(p: Progress, name: string, node: Schema)
    requires name !in p.emitted
    ensures Keeps(p, Marked(p, name, node))
  {
  }

  lemma DeclareKeeps(p: Progress, q: Progress, name: string, code: Decl)
    requires Keeps(p, q)
    ensures Keeps(p, Declared(q, name, code))
  {
  }

  // ---- termination ----

  /** The names of the bundle that are still to come. */
  ghost function Pending(b: Bundle, emitted: set<string>): set<string> {
    BundleNames(b) - emitted
  }

  lemma PendingShrinks(b: Bundle, small: set<string>, large: set<string>)
    requires small <= large
    ensures |Pending(b, large)| <= |Pending(b, small)|
    ensures (exists n :: n in large && n in Pending(b, small)) ==> |Pending(b, large)| < |Pending(b, small)|
  {
    SubsetIsSmaller(Pending(b, large), Pending(b, small));
  }

  lemma {:induction false} SubsetIsSmaller(a: set<string>, b: set<string>)
    requires a <= b
    ensures |a| <= |b| && (a != b ==> |a| < |b|)
    decreases |a|
  {
    if a != {} {
      var x :| x in a;
      SubsetIsSmaller(a - {x}, b - {x});
      if a != b {
        var y :| y in b && y !in a;
        assert y in b - {x} && y !in a - {x};
      }
    }
  }

  lemma RefShrinks(b: Bundle, emitted: set<string>, ref: string)
    ensures |Pending(b, emitted + {ref})| <= |Pending(b, emitted)|
    ensures Lookup(b, ref).Some? && ref !in emitted ==> |Pending(b, emitted + {ref})| < |Pending(b, emitted)|
  {
    PendingShrinks(b, emitted, emitted + {ref});
    assert Lookup(b, ref).Some? && ref !in emitted ==> ref in Pending(b, emitted);
  }

  // ---- the walk ----

  /** ensureNamedType. */
  ghost function Ensure(b: Bundle, p: Progress, name: string, node: Option<Schema>): (q: Progress)
    ensures Keeps(p, q)
    decreases |Pending(b, p.emitted + {name})|, if node.None? || name in p.emitted then 0 else Size(node.value), 3
  {
    if node.None? || name in p.emitted then
      p
    else
      MarkKeeps(p, name, node.value);
      var visited := Visit(b, Marked(p, name, node.value), name, node.value);
      KeepsIsTransitive(p, Marked(p, name, node.value), visited);
      DeclareKeeps(p, visited, name, DeclOf(name, node.value));
      Declared(visited, name, DeclOf(name, node.value))
  }

  /** emitNamedType. */
  ghost function Visit(b: Bundle, p: Progress, name: string, node: Schema): (q: Progress)
    ensures Keeps(p, q)
    decreases |Pending(b, p.emitted)|, Size(node), 2
  {
    if IsStringEnum(node) then p
    else if HasUnion(node) then VisitVariants(b, p, name, node, |UnionVariants(node)|)
    else if IsStruct(node) then VisitFields(b, p, node, |node.properties|)
    else if NodeType(node) == "array" then VisitExpr(b, p, node.items)
    else p
  }

  /** The first properties of a struct. */
  ghost function VisitFields(b: Bundle, p: Progress, node: Schema, i: nat): (q: Progress)
    requires i <= |node.properties|
    ensures Keeps(p, q)
    decreases |Pending(b, p.emitted)|, Size(node), 1, i
  {
    if i == 0 then
      p
    else
      var before := VisitFields(b, p, node, i - 1);
      PropertyIsSmaller(node.properties, i - 1);
      PendingShrinks(b, p.emitted, before.emitted);
      var q := VisitExpr(b, before, node.properties[i - 1].schema);
      KeepsIsTransitive(p, before, q);
      q
  }

  /** The first variants of a union. */
  ghost function VisitVariants(b: Bundle, p: Progress, name: string, node: Schema, i: nat): (q: Progress)
    requires HasUnion(node) && i <= |UnionVariants(node)|
    ensures Keeps(p, q)
    decreases |Pending(b, p.emitted)|, Size(node), 1, i
  {
    if i == 0 then
      p
    else
      var before := VisitVariants(b, p, name, node, i - 1);
      ListMemberIsSmaller(UnionVariants(node), i - 1);
      PendingShrinks(b, p.emitted, before.emitted);
      var q := VisitVariant(b, before, GoTypeName(name), UnionVariants(node)[i - 1], i - 1);
      KeepsIsTransitive(p, before, q);
      q
  }

  /** variantInfo: a variant with a type of its own is emitted. */
  ghost function VisitVariant(b: Bundle, p: Progress, parent: string, variant: Schema, index: nat): (q: Progress)
    ensures Keeps(p, q)
    decreases |Pending(b, p.emitted)|, Size(variant), 4
  {
    if OwnType(variant) then
      var name := VariantTypeName(parent, variant, index);
      PendingShrinks(b, p.emitted, p.emitted + {name});
      Ensure(b, p, name, Some(variant))
    else
      p
  }

  /** goTypeExpr: a reference emits its target. */
  ghost function VisitExpr(b: Bundle, p: Progress, node: Option<Schema>): (q: Progress)
    ensures Keeps(p, q)
    decreases |Pending(b, p.emitted)|, OptionSize(node), 4
  {
    if node.None? then
      p
    else
      var s := node.value;
      if RefName(s) != "" then
        RefShrinks(b, p.emitted, RefName(s));
        Ensure(b, p, RefName(s), Lookup(b, RefName(s)))
      else if NullableInner(s).Some? then
        VisitExpr(b, p, NullableInner(s))
      else if |s.allOf| == 1 then
        ListMemberIsSmaller(s.allOf, 0);
        VisitExpr(b, p, Some(s.allOf[0]))
      else if IsStringEnum(s) then
        p
      else if NodeType(s) == "array" then
        VisitExpr(b, p, s.items)
      else if NodeType(s) == "object" then
        VisitExpr(b, p, s.additional)
      else
        p
  }

  // ---- the loop over the names ----

  ghost function NameCount(b: Bundle): multiset<string> {
    multiset(b.definitions.Keys) + multiset(b.supplemental.Keys)
    + multiset{CLIENT_REQUEST, SERVER_NOTIFICATION, SERVER_REQUEST}
  }

  /** The names of the bundle in sorted order, a name in both maps twice; there is only one such sequence. */
  ghost function SortedNames(b: Bundle): (names: seq<string>)
    ensures Sorted(names) && multiset(names) == NameCount(b)
  {
    NamesExist(b);
    var names :| Sorted(names) && multiset(names) == NameCount(b);
    names
  }

  lemma NamesExist(b: Bundle)
    ensures exists names :: Sorted(names) && multiset(names) == NameCount(b)
  {
    var definitions := Listed(b.definitions.Keys);
    var supplemental := Listed(b.supplemental.Keys);
    var all := definitions + supplemental + [CLIENT_REQUEST, SERVER_NOTIFICATION, SERVER_REQUEST];
    assert multiset(all) == NameCount(b);
    assert Sorted(SortStrings(all)) && multiset(SortStrings(all)) == NameCount(b);
  }

  /** The first names, one after the other; the empty name is skipped. */
  ghost function EmitNames(b: Bundle, p: Progress, names: seq<string>, i: nat): (q: Progress)
    requires i <= |names|
    ensures Keeps(p, q)
  {
    if i == 0 then
      p
    else
      var before := EmitNames(b, p, names, i - 1);
      var q := if names[i - 1] == "" then before else Ensure(b, before, names[i - 1], Lookup(b, names[i - 1]));
      KeepsIsTransitive(p, before, q);
      q
  }

  /** The run of generateProtocol: it depends on the bundle alone, not on the order of its maps. */
  ghost function Generated(b: Bundle): Progress {
    EmitNames(b, NO_PROGRESS, SortedNames(b), |SortedNames(b)|)
  }
}
