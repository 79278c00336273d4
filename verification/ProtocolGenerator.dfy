/** The type generator as an object, proved against the functions of GeneratorRun. */
module ProtocolGen {
  import opened GeneratorRun
  import opened Wrappers
  import opened SchemaMeaning
  import opened Schemas
  import opened StringOrder
  import opened Strings

  /** Every named type of the expression that has a schema is emitted. */
  ghost predicate RefsMet(b: Bundle, emitted: set<string>, e: TypeExpr) {
    forall n :: n in Mentioned(e) && Lookup(b, n).Some? ==> n in emitted
  }

  /** What the declaration needs has been emitted; a union's references wait for the names of the bundle. */
  ghost predicate Met(b: Bundle, emitted: set<string>, d: Decl) {
    match d
    case StructDecl(_, fields, _) => forall f <- fields :: RefsMet(b, emitted, f.expr)
    case AliasDecl(_, expr) => RefsMet(b, emitted, expr)
    case UnionDecl(_, variants) => forall v <- variants :: v.Own? ==> v.key in emitted
    case EnumDecl(_, _) => true
  }

  /** Variant number `i` of a union has a type of its own, and is emitted under this name. */
  ghost predicate VariantAt(parent: string, union: Schema, i: nat, name: string, node: Schema) {
    && !IsStringEnum(union) && HasUnion(union) && i < |UnionVariants(union)|
    && node == UnionVariants(union)[i] && OwnType(node)
    && name == VariantTypeName(GoTypeName(parent), node, i)
  }

  /** The bundle asks for a type of this name and schema: it has the name, or `depth` unions lie above it. */
  ghost predicate AskedAt(b: Bundle, name: string, node: Schema, depth: nat)
    decreases depth
  {
    if depth == 0 then
      name != "" && Lookup(b, name) == Some(node)
    else
      exists parent, union, i :: AskedAt(b, parent, union, depth - 1) && VariantAt(parent, union, i, name, node)
  }

  ghost predicate Asked(b: Bundle, name: string, node: Schema) {
    exists depth: nat :: AskedAt(b, name, node, depth)
  }

  lemma NameIsAsked(b: Bundle, name: string)
    ensures name != "" && Lookup(b, name).Some? ==> Asked(b, name, Lookup(b, name).value)
  {
    if name != "" && Lookup(b, name).Some? {
      assert AskedAt(b, name, Lookup(b, name).value, 0);
    }
  }

  lemma VariantIsAsked(b: Bundle, parent: string, union: Schema, i: nat, name: string, node: Schema)
    requires Asked(b, parent, union) && VariantAt(parent, union, i, name, node)
    ensures Asked(b, name, node)
  {
    var depth: nat :| AskedAt(b, parent, union, depth);
    assert AskedAt(b, name, node, depth + 1);
  }

  ghost predicate WellFormed(b: Bundle, p: Progress) {
    && Distinct(p.order)
    && (forall n :: n in p.order <==> n in p.emitted)
    && (forall n :: n in p.sources <==> n in p.emitted)
    && (forall n :: n in p.sources ==> Asked(b, n, p.sources[n]))
    && (forall n :: n in p.decls ==>
          n in p.emitted && p.decls[n] == DeclOf(n, p.sources[n]) && Met(b, p.emitted, p.decls[n]))
  }

  /** From `p` to `q` nothing is taken back, and what was emitted meanwhile has been declared. */
  ghost predicate Extends(p: Progress, q: Progress) {
    && p.order <= q.order
    && p.emitted <= q.emitted
    && (forall n :: n in p.decls ==> n in q.decls && q.decls[n] == p.decls[n])
    && (forall n :: n in p.sources ==> n in q.sources && q.sources[n] == p.sources[n])
    && (forall n :: n in q.emitted && n !in q.decls <==> n in p.emitted && n !in p.decls)
  }

  lemma ExtendsIsTransitive(p: Progress, q: Progress, r: Progress)
    requires Extends(p, q) && Extends(q, r)
    ensures Extends(p, r)
  {
  }

  lemma RefsStayMet(b: Bundle, small: set<string>, large: set<string>, d: Decl)
    requires Met(b, small, d) && small <= large
    ensures Met(b, large, d)
  {
  }

  lemma OptionalKeepsMentions(e: TypeExpr, optional: bool)
    ensures Mentioned(ApplyOptional(e, optional)) == Mentioned(e)
  {
  }

  lemma WellFormedNames(b: Bundle, p: Progress)
    requires WellFormed(b, p)
    ensures forall n :: n in p.decls || n in p.sources ==> n in p.emitted
    ensures forall n :: n in p.emitted ==> n in p.sources
  {
  }

  /** A name is marked, its schema visited, and then the name is declared. */
  lemma VisitExtends(p: Progress, name: string, node: Schema, q: Progress, code: Decl)
    requires name !in p.emitted && (forall n :: n in p.decls ==> n in p.emitted)
    requires forall n :: n in p.sources ==> n in p.emitted
    requires Extends(Marked(p, name, node), q)
    ensures Extends(p, Declared(q, name, code))
    ensures name in q.emitted && name in q.sources && q.sources[name] == node
  {
    assert name in Marked(p, name, node).sources;
  }

  lemma DeclareKeepsWellFormed(b: Bundle, p: Progress, name: string, code: Decl)
    requires WellFormed(b, p) && name in p.emitted && code == DeclOf(name, p.sources[name]) && Met(b, p.emitted, code)
    ensures WellFormed(b, Declared(p, name, code))
  {
    hide DeclOf, Met, Asked;
  }

  lemma MarkKeepsWellFormed(b: Bundle, p: Progress, name: string, node: Schema)
    requires WellFormed(b, p) && name !in p.emitted && Asked(b, name, node)
    ensures WellFormed(b, Marked(p, name, node))
  {
    hide Met, DeclOf, Asked;
    var q := Marked(p, name, node);
    assert name !in p.order;
    forall n | n in q.decls
      ensures n in q.emitted && q.decls[n] == DeclOf(n, q.sources[n]) && Met(b, q.emitted, q.decls[n])
    {
      RefsStayMet(b, p.emitted, q.emitted, p.decls[n]);
    }
  }

  /** Ranging over a map's keys, in whatever order. */
  method AppendKeys(names: seq<string>, keys: set<string>) returns (all: seq<string>)
    ensures multiset(all) == multiset(names) + multiset(keys)
  {
    all := names;
    var left := keys;
    while left != {}
      invariant left <= keys
      invariant multiset(all) == multiset(names) + multiset(keys - left)
      decreases |left|
    {
      var n :| n in left;
      assert keys - (left - {n}) == (keys - left) + {n};
      all, left := all + [n], left - {n};
    }
    assert keys - {} == keys;
  }

  class ProtocolGenerator {
    const bundle: Bundle
    var decls: map<string, Decl>
    var order: seq<string>
    var emitted: set<string>
    ghost var sources: map<string, Schema>

    ghost function Now(): Progress
      reads this
    {
      Progress(decls, order, emitted, sources)
    }

    ghost predicate Valid()
      reads this
    {
      WellFormed(bundle, Now())
    }

    constructor (bundle: Bundle)
      ensures Valid() && this.bundle == bundle && Now() == NO_PROGRESS
    {
      this.bundle := bundle;
      decls, order, emitted, sources := map[], [], {}, map[];
    }

    method EnsureNamedType(name: string, node: Option<Schema>)
      requires Valid() && (node.Some? ==> Asked(bundle, name, node.value))
      modifies this
      ensures Now() == Ensure(bundle, old(Now()), name, node)
      ensures Valid() && Extends(old(Now()), Now())
      ensures node.Some? ==> name in emitted
      ensures node.Some? && name !in old(emitted) ==> sources[name] == node.value && name in decls
      ensures node.None? || name in old(emitted) ==> Now() == old(Now())
      decreases |Pending(bundle, emitted + {name})|, if node.None? || name in emitted then 0 else Size(node.value), 3
    {
      hide DeclOf, Met, Size, Lookup, WellFormed, Extends, Asked, Visit, Keeps;
      if node.None? || name in emitted {
        NothingNew();
        return;
      }
      ghost var before := Now();
      WellFormedNames(bundle, before);
      MarkKeepsWellFormed(bundle, before, name, node.value);
      emitted := emitted + {name};
      order := order + [name];
      sources := sources[name := node.value];
      var code := EmitNamedType(name, node.value);
      ghost var visited := Now();
      WellFormedNames(bundle, visited);
      VisitExtends(before, name, node.value, visited, code);
      DeclareKeepsWellFormed(bundle, visited, name, code);
      decls := decls[name := code];
    }

    method EmitNamedType(name: string, node: Schema) returns (code: Decl)
      requires Valid() && Asked(bundle, name, node)
      modifies this
      ensures Now() == Visit(bundle, old(Now()), name, node)
      ensures Valid() && Extends(old(Now()), Now())
      ensures code == DeclOf(name, node) && Met(bundle, emitted, code)
      decreases |Pending(bundle, emitted)|, Size(node), 2
    {
      hide WellFormed, Lookup, Asked, Keeps, VisitFields, VisitVariants, VisitExpr;
      if IsStringEnum(node) {
        return EnumDecl(GoTypeName(name), node.enum);
      }
      if HasUnion(node) {
        code := EmitUnionType(name, node);
        return;
      }
      if IsStruct(node) {
        code := EmitStructType(name, node);
        return;
      }
      if NodeType(node) == "array" {
        var elem, _ := GoTypeExpr(node.items);
        return AliasDecl(GoTypeName(name), Slice(elem));
      }
      if NodeType(node) == "string" {
        return AliasDecl(GoTypeName(name), Basic("string"));
      }
      if NodeType(node) == "integer" {
        return AliasDecl(GoTypeName(name), Basic("int64"));
      }
      if NodeType(node) == "boolean" {
        return AliasDecl(GoTypeName(name), Basic("bool"));
      }
      return AliasDecl(GoTypeName(name), AnyType);
    }

    method EmitStructType(name: string, node: Schema) returns (code: Decl)
      requires Valid()
      modifies this
      ensures Now() == VisitFields(bundle, old(Now()), node, |node.properties|)
      ensures Valid() && Extends(old(Now()), Now())
      ensures code == StructDecl(GoTypeName(name), FieldsOf(node.properties, node.required), node.additional.Some?)
      ensures StructMeans(name, node, code)
      ensures Met(bundle, emitted, code)
      decreases |Pending(bundle, emitted)|, Size(node), 1
    {
      hide WellFormed, Lookup, ExprOf, Mentioned, GoTypeName, VisitExpr, Keeps, StructMeans;
      FieldsMean(name, node);
      var fields: seq<Field> := [];
      for i := 0 to |node.properties|
        invariant Valid() && Extends(old(Now()), Now())
        invariant Now() == VisitFields(bundle, old(Now()), node, i)
        invariant fields == FieldsOf(node.properties[..i], node.required)
        invariant forall f <- fields :: RefsMet(bundle, emitted, f.expr)
      {
        var p := node.properties[i];
        PropertyIsSmaller(node.properties, i);
        PendingShrinks(bundle, old(emitted), emitted);
        ghost var before := Now();
        var expr, nullable := GoTypeExpr(p.schema);
        ExtendsIsTransitive(old(Now()), before, Now());
        var isOptional := p.key !in node.required;
        OptionalKeepsMentions(expr, isOptional || nullable);
        fields := fields + [Field(p.key, ApplyOptional(expr, isOptional || nullable), isOptional, !isOptional && nullable)];
        assert node.properties[..i + 1][..i] == node.properties[..i];
      }
      assert node.properties[..|node.properties|] == node.properties;
      return StructDecl(GoTypeName(name), fields, node.additional.Some?);
    }

    method EmitUnionType(name: string, node: Schema) returns (code: Decl)
      requires Valid() && HasUnion(node) && !IsStringEnum(node) && Asked(bundle, name, node)
      modifies this
      ensures Now() == VisitVariants(bundle, old(Now()), name, node, |UnionVariants(node)|)
      ensures Valid() && Extends(old(Now()), Now())
      ensures code == UnionDecl(GoTypeName(name), VariantsOf(GoTypeName(name), UnionVariants(node)))
      ensures Met(bundle, emitted, code)
      decreases |Pending(bundle, emitted)|, Size(node), 1
    {
      hide WellFormed, Lookup, VariantOf, GoTypeName, VisitVariant, Keeps, Asked;
      var variants := UnionVariants(node);
      var infos: seq<Variant> := [];
      for i := 0 to |variants|
        invariant Valid() && Extends(old(Now()), Now())
        invariant Now() == VisitVariants(bundle, old(Now()), name, node, i)
        invariant infos == VariantsOf(GoTypeName(name), variants)[..i]
        invariant forall v <- infos :: v.Own? ==> v.key in emitted
      {
        ListMemberIsSmaller(variants, i);
        PendingShrinks(bundle, old(emitted), emitted);
        ghost var before := Now();
        var info := VariantInfo(GoTypeName(name), variants[i], i, name, node);
        ExtendsIsTransitive(old(Now()), before, Now());
        infos := infos + [info];
      }
      return UnionDecl(GoTypeName(name), infos);
    }

    method VariantInfo(parent: string, variant: Schema, index: nat, ghost name: string, ghost union: Schema)
      returns (info: Variant)
      requires Valid() && Asked(bundle, name, union) && parent == GoTypeName(name)
      requires !IsStringEnum(union) && HasUnion(union)
      requires index < |UnionVariants(union)| && variant == UnionVariants(union)[index]
      modifies this
      ensures Now() == VisitVariant(bundle, old(Now()), parent, variant, index)
      ensures Valid() && Extends(old(Now()), Now())
      ensures info == VariantOf(parent, variant, index) && (info.Own? ==> info.key in emitted)
      decreases |Pending(bundle, emitted)|, Size(variant), 4
    {
      hide WellFormed, Lookup, VariantTypeName, Ensure, Keeps, Asked;
      var typeName := VariantTypeName(parent, variant, index);
      if RefName(variant) != "" {
        return Ref(RefName(variant));
      }
      if IsStringEnum(variant) || NodeType(variant) == "object" || variant.properties != [] {
        PendingShrinks(bundle, emitted, emitted + {typeName});
        VariantIsAsked(bundle, name, union, index, typeName, variant);
        EnsureNamedType(typeName, Some(variant));
        return Own(typeName);
      }
      return Unknown;
    }

    method GoTypeExpr(node: Option<Schema>) returns (expr: TypeExpr, nullable: bool)
      requires Valid()
      modifies this
      ensures Now() == VisitExpr(bundle, old(Now()), node)
      ensures Valid() && Extends(old(Now()), Now())
      ensures (expr, nullable) == ExprOf(node) && RefsMet(bundle, emitted, expr)
      decreases |Pending(bundle, emitted)|, OptionSize(node), 4
    {
      hide WellFormed, Lookup, Extends, Ensure, Keeps;
      if node.None? {
        NothingNew();
        return AnyType, false;
      }
      var s := node.value;
      if RefName(s) != "" {
        EnsureRef(RefName(s));
        return Named(RefName(s)), false;
      }
      if NullableInner(s).Some? {
        expr, nullable := GoTypeExpr(NullableInner(s));
        return expr, true;
      }
      if |s.allOf| == 1 {
        ListMemberIsSmaller(s.allOf, 0);
        expr, nullable := GoTypeExpr(Some(s.allOf[0]));
        return;
      }
      expr, nullable := PlainTypeExpr(s);
    }

    lemma NothingNew()
      ensures Extends(Now(), Now())
    {
    }

    /** A reference: its target is emitted when it has a schema. */
    method EnsureRef(ref: string)
      requires Valid() && ref != ""
      modifies this
      ensures Now() == Ensure(bundle, old(Now()), ref, Lookup(bundle, ref))
      ensures Valid() && Extends(old(Now()), Now())
      ensures RefsMet(bundle, emitted, Named(ref))
      decreases |Pending(bundle, emitted)|, 0, 5
    {
      hide WellFormed, Ensure, Keeps, Asked;
      RefShrinks(bundle, emitted, ref);
      NameIsAsked(bundle, ref);
      EnsureNamedType(ref, Lookup(bundle, ref));
    }

    /** goTypeExpr on a schema that is no reference, not nullable and no single allOf. */
    method PlainTypeExpr(s: Schema) returns (expr: TypeExpr, nullable: bool)
      requires Valid() && RefName(s) == "" && NullableInner(s).None? && |s.allOf| != 1
      modifies this
      ensures Now() == VisitExpr(bundle, old(Now()), Some(s))
      ensures Valid() && Extends(old(Now()), Now())
      ensures (expr, nullable) == ExprOf(Some(s)) && RefsMet(bundle, emitted, expr)
      decreases |Pending(bundle, emitted)|, Size(s), 3
    {
      hide WellFormed, Lookup, NullableInner, RefName, Keeps;
      nullable := false;
      if IsStringEnum(s) || NodeType(s) == "string" {
        expr := Basic("string");
      } else if NodeType(s) == "integer" {
        expr := Basic("int64");
      } else if NodeType(s) == "boolean" {
        expr := Basic("bool");
      } else if NodeType(s) == "array" {
        var elem, _ := GoTypeExpr(s.items);
        expr := Slice(elem);
      } else if NodeType(s) == "object" {
        var elem, _ := GoTypeExpr(s.additional);
        expr := MapOf(elem);
      } else {
        expr := if HasUnion(s) then RawMessage else AnyType;
      }
    }

    /** The names of the bundle, sorted; a name in both maps comes twice. */
    method CollectNames() returns (names: seq<string>)
      ensures names == SortedNames(bundle)
    {
      hide SortStrings, Sorted;
      names := AppendKeys([], bundle.definitions.Keys);
      names := AppendKeys(names, bundle.supplemental.Keys);
      names := names + [CLIENT_REQUEST, SERVER_NOTIFICATION, SERVER_REQUEST];
      names := SortStrings(names);
      SortedIsUnique(names, SortedNames(bundle));
    }

    /** The name loop of generateProtocol. */
    method EmitAll()
      requires Valid() && (forall n :: n in emitted ==> n in decls)
      modifies this
      ensures Now() == EmitNames(bundle, old(Now()), SortedNames(bundle), |SortedNames(bundle)|)
      ensures Valid() && Extends(old(Now()), Now())
      ensures forall n :: n in emitted <==> n in decls
      ensures forall n :: n in BundleNames(bundle) && n != "" && Lookup(bundle, n).Some? ==> n in decls
    {
      hide Met, DeclOf, Lookup, Asked, SortStrings, Ensure, Keeps;
      var names := CollectNames();
      NamesAreSorted(bundle);
      NothingNew();
      for i := 0 to |names|
        invariant Valid() && Extends(old(Now()), Now())
        invariant Now() == EmitNames(bundle, old(Now()), names, i)
        invariant forall n :: n in names[..i] && n != "" && Lookup(bundle, n).Some? ==> n in emitted
      {
        if names[i] == "" {
          continue;
        }
        ghost var before := Now();
        NameIsAsked(bundle, names[i]);
        EnsureNamedType(names[i], Lookup(bundle, names[i]));
        ExtendsIsTransitive(old(Now()), before, Now());
      }
    }
  }

  lemma NamesAreSorted(b: Bundle)
    ensures forall n :: n in SortedNames(b) <==> n in BundleNames(b)
  {
    forall n
      ensures n in SortedNames(b) <==> n in BundleNames(b)
    {
      assert n in SortedNames(b) <==> n in multiset(SortedNames(b));
    }
  }

  /** What generateProtocol hands to the file writer, for any bundle, cyclic or not. */
  ghost predicate Complete(b: Bundle, p: Progress) {
    && WellFormed(b, p)
    && (forall n :: n in p.order <==> n in p.decls)
    && (forall n :: n in BundleNames(b) && n != "" && Lookup(b, n).Some? ==> n in p.decls)
  }

  method GenerateProtocol(bundle: Bundle) returns (g: ProtocolGenerator)
    ensures fresh(g) && g.bundle == bundle
    ensures g.Now() == Generated(bundle) && Complete(bundle, g.Now()) && AllMean(g.Now())
  {
    g := new ProtocolGenerator(bundle);
    g.EmitAll();
    CompleteMeans(bundle, g.Now());
  }

  /** Every declaration is what its schema asks for, case by case. */
  ghost predicate AllMean(p: Progress) {
    forall n :: n in p.decls ==> n in p.sources && DeclMeans(n, p.sources[n], p.decls[n])
  }

  lemma CompleteMeans(b: Bundle, p: Progress)
    requires Complete(b, p)
    ensures AllMean(p)
  {
    hide DeclOf, DeclMeans, Asked, Met;
    forall n | n in p.decls
      ensures n in p.sources && DeclMeans(n, p.sources[n], p.decls[n])
    {
      DeclOfMeans(n, p.sources[n]);
    }
  }

  // ---- what a complete run means ----

  /** The type names a declaration mentions, as they are written in the Go code. */
  ghost function MentionedBy(d: Decl): set<string> {
    match d
    case StructDecl(_, fields, _) => set f, n | f in fields && n in Mentioned(f.expr) :: n
    case AliasDecl(_, expr) => Mentioned(expr)
    case UnionDecl(_, variants) =>
      (set v | v in variants && v.Ref? :: v.name) + (set v | v in variants && v.Own? :: GoTypeName(v.key))
    case EnumDecl(_, _) => {}
  }

  ghost predicate InGoNames(e: TypeExpr) {
    forall n :: n in Mentioned(e) ==> n != "" && GoTypeName(n) == n
  }

  lemma {:induction false} ExprMentionsGoNames(s: Option<Schema>)
    ensures InGoNames(ExprOf(s).0)
    decreases OptionSize(s)
  {
    hide GoTypeName, LastPart, NullableInner;
    if s.Some? {
      var node := s.value;
      if RefName(node) != "" {
        GoTypeNameIsIdempotent(LastPart(node.ref));
      } else if NullableInner(node).Some? {
        ExprMentionsGoNames(NullableInner(node));
      } else if |node.allOf| == 1 {
        ListMemberIsSmaller(node.allOf, 0);
        ExprMentionsGoNames(Some(node.allOf[0]));
      } else {
        ExprMentionsGoNames(node.items);
        ExprMentionsGoNames(node.additional);
      }
    }
  }

  lemma {:induction false} FieldsMentionGoNames(properties: seq<Property>, required: seq<string>)
    ensures forall f <- FieldsOf(properties, required) :: InGoNames(f.expr)
  {
    if properties != [] {
      var p := properties[|properties| - 1];
      FieldsMentionGoNames(properties[..|properties| - 1], required);
      ExprMentionsGoNames(p.schema);
      OptionalKeepsMentions(ExprOf(p.schema).0, p.key !in required || ExprOf(p.schema).1);
      assert InGoNames(FieldOf(p, required).expr);
    }
  }

  /**
    No declaration mentions a type that nothing declares: each mentioned name is the Go name of a declared
    one, unless it is a reference for which the bundle has no schema.
   */
  lemma MentionsAreDeclared(b: Bundle, p: Progress, n: string, m: string)
    requires Complete(b, p) && n in p.decls && m in MentionedBy(p.decls[n])
    ensures Lookup(b, m).None? || exists k :: k in p.decls && p.decls[k].name == m
  {
    hide Asked, ExprOf, FieldsOf;
    var node := p.sources[n];
    if Lookup(b, m).Some? {
      if p.decls[n].UnionDecl? && exists v :: v in p.decls[n].variants && v.Own? && GoTypeName(v.key) == m {
        var v :| v in p.decls[n].variants && v.Own? && GoTypeName(v.key) == m;
        DeclHasGoName(b, p, v.key);
      } else {
        MentionIsGoName(n, node, m);
        DeclHasGoName(b, p, m);
      }
    }
  }

  lemma DeclName(n: string, node: Schema)
    ensures DeclOf(n, node).name == GoTypeName(n)
  {
    hide GoTypeName, ExprOf, FieldsOf, VariantsOf;
  }

  lemma DeclHasGoName(b: Bundle, p: Progress, k: string)
    requires Complete(b, p) && k in p.emitted
    ensures k in p.decls && p.decls[k].name == GoTypeName(k)
  {
    hide Asked, Met, DeclOf, Lookup, Distinct;
    DeclName(k, p.sources[k]);
  }

  lemma MentionIsGoName(n: string, node: Schema, m: string)
    requires m in MentionedBy(DeclOf(n, node))
    requires DeclOf(n, node).UnionDecl? ==> exists v :: v in DeclOf(n, node).variants && v.Ref? && v.name == m
    ensures m != "" && GoTypeName(m) == m
  {
    hide GoTypeName, ExprOf, FieldsOf;
    var d := DeclOf(n, node);
    if d.StructDecl? {
      var f :| f in d.fields && m in Mentioned(f.expr);
      FieldsMentionGoNames(node.properties, node.required);
      assert InGoNames(f.expr);
    } else if d.AliasDecl? {
      ExprMentionsGoNames(node.items);
    } else if d.UnionDecl? {
      var v :| v in d.variants && v.Ref? && v.name == m;
      var i :| 0 <= i < |d.variants| && d.variants[i] == v;
      GoTypeNameIsIdempotent(LastPart(UnionVariants(node)[i].ref));
    }
  }
}
