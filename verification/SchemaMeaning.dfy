/**
  What the generated declarations mean, by cases on the schema: names, types, fields and variants, stated
  without the functions that compute them.
 */
module SchemaMeaning {
  import opened Schemas
  import opened Strings
  import opened Wrappers

  // ---- types of schemas ----

  /** The schema's type is `name`: it is named, or it is the first name in the list that is not "null". */
  ghost predicate HasType(spec: TypeSpec, name: string) {
    match spec
    case NoType => false
    case OneType(only) => only == name
    case TypeList(names) =>
      && name != "null"
      && exists i :: 0 <= i < |names| && names[i] == Some(name) && forall j :: 0 <= j < i ==> names[j] in {None, Some("null")}
  }

  lemma {:induction false} FirstTypeNameMeans(names: seq<Option<string>>, name: string)
    requires name != ""
    ensures FirstTypeName(names) == name <==> HasType(TypeList(names), name)
  {
    if names != [] && names[0] in {None, Some("null")} {
      var rest := names[1..];
      FirstTypeNameMeans(rest, name);
      if HasType(TypeList(rest), name) {
        var i :| 0 <= i < |rest| && rest[i] == Some(name) && forall j :: 0 <= j < i ==> rest[j] in {None, Some("null")};
        assert names[i + 1] == Some(name);
      }
      if HasType(TypeList(names), name) {
        var i :| 0 <= i < |names| && names[i] == Some(name) && forall j :: 0 <= j < i ==> names[j] in {None, Some("null")};
        assert rest[i - 1] == Some(name);
      }
    } else if names != [] && names[0] == Some(name) {
      assert name != "null";
    }
  }

  lemma NodeTypeMeans(s: Schema, name: string)
    requires name != ""
    ensures NodeType(s) == name <==> HasType(s.spec, name)
  {
    if s.spec.TypeList? {
      FirstTypeNameMeans(s.spec.names, name);
    }
  }

  ghost predicate IsNull(s: Schema) {
    HasType(s.spec, "null")
  }

  /** One of two schemas is null, and `inner` is the other. */
  ghost predicate BesideNull(list: seq<Schema>, inner: Schema) {
    |list| == 2 && ((IsNull(list[0]) && !IsNull(list[1]) && inner == list[1]) || (IsNull(list[1]) && !IsNull(list[0]) && inner == list[0]))
  }

  /** The schema's type is a list of "null" and another name, in either order. */
  ghost predicate ListedNull(s: Schema, inner: Schema) {
    && s.spec.TypeList? && inner.spec.OneType? && inner == s.(spec := inner.spec)
    && inner.spec.name !in {"", "null"}
    && (s.spec.names == [Some("null"), Some(inner.spec.name)] || s.spec.names == [Some(inner.spec.name), Some("null")])
  }

  /** A nullable schema: by its type, else by a two-way anyOf with a null, else by such a oneOf. */
  ghost predicate NullOr(s: Schema, inner: Schema) {
    || ListedNull(s, inner)
    || ((forall other :: !ListedNull(s, other)) && BesideNull(s.anyOf, inner))
    || ((forall other :: !ListedNull(s, other)) && (forall other :: !BesideNull(s.anyOf, other)) && BesideNull(s.oneOf, inner))
  }

  lemma NullableMeans(s: Schema, inner: Schema)
    ensures NullableInner(s) == Some(inner) <==> NullOr(s, inner)
  {
    hide NodeType, HasType;
    ListedNullIff(s);
    NonNullMemberIff(s.anyOf);
    NonNullMemberIff(s.oneOf);
    if TypeIsNullable(s) {
      assert ListedNull(s, s.(spec := OneType(NonNullName(s.spec.names))));
    } else if NonNullMember(s.anyOf).Some? {
      assert BesideNull(s.anyOf, NonNullMember(s.anyOf).value);
    }
  }

  ghost predicate TypeIsNullable(s: Schema) {
    s.spec.TypeList? && |s.spec.names| == 2 && Some("null") in s.spec.names && NonNullName(s.spec.names) != ""
  }

  lemma ListedNullIff(s: Schema)
    ensures forall inner :: ListedNull(s, inner) <==> TypeIsNullable(s) && inner == s.(spec := OneType(NonNullName(s.spec.names)))
  {
    if TypeIsNullable(s) {
      var name := NonNullName(s.spec.names);
      assert s.spec.names == [s.spec.names[0], s.spec.names[1]];
      assert ListedNull(s, s.(spec := OneType(name)));
    }
  }

  lemma NonNullMemberIff(list: seq<Schema>)
    ensures forall inner :: BesideNull(list, inner) <==> NonNullMember(list) == Some(inner)
  {
    if |list| == 2 {
      NodeTypeMeans(list[0], "null");
      NodeTypeMeans(list[1], "null");
    }
  }

  // ---- Go types ----

  /** What follows the last slash, or everything, starts here. */
  ghost predicate StartsLastPart(ref: string, i: int) {
    0 <= i <= |ref| && (i == 0 || ref[i - 1] == '/') && '/' !in ref[i..]
  }

  /** The Go name a reference stands for: that of what follows its last slash. */
  ghost predicate RefersTo(ref: string, name: string) {
    && ref != ""
    && exists i :: StartsLastPart(ref, i) && name == GoTypeName(ref[i..])
  }

  lemma {:induction false} LastPartMeans(ref: string) returns (i: nat)
    ensures StartsLastPart(ref, i) && LastPart(ref) == ref[i..]
  {
    if ref == "" {
      i := 0;
    } else if '/' in ref[1..] {
      i := LastPartMeans(ref[1..]);
      assert ref[1..][0..] == ref[1..] && ref[1..][i..] == ref[i + 1..];
      i := i + 1;
    } else if ref[0] == '/' {
      i := 1;
    } else {
      i := 0;
      assert ref == [ref[0]] + ref[1..];
    }
  }

  lemma RefNameMeans(s: Schema, name: string)
    requires name != ""
    ensures RefName(s) == name <==> RefersTo(s.ref, name)
    ensures RefName(s) == "" <==> s.ref == ""
  {
    hide GoTypeName;
    var i := LastPartMeans(s.ref);
    NameIsNotEmpty(LastPart(s.ref));
    forall j | StartsLastPart(s.ref, j)
      ensures j == i
    {
      OneLastPart(s.ref, i, j);
    }
  }

  lemma OneLastPart(ref: string, i: int, j: int)
    requires StartsLastPart(ref, i) && StartsLastPart(ref, j)
    ensures i == j
  {
  }

  lemma NameIsNotEmpty(s: string)
    ensures GoTypeName(s) != ""
  {
  }

  ghost predicate IsOther(spec: TypeSpec) {
    && !HasType(spec, "string") && !HasType(spec, "integer") && !HasType(spec, "boolean")
    && !HasType(spec, "array") && !HasType(spec, "object")
  }

  /** The Go type of a schema, and whether the schema is nullable; see `NullableMeans` for the schema beside the null. */
  ghost predicate GoType(schema: Option<Schema>, e: TypeExpr, nullable: bool)
    decreases OptionSize(schema), 0
  {
    if schema.None? then
      e == AnyType && !nullable
    else
      var s := schema.value;
      if s.ref != "" then
        e.Named? && RefersTo(s.ref, e.name) && !nullable
      else if NullableInner(s).Some? then
        nullable && GoElem(NullableInner(s), e)
      else if |s.allOf| == 1 then
        ListMemberIsSmaller(s.allOf, 0); GoType(Some(s.allOf[0]), e, nullable)
      else
        && !nullable
        && (HasType(s.spec, "string") ==> e == Basic("string"))
        && (HasType(s.spec, "integer") ==> e == Basic("int64"))
        && (HasType(s.spec, "boolean") ==> e == Basic("bool"))
        && (HasType(s.spec, "array") ==> e.Slice? && GoElem(s.items, e.elem))
        && (HasType(s.spec, "object") ==> e.MapOf? && GoElem(s.additional, e.elem))
        && (IsOther(s.spec) ==> e == if s.oneOf != [] || s.anyOf != [] then RawMessage else AnyType)
  }

  /** The type alone. */
  ghost predicate GoElem(schema: Option<Schema>, e: TypeExpr)
    decreases OptionSize(schema), 1
  {
    GoType(schema, e, true) || GoType(schema, e, false)
  }

  lemma TypesMean(s: Schema)
    ensures NodeType(s) == "string" <==> HasType(s.spec, "string")
    ensures NodeType(s) == "integer" <==> HasType(s.spec, "integer")
    ensures NodeType(s) == "boolean" <==> HasType(s.spec, "boolean")
    ensures NodeType(s) == "array" <==> HasType(s.spec, "array")
    ensures NodeType(s) == "object" <==> HasType(s.spec, "object")
  {
    NodeTypeMeans(s, "string");
    NodeTypeMeans(s, "integer");
    NodeTypeMeans(s, "boolean");
    NodeTypeMeans(s, "array");
    NodeTypeMeans(s, "object");
  }

  /** The expression is the one Go type the schema has. */
  lemma {:induction false} ExprIsGoType(schema: Option<Schema>, e: TypeExpr, nullable: bool)
    ensures GoType(schema, e, nullable) <==> e == ExprOf(schema).0 && nullable == ExprOf(schema).1
    decreases OptionSize(schema), 0
  {
    hide NodeType, HasType, NullableInner, RefersTo, RefName;
    if schema.Some? {
      var s := schema.value;
      NameOfReference(s);
      if s.ref != "" {
      } else if NullableInner(s).Some? {
        ElemIsGoType(NullableInner(s), e);
      } else if |s.allOf| == 1 {
        ListMemberIsSmaller(s.allOf, 0);
        ExprIsGoType(Some(s.allOf[0]), e, nullable);
      } else {
        TypesMean(s);
        if e.Slice? {
          ElemIsGoType(s.items, e.elem);
        } else if e.MapOf? {
          ElemIsGoType(s.additional, e.elem);
        }
      }
    }
  }

  lemma {:induction false} ElemIsGoType(schema: Option<Schema>, e: TypeExpr)
    ensures GoElem(schema, e) <==> e == ExprOf(schema).0
    decreases OptionSize(schema), 1
  {
    hide ExprOf, GoType;
    ExprIsGoType(schema, e, true);
    ExprIsGoType(schema, e, false);
  }

  lemma NameOfReference(s: Schema)
    ensures RefName(s) == "" <==> s.ref == ""
    ensures forall name :: RefersTo(s.ref, name) <==> s.ref != "" && name == RefName(s)
  {
    hide GoTypeName, RefersTo, LastPart;
    forall name
      ensures RefersTo(s.ref, name) <==> s.ref != "" && name == RefName(s)
    {
      if name != "" {
        RefNameMeans(s, name);
      } else {
        NotEmptyReference(s.ref);
        RefNameMeans(s, "x");
      }
    }
    RefNameMeans(s, "x");
  }

  lemma NotEmptyReference(ref: string)
    ensures !RefersTo(ref, "")
  {
  }

  // ---- fields ----

  /** A field: its key, whether it may be absent, must be present, and is a pointer. */
  ghost predicate FieldFrom(p: Property, required: seq<string>, plain: TypeExpr, nullable: bool, f: Field) {
    && f.key == p.key
    && (f.optional <==> p.key !in required)
    && (f.mustBePresent <==> p.key in required && nullable)
    && if (p.key !in required || nullable) && !(plain.Slice? || plain.MapOf? || plain.AnyType? || plain.RawMessage?)
       then f.expr == Pointer(plain) else f.expr == plain
  }

  ghost predicate FieldMeans(p: Property, required: seq<string>, f: Field) {
    exists plain, nullable :: GoType(p.schema, plain, nullable) && FieldFrom(p, required, plain, nullable, f)
  }

  lemma FieldOfMeans(p: Property, required: seq<string>)
    ensures FieldMeans(p, required, FieldOf(p, required))
  {
    hide ExprOf;
    var (plain, nullable) := ExprOf(p.schema);
    ExprIsGoType(p.schema, plain, nullable);
    assert FieldFrom(p, required, plain, nullable, FieldOf(p, required));
  }

  lemma {:induction false} FieldsOfMeans(properties: seq<Property>, required: seq<string>)
    ensures |FieldsOf(properties, required)| == |properties|
    ensures forall i :: 0 <= i < |properties| ==> FieldMeans(properties[i], required, FieldsOf(properties, required)[i])
  {
    hide FieldMeans, FieldOf;
    if properties != [] {
      var front := properties[..|properties| - 1];
      FieldsOfMeans(front, required);
      FieldOfMeans(properties[|properties| - 1], required);
      forall i | 0 <= i < |properties|
        ensures FieldMeans(properties[i], required, FieldsOf(properties, required)[i])
      {
        assert i < |front| ==> properties[i] == front[i];
      }
    }
  }

  /** A struct has one field for each property, in order, and collects other members if the schema allows them. */
  ghost predicate StructMeans(name: string, node: Schema, d: Decl) {
    && d.StructDecl? && d.name == GoTypeName(name) && |d.fields| == |node.properties|
    && (forall i :: 0 <= i < |d.fields| ==> FieldMeans(node.properties[i], node.required, d.fields[i]))
    && (d.extras <==> node.additional.Some?)
  }

  lemma FieldsMean(name: string, node: Schema)
    ensures StructMeans(name, node, StructDecl(GoTypeName(name), FieldsOf(node.properties, node.required), node.additional.Some?))
  {
    hide GoTypeName, FieldsOf, FieldMeans;
    FieldsOfMeans(node.properties, node.required);
  }

  // ---- variants ----

  ghost predicate HasKey(s: Schema, key: string) {
    exists p :: p in s.properties && p.key == key
  }

  /** The name a variant is emitted under: its title, marked as an envelope, or its number in the union. */
  ghost predicate VariantNamed(parent: string, s: Schema, i: nat, key: string) {
    if s.title == "" then key == parent + "Variant" + Decimal(i + 1)
    else if HasKey(s, "method") && HasKey(s, "params") then key == s.title + "Envelope"
    else key == s.title
  }

  /** A variant: a reference, a type of its own for an enum or an object, or raw. */
  ghost predicate VariantMeans(parent: string, s: Schema, i: nat, v: Variant) {
    if s.ref != "" then
      v.Ref? && RefersTo(s.ref, v.name)
    else if (HasType(s.spec, "string") && s.enum != []) || HasType(s.spec, "object") || s.properties != [] then
      v.Own? && VariantNamed(parent, s, i, v.key)
    else
      v == Unknown
  }

  ghost predicate UnionMeans(name: string, node: Schema, d: Decl) {
    var list := if node.oneOf != [] then node.oneOf else node.anyOf;
    && d.UnionDecl? && d.name == GoTypeName(name) && |d.variants| == |list|
    && forall i :: 0 <= i < |list| ==> VariantMeans(GoTypeName(name), list[i], i, d.variants[i])
  }

  lemma VariantOfMeans(parent: string, s: Schema, i: nat)
    ensures VariantMeans(parent, s, i, VariantOf(parent, s, i))
  {
    hide NodeType, HasType, RefersTo, RefName, Decimal, HasProperty, HasKey;
    NameOfReference(s);
    TypesMean(s);
    HasPropertyMeans(s, "method");
    HasPropertyMeans(s, "params");
  }

  lemma HasPropertyMeans(s: Schema, key: string)
    ensures HasProperty(s, key) <==> HasKey(s, key)
  {
    if HasProperty(s, key) {
      var i :| 0 <= i < |s.properties| && s.properties[i].key == key;
      assert s.properties[i] in s.properties;
    }
  }

  lemma VariantsMean(name: string, node: Schema)
    requires HasUnion(node)
    ensures UnionMeans(name, node, UnionDecl(GoTypeName(name), VariantsOf(GoTypeName(name), UnionVariants(node))))
  {
    hide VariantOf, VariantMeans, GoTypeName;
    var list := UnionVariants(node);
    forall i | 0 <= i < |list|
      ensures VariantMeans(GoTypeName(name), list[i], i, VariantsOf(GoTypeName(name), list)[i])
    {
      VariantOfMeans(GoTypeName(name), list[i], i);
    }
  }

  // ---- declarations ----

  /** An alias: a slice, a basic type, or any. */
  ghost predicate AliasMeans(name: string, node: Schema, d: Decl) {
    && d.AliasDecl? && d.name == GoTypeName(name)
    && (HasType(node.spec, "array") ==> d.expr.Slice? && GoElem(node.items, d.expr.elem))
    && (HasType(node.spec, "string") ==> d.expr == Basic("string"))
    && (HasType(node.spec, "integer") ==> d.expr == Basic("int64"))
    && (HasType(node.spec, "boolean") ==> d.expr == Basic("bool"))
    && (IsOther(node.spec) ==> d.expr == AnyType)
  }

  /** The declaration of a name with this schema: an enum, else a union, else a struct, else an alias. */
  ghost predicate DeclMeans(name: string, node: Schema, d: Decl) {
    if HasType(node.spec, "string") && node.enum != [] then
      d == EnumDecl(GoTypeName(name), node.enum)
    else if node.oneOf != [] || node.anyOf != [] then
      UnionMeans(name, node, d)
    else if HasType(node.spec, "object") || node.properties != [] || node.additional.Some? then
      StructMeans(name, node, d)
    else
      AliasMeans(name, node, d)
  }

  lemma DeclOfMeans(name: string, node: Schema)
    ensures DeclMeans(name, node, DeclOf(name, node))
  {
    hide NodeType, HasType, GoTypeName, UnionMeans, VariantsOf, GoElem, ExprOf, FieldMeans, FieldsOf;
    TypesMean(node);
    if HasUnion(node) {
      VariantsMean(name, node);
    }
    FieldsMean(name, node);
    ElemIsGoType(node.items, ExprOf(node.items).0);
  }

  // ---- names ----

  lemma CharactersMean(c: char)
    ensures IsLetter(c) <==> c in {
      'a', 'b', 'c', 'd', 'e', 'f', 'g', 'h', 'i', 'j', 'k', 'l', 'm', 'n', 'o', 'p', 'q', 'r', 's', 't', 'u', 'v', 'w', 'x', 'y', 'z',
      'A', 'B', 'C', 'D', 'E', 'F', 'G', 'H', 'I', 'J', 'K', 'L', 'M', 'N', 'O', 'P', 'Q', 'R', 'S', 'T', 'U', 'V', 'W', 'X', 'Y', 'Z'}
    ensures IsDigit(c) <==> c in {'0', '1', '2', '3', '4', '5', '6', '7', '8', '9'}
    ensures if 'a' <= c <= 'z' then ToUpper(c) as int - 'A' as int == c as int - 'a' as int else ToUpper(c) == c
  {
  }

  /** A character that is neither letter nor digit is dropped and ends a word. */
  lemma {:induction false} WordsAreJoined(a: string, c: char, b: string, upperNext: bool)
    requires !IsLetter(c) && !IsDigit(c)
    ensures CamelCase(a + [c] + b, upperNext) == CamelCase(a, upperNext) + CamelCase(b, true)
  {
    if a == "" {
      assert a + [c] + b == [c] + b;
    } else {
      assert (a + [c] + b)[1..] == a[1..] + [c] + b;
      WordsAreJoined(a[1..], c, b, !IsLetter(a[0]) && !IsDigit(a[0]));
    }
  }

  /** A word keeps its characters, but for a capital at its start. */
  lemma WordIsCapitalised(w: string)
    requires Alphanumeric(w)
    ensures CamelCase(w, true) == if w == "" then "" else [ToUpper(w[0])] + w[1..]
  {
    if w != "" {
      AlphanumericIsCamelCase(w[1..]);
    }
  }

  /** The words in one; a digit at the start gets an N before it, and nothing at all is "Unnamed". */
  lemma GoTypeNameMeans(s: string)
    ensures var camel := CamelCase(s, true);
      && (camel == "" ==> GoTypeName(s) == "Unnamed")
      && (camel != "" && camel[0] in {'0', '1', '2', '3', '4', '5', '6', '7', '8', '9'} ==> GoTypeName(s) == "N" + camel)
      && (camel != "" && camel[0] !in {'0', '1', '2', '3', '4', '5', '6', '7', '8', '9'} ==> GoTypeName(s) == camel)
  {
    var camel := CamelCase(s, true);
    if camel != "" {
      CharactersMean(camel[0]);
    }
  }

  function Reading(digits: string): int {
    if digits == "" then 0 else 10 * Reading(digits[..|digits| - 1]) + (digits[|digits| - 1] as int - '0' as int)
  }

  /** The decimal form reads as the number, and has no leading zero. */
  lemma {:induction false} DecimalMeans(n: nat)
    ensures Reading(Decimal(n)) == n && Decimal(n) != "" && (forall c <- Decimal(n) :: IsDigit(c))
    ensures n > 0 ==> Decimal(n)[0] != '0'
  {
    if n < 10 {
      assert Decimal(n)[..0] == "";
    } else {
      DecimalMeans(n / 10);
      DecimalMeans(n % 10);
      var front, last := Decimal(n / 10), Decimal(n % 10);
      assert |last| == 1 && (front + last)[..|front|] == front;
      assert Reading(last) == 10 * Reading(last[..0]) + (last[0] as int - '0' as int);
    }
  }

  // ---- the bundle ----

  /** The schema of a name: that of a root for the roots' names, else the definition, else the supplemental one. */
  lemma LookupMeans(b: Bundle, name: string)
    ensures name == "ClientRequest" ==> Lookup(b, name) == b.clientRequest
    ensures name == "ServerNotification" ==> Lookup(b, name) == b.serverNotification
    ensures name == "ServerRequest" ==> Lookup(b, name) == b.serverRequest
    ensures name !in {"ClientRequest", "ServerNotification", "ServerRequest"} ==>
      && (name in b.definitions ==> Lookup(b, name) == Some(b.definitions[name]))
      && (name !in b.definitions && name in b.supplemental ==> Lookup(b, name) == Some(b.supplemental[name]))
      && (name !in b.definitions && name !in b.supplemental ==> Lookup(b, name).None?)
    ensures BundleNames(b) == b.definitions.Keys + b.supplemental.Keys + {"ClientRequest", "ServerNotification", "ServerRequest"}
  {
  }
}
