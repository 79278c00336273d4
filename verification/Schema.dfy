/** JSON schemas as the generator reads them, and the Go declarations it makes of them. */
module Schemas {
  import opened Strings
  import opened Wrappers

  /** The "type" member: absent, a name, or a list in which other values than names may occur. */
  datatype TypeSpec = NoType | OneType(name: string) | TypeList(names: seq<Option<string>>)

  /** A property that is not a schema object has no schema. */
  datatype Property = Property(key: string, schema: Option<Schema>)

  /**
    A schema object. `ref` is "$ref" ("" without one), `enum` what extractEnum returns, `additional` the
    schema in "additionalProperties" (an empty one for `true`), `properties` is in key order.
   */
  datatype Schema = Schema(
    spec: TypeSpec,
    ref: string,
    title: string,
    enum: seq<string>,
    properties: seq<Property>,
    required: seq<string>,
    additional: Option<Schema>,
    items: Option<Schema>,
    oneOf: seq<Schema>,
    anyOf: seq<Schema>,
    allOf: seq<Schema>)

  // ---- size ----

  function Size(s: Schema): (n: nat)
    ensures n >= 1
    decreases s
  {
    1 + (if s.spec.TypeList? then 1 else 0) + PropertiesSize(s.properties)
    + (if s.additional.Some? then Size(s.additional.value) else 0)
    + (if s.items.Some? then Size(s.items.value) else 0)
    + ListSize(s.oneOf) + ListSize(s.anyOf) + ListSize(s.allOf)
  }

  function OptionSize(s: Option<Schema>): nat {
    if s.Some? then Size(s.value) else 0
  }

  function ListSize(list: seq<Schema>): nat
    decreases list
  {
    if list == [] then 0 else Size(list[0]) + ListSize(list[1..])
  }

  function PropertiesSize(list: seq<Property>): nat
    decreases list
  {
    if list == [] then 0
    else (if list[0].schema.Some? then Size(list[0].schema.value) else 0) + PropertiesSize(list[1..])
  }

  lemma {:induction false} ListMemberIsSmaller(list: seq<Schema>, i: nat)
    requires i < |list|
    ensures Size(list[i]) <= ListSize(list)
  {
    if i > 0 {
      ListMemberIsSmaller(list[1..], i - 1);
    }
  }

  lemma {:induction false} PropertyIsSmaller(list: seq<Property>, i: nat)
    requires i < |list|
    ensures OptionSize(list[i].schema) <= PropertiesSize(list)
  {
    if i > 0 {
      PropertyIsSmaller(list[1..], i - 1);
    }
  }

  // ---- names ----

  function ToUpper(c: char): char {
    if 'a' <= c <= 'z' then (c as int - 32) as char else c
  }

  /** Letters and digits are kept, and what follows anything else (or nothing) is capitalised. */
  function CamelCase(s: string, upperNext: bool): string {
    if s == "" then ""
    else if IsLetter(s[0]) || IsDigit(s[0]) then
      [if upperNext then ToUpper(s[0]) else s[0]] + CamelCase(s[1..], false)
    else CamelCase(s[1..], true)
  }

  function GoTypeName(s: string): string {
    var camel := CamelCase(s, true);
    if camel == "" then "Unnamed" else if IsDigit(camel[0]) then "N" + camel else camel
  }

  method MakeGoTypeName(name: string) returns (r: string)
    ensures r == GoTypeName(name)
  {
    if name == "" {
      return "Unnamed";
    }
    var b := "";
    var upperNext := true;
    for i := 0 to |name|
      invariant b + CamelCase(name[i..], upperNext) == CamelCase(name, true)
    {
      var c := name[i];
      assert name[i..][1..] == name[i + 1..];
      if IsLetter(c) || IsDigit(c) {
        b := b + [if upperNext then ToUpper(c) else c];
        upperNext := false;
      } else {
        upperNext := true;
      }
    }
    if b == "" {
      return "Unnamed";
    }
    if '0' <= b[0] <= '9' {
      return "N" + b;
    }
    return b;
  }

  ghost predicate Alphanumeric(s: string) {
    forall c <- s :: IsLetter(c) || IsDigit(c)
  }

  lemma {:induction false} CamelCaseIsAlphanumeric(s: string, upperNext: bool)
    ensures Alphanumeric(CamelCase(s, upperNext))
    ensures upperNext && CamelCase(s, true) != "" ==> ToUpper(CamelCase(s, true)[0]) == CamelCase(s, true)[0]
  {
    if s != "" {
      CamelCaseIsAlphanumeric(s[1..], !IsLetter(s[0]) && !IsDigit(s[0]));
    }
  }

  lemma {:induction false} AlphanumericIsCamelCase(s: string)
    requires Alphanumeric(s)
    ensures CamelCase(s, false) == s
  {
    if s != "" {
      AlphanumericIsCamelCase(s[1..]);
    }
  }

  /** A Go type name is its own Go type name: a reference names its target as the target's declaration does. */
  lemma GoTypeNameIsIdempotent(s: string)
    ensures GoTypeName(GoTypeName(s)) == GoTypeName(s)
  {
    CamelCaseIsAlphanumeric(s, true);
    var name := GoTypeName(s);
    assert Alphanumeric(name) && ToUpper(name[0]) == name[0];
    AlphanumericIsCamelCase(name[1..]);
    assert CamelCase(name, true) == [name[0]] + name[1..];
  }

  /** The part of a reference behind its last slash. */
  function LastPart(s: string): string {
    if s == "" then "" else if '/' in s[1..] then LastPart(s[1..]) else if s[0] == '/' then s[1..] else s
  }

  function RefName(s: Schema): string {
    if s.ref == "" then "" else GoTypeName(LastPart(s.ref))
  }

  function Decimal(n: nat): string {
    if n < 10 then [(n + '0' as int) as char] else Decimal(n / 10) + Decimal(n % 10)
  }

  // ---- what the generator asks of a schema ----

  function FirstTypeName(names: seq<Option<string>>): string {
    if names == [] then ""
    else if names[0].Some? && names[0].value != "null" then names[0].value
    else FirstTypeName(names[1..])
  }

  function NodeType(s: Schema): string {
    match s.spec
    case OneType(name) => name
    case TypeList(names) => FirstTypeName(names)
    case NoType => ""
  }

  predicate IsStringEnum(s: Schema) {
    NodeType(s) == "string" && s.enum != []
  }

  predicate HasUnion(s: Schema) {
    s.oneOf != [] || s.anyOf != []
  }

  function UnionVariants(s: Schema): seq<Schema> {
    if s.oneOf != [] then s.oneOf else s.anyOf
  }

  /** A value that is not a string reads as the empty one. */
  function TextOf(value: Option<string>): string {
    if value.Some? then value.value else ""
  }

  /** The name beside "null" in a list of two type names. */
  function NonNullName(names: seq<Option<string>>): string
    requires |names| == 2
  {
    if names[1] != Some("null") then TextOf(names[1]) else if names[0] != Some("null") then TextOf(names[0]) else ""
  }

  /** The schema beside a null one in a list of two. */
  function NonNullMember(list: seq<Schema>): Option<Schema> {
    if |list| != 2 || (NodeType(list[0]) == "null") == (NodeType(list[1]) == "null") then None
    else if NodeType(list[0]) == "null" then Some(list[1])
    else Some(list[0])
  }

  /** A nullable schema without its null. */
  function NullableInner(s: Schema): (inner: Option<Schema>)
    ensures inner.Some? ==> Size(inner.value) < Size(s)
  {
    if s.spec.TypeList? && |s.spec.names| == 2 && Some("null") in s.spec.names && NonNullName(s.spec.names) != "" then
      Some(s.(spec := OneType(NonNullName(s.spec.names))))
    else
      var any, one := NonNullMember(s.anyOf), NonNullMember(s.oneOf);
      if any.Some? then
        assert any.value == s.anyOf[0] || any.value == s.anyOf[1];
        ListMemberIsSmaller(s.anyOf, 0); ListMemberIsSmaller(s.anyOf, 1);
        any
      else if one.Some? then
        assert one.value == s.oneOf[0] || one.value == s.oneOf[1];
        ListMemberIsSmaller(s.oneOf, 0); ListMemberIsSmaller(s.oneOf, 1);
        one
      else None
  }

  predicate HasProperty(s: Schema, key: string) {
    exists i :: 0 <= i < |s.properties| && s.properties[i].key == key
  }

  function VariantTypeName(parent: string, variant: Schema, index: nat): string {
    if variant.title != "" then
      if HasProperty(variant, "method") && HasProperty(variant, "params") then variant.title + "Envelope"
      else variant.title
    else parent + "Variant" + Decimal(index + 1)
  }

  // ---- Go declarations ----

  datatype TypeExpr = AnyType | RawMessage | Basic(name: string) | Named(name: string) | Slice(elem: TypeExpr) | MapOf(elem: TypeExpr) | Pointer(elem: TypeExpr)

  datatype Field = Field(key: string, expr: TypeExpr, optional: bool, mustBePresent: bool)

  /** `Ref` is declared elsewhere; `Own` is emitted under `key` for this union; `Unknown` stays raw. */
  datatype Variant = Ref(name: string) | Own(key: string) | Unknown

  datatype Decl =
    | EnumDecl(name: string, values: seq<string>)
    | UnionDecl(name: string, variants: seq<Variant>)
    | StructDecl(name: string, fields: seq<Field>, extras: bool)
    | AliasDecl(name: string, expr: TypeExpr)

  /** The named type an expression is about, if any. */
  function Mentioned(e: TypeExpr): set<string> {
    match e
    case Named(name) => {name}
    case Slice(elem) => Mentioned(elem)
    case MapOf(elem) => Mentioned(elem)
    case Pointer(elem) => Mentioned(elem)
    case _ => {}
  }

  /** goTypeExpr: the expression for a schema, and whether it is nullable. */
  function ExprOf(s: Option<Schema>): (TypeExpr, bool)
    decreases OptionSize(s)
  {
    if s.None? then
      (AnyType, false)
    else
      var node := s.value;
      if RefName(node) != "" then (Named(RefName(node)), false)
      else if NullableInner(node).Some? then (ExprOf(NullableInner(node)).0, true)
      else if |node.allOf| == 1 then ListMemberIsSmaller(node.allOf, 0); ExprOf(Some(node.allOf[0]))
      else if IsStringEnum(node) then (Basic("string"), false)
      else
        match NodeType(node)
        case "string" => (Basic("string"), false)
        case "integer" => (Basic("int64"), false)
        case "boolean" => (Basic("bool"), false)
        case "array" => (Slice(ExprOf(node.items).0), false)
        case "object" => (MapOf(ExprOf(node.additional).0), false)
        case _ => (if HasUnion(node) then RawMessage else AnyType, false)
  }

  function ApplyOptional(e: TypeExpr, optional: bool): TypeExpr {
    if !optional || e.Slice? || e.MapOf? || e.AnyType? || e.RawMessage? then e else Pointer(e)
  }

  function FieldOf(p: Property, required: seq<string>): Field {
    var (e, nullable) := ExprOf(p.schema);
    var optional := p.key !in required;
    Field(p.key, ApplyOptional(e, optional || nullable), optional, !optional && nullable)
  }

  function FieldsOf(properties: seq<Property>, required: seq<string>): seq<Field> {
    if properties == [] then []
    else FieldsOf(properties[..|properties| - 1], required) + [FieldOf(properties[|properties| - 1], required)]
  }

  predicate OwnType(variant: Schema) {
    RefName(variant) == "" && (IsStringEnum(variant) || NodeType(variant) == "object" || variant.properties != [])
  }

  function VariantOf(parent: string, variant: Schema, index: nat): Variant {
    if RefName(variant) != "" then Ref(RefName(variant))
    else if OwnType(variant) then Own(VariantTypeName(parent, variant, index))
    else Unknown
  }

  function VariantsOf(parent: string, variants: seq<Schema>): (r: seq<Variant>)
    ensures |r| == |variants|
  {
    seq(|variants|, i requires 0 <= i < |variants| => VariantOf(parent, variants[i], i))
  }

  predicate IsStruct(node: Schema) {
    NodeType(node) == "object" || node.properties != [] || node.additional.Some?
  }

  /** emitNamedType. */
  function DeclOf(name: string, node: Schema): Decl {
    var goName := GoTypeName(name);
    if IsStringEnum(node) then EnumDecl(goName, node.enum)
    else if HasUnion(node) then UnionDecl(goName, VariantsOf(goName, UnionVariants(node)))
    else if IsStruct(node) then StructDecl(goName, FieldsOf(node.properties, node.required), node.additional.Some?)
    else
      match NodeType(node)
      case "array" => AliasDecl(goName, Slice(ExprOf(node.items).0))
      case "string" => AliasDecl(goName, Basic("string"))
      case "integer" => AliasDecl(goName, Basic("int64"))
      case "boolean" => AliasDecl(goName, Basic("bool"))
      case _ => AliasDecl(goName, AnyType)
  }

  // ---- the bundle ----

  datatype Bundle = Bundle(
    definitions: map<string, Schema>,
    supplemental: map<string, Schema>,
    clientRequest: Option<Schema>,
    serverNotification: Option<Schema>,
    serverRequest: Option<Schema>)

  const CLIENT_REQUEST := "ClientRequest"
  const SERVER_NOTIFICATION := "ServerNotification"
  const SERVER_REQUEST := "ServerRequest"

  function BundleNames(b: Bundle): set<string> {
    b.definitions.Keys + b.supplemental.Keys + {CLIENT_REQUEST, SERVER_NOTIFICATION, SERVER_REQUEST}
  }

  /** The three root schemas go before definitions of the same name, definitions before supplemental ones. */
  function Lookup(b: Bundle, name: string): (s: Option<Schema>)
    ensures s.Some? ==> name in BundleNames(b)
  {
    if name == CLIENT_REQUEST then b.clientRequest
    else if name == SERVER_NOTIFICATION then b.serverNotification
    else if name == SERVER_REQUEST then b.serverRequest
    else if name in b.definitions then Some(b.definitions[name])
    else if name in b.supplemental then Some(b.supplemental[name])
    else None
  }
}
