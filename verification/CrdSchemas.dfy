/**
 * The CRD-to-KCL compiler (host/src/crd-schemas.ts): a nested OpenAPI type
 * becomes schema blocks that name each other, against a direct translation
 * that has no names.
 */
module CrdSchemas {
  import opened Common
  import opened Decimal

  // ---------------------------------------------------------------- OpenAPI

  /** A member of a JSON object. */
  datatype Member = Member(name: string, value: Json)

  /** JSON values other than null. */
  datatype Json =
    | Text(s: string) | Integer(n: int) | Fraction(r: real) | Boolean(b: bool)
    | Items(items: seq<Json>) | Object(members: seq<Member>)

  datatype EnumValue = NullValue | Value(v: Json)

  datatype Additional = Absent | Flag(b: bool) | Of(schema: OpenApi)

  datatype Property = Property(name: string, schema: OpenApi)

  /** The fields the compiler reads; `properties` in the order `sortedEntries` puts them. */
  datatype OpenApi = OpenApi(
    kind: Option<string>,
    properties: seq<Property>,
    required: set<string>,
    items: Option<OpenApi>,
    additional: Additional,
    values: seq<EnumValue>,
    nullable: bool,
    intOrString: bool,
    preserveUnknown: bool,
    embeddedResource: bool)

  const EMPTY := OpenApi(None, [], {}, None, Absent, [], false, false, false, false)

  predicate OpenEnded(s: OpenApi) {
    s.preserveUnknown || s.embeddedResource || s.additional == Flag(true)
  }

  // ---------------------------------------------------------------- KCL

  datatype Kcl =
    | IntOrStr | Str | Int | Float | Bool | Any
    | ObjectMeta
    | Strings(ss: seq<string>)
    | Integers(ns: seq<int>)
    | ListOf(item: Kcl)
    | DictOf(value: Kcl)
    | Ref(name: string)

  /** A schema attribute; `default` is the text it has where none is given. */
  datatype Attr = Attr(name: string, optional: bool, t: Kcl, default: Option<string>)

  /** A pushed block: reserved until its body is known. */
  datatype Block =
    | Reserved
    | Schema(name: string, attrs: seq<Attr>, rest: Option<Kcl>)

  function NotNull(values: seq<EnumValue>): seq<EnumValue> {
    if values == [] then []
    else (if values[0].NullValue? then [] else [values[0]]) + NotNull(values[1..])
  }

  /** `new Set(values)`: first occurrences, in order. */
  function Distinct<T(==)>(values: seq<T>): seq<T> {
    if values == [] then []
    else
      var n := |values| - 1;
      var rest := Distinct(values[..n]);
      if values[n] in values[..n] then rest else rest + [values[n]]
  }

  predicate IsText(e: EnumValue) {
    e.Value? && e.v.Text?
  }

  predicate IsInteger(e: EnumValue) {
    e.Value? && e.v.Integer?
  }

  function StringsOf(values: seq<EnumValue>): (r: seq<string>)
    requires forall i :: 0 <= i < |values| ==> IsText(values[i])
  {
    seq(|values|, i requires 0 <= i < |values| && IsText(values[i]) => values[i].v.s)
  }

  function IntegersOf(values: seq<EnumValue>): (r: seq<int>)
    requires forall i :: 0 <= i < |values| ==> IsInteger(values[i])
  {
    seq(|values|, i requires 0 <= i < |values| && IsInteger(values[i]) => values[i].v.n)
  }

  /** `enumLiterals`: strings or integers as a union of literals. */
  function EnumLiterals(s: OpenApi): Option<Kcl> {
    var values := NotNull(s.values);
    if values == [] then None
    else if s.kind == Some("string") && forall i | 0 <= i < |values| :: IsText(values[i])
    then Some(Strings(Distinct(StringsOf(values))))
    else if s.kind == Some("integer") && forall i | 0 <= i < |values| :: IsInteger(values[i])
    then Some(Integers(Distinct(IntegersOf(values))))
    else None
  }

  /** The types that need no recursion; `None` is an array or an object. */
  function Simple(s: OpenApi): Option<Kcl> {
    var literals := EnumLiterals(s);
    if s.intOrString then Some(IntOrStr)
    else if literals.Some? then literals
    else if s.kind == Some("string") then Some(Str)
    else if s.kind == Some("integer") then Some(Int)
    else if s.kind == Some("number") then Some(Float)
    else if s.kind == Some("boolean") then Some(Bool)
    else if s.kind == Some("array") || s.kind == Some("object") || s.kind.None? then None
    else Some(Any)
  }

  // ---------------------------------------------------------------- names

  const KEYWORDS: set<string> := {
    "True", "False", "None", "Undefined", "import", "as", "rule", "schema", "mixin", "protocol", "check", "for",
    "assert", "if", "elif", "else", "or", "and", "not", "in", "is", "lambda", "all", "any", "filter", "map", "type"}

  predicate Alphanumeric(c: char) {
    'A' <= c <= 'Z' || 'a' <= c <= 'z' || '0' <= c <= '9'
  }

  function Upper(c: char): char {
    if 'a' <= c <= 'z' then (c as int - 32) as char else c
  }

  function PascalFrom(text: string, capitalize: bool): string {
    if text == [] then ""
    else if Alphanumeric(text[0])
    then [if capitalize then Upper(text[0]) else text[0]] + PascalFrom(text[1..], false)
    else PascalFrom(text[1..], true)
  }

  function PascalCase(text: string): string {
    var out := PascalFrom(text, true);
    if out == "" then "_" else if '0' <= out[0] <= '9' then "_" + out else out
  }

  /** The names `unique` tries: the hint, then the hint with 2, 3, ... behind it. */
  function Candidate(hint: string, k: nat): string {
    if k < 2 then hint else hint + Digits(k, 10)
  }

  lemma CandidatesDiffer(hint: string, j: nat, k: nat)
    requires j < k && k >= 2
    ensures Candidate(hint, j) != Candidate(hint, k)
  {
    if j < 2 {
      assert |Candidate(hint, k)| > |hint|;
    } else if Candidate(hint, j) == Candidate(hint, k) {
      assert Digits(j, 10) == Candidate(hint, j)[|hint|..] == Candidate(hint, k)[|hint|..] == Digits(k, 10);
      DigitsInjective(j, k, 10);
    }
  }

  /** The used names the search has yet to meet. */
  ghost function Ahead(used: set<string>, hint: string, k: nat): set<string> {
    set c | c in used && exists j: nat :: j >= k && c == Candidate(hint, j)
  }

  lemma AheadShrinks(used: set<string>, hint: string, k: nat)
    requires k >= 1 && Candidate(hint, k) in used
    ensures Ahead(used, hint, k + 1) < Ahead(used, hint, k)
  {
    assert Candidate(hint, k) in Ahead(used, hint, k);
    if Candidate(hint, k) in Ahead(used, hint, k + 1) {
      var j: nat :| j >= k + 1 && Candidate(hint, k) == Candidate(hint, j);
      CandidatesDiffer(hint, k, j);
    }
  }

  function FirstFree(used: set<string>, hint: string, k: nat): (name: string)
    requires k >= 1
    ensures name !in used && exists j: nat :: j >= k && name == Candidate(hint, j)
    decreases Ahead(used, hint, k)
  {
    if Candidate(hint, k) !in used then Candidate(hint, k)
    else
      AheadShrinks(used, hint, k);
      FirstFree(used, hint, k + 1)
  }

  function UniqueName(names: set<string>, hint: string): string {
    FirstFree(names + KEYWORDS, hint, 1)
  }

  // ---------------------------------------------------------------- the compiler

  datatype State = State(names: set<string>, blocks: seq<Block>)

  function Reserve(st: State, hint: string): (string, State) {
    var name := UniqueName(st.names, hint);
    (name, State(st.names + {name}, st.blocks + [Reserved]))
  }

  /** `type`. */
  function TypeOf(s: OpenApi, hint: string, st: State): (Kcl, State)
    decreases s, 1
  {
    var simple := Simple(s);
    if simple.Some? then (simple.value, st)
    else if s.kind == Some("array") then
      if s.items.None? then (ListOf(Any), st)
      else
        var (t, st') := TypeOf(s.items.value, hint + "Item", st);
        (ListOf(t), st')
    else ObjectOf(s, hint, st)
  }

  /** `object`. */
  function ObjectOf(s: OpenApi, hint: string, st: State): (Kcl, State)
    decreases s, 0
  {
    if s.properties == [] then
      if s.additional.Of? then
        var (t, st') := TypeOf(s.additional.schema, hint + "Value", st);
        (DictOf(t), st')
      else if s.kind.None? && !s.preserveUnknown then (Any, st)
      else (DictOf(Any), st)
    else
      var (name, st1) := Reserve(st, hint);
      var (attrs, st2) := AttributesOf(s.properties, s.required, name, st1);
      var (rest, st3) := RestOf(s, name, st2);
      (Ref(name), Place(st3, |st.blocks|, Schema(name, attrs, rest)))
  }

  /** The type of fields beyond the declared ones. */
  function RestOf(s: OpenApi, name: string, st: State): (Option<Kcl>, State)
    decreases s.additional
  {
    if s.additional.Of? then
      var (t, st') := TypeOf(s.additional.schema, name + "Value", st);
      (Some(t), st')
    else (if OpenEnded(s) then Some(Any) else None, st)
  }

  function AttributesOf(properties: seq<Property>, required: set<string>, name: string, st: State): (seq<Attr>, State)
    decreases properties
  {
    if properties == [] then ([], st)
    else
      var p := properties[0];
      var (t, st') := TypeOf(p.schema, name + PascalCase(p.name), st);
      var (more, st'') := AttributesOf(properties[1..], required, name, st');
      ([Attr(p.name, p.name !in required || p.schema.nullable, t, None)] + more, st'')
  }

  /** `blocks[index] = body`. */
  function Place(st: State, index: nat, block: Block): State {
    if index < |st.blocks| then st.(blocks := st.blocks[index := block]) else st
  }

  datatype CrdVersion = CrdVersion(group: string, version: string, kind: string, schema: Option<OpenApi>)

  const ENVELOPE: set<string> := {"apiVersion", "kind", "metadata", "status"}

  function OwnProperties(properties: seq<Property>): seq<Property> {
    if properties == [] then []
    else (if properties[0].name in ENVELOPE then [] else [properties[0]]) + OwnProperties(properties[1..])
  }

  function RootSchema(v: CrdVersion): OpenApi {
    if v.schema.Some? then v.schema.value else EMPTY
  }

  predicate RootOpen(v: CrdVersion) {
    v.schema.None? || OpenEnded(v.schema.value)
  }

  function ApiVersion(v: CrdVersion): string {
    v.group + "/" + v.version
  }

  /** The attributes every kind starts with: two fixed strings, given by default, and the imported metadata type. */
  function Enveloped(v: CrdVersion, attrs: seq<Attr>): seq<Attr> {
    [Attr("apiVersion", false, Strings([ApiVersion(v)]), Some(ApiVersion(v)))]
    + ([Attr("kind", false, Strings([v.kind]), Some(v.kind))] + ([Attr("metadata", true, ObjectMeta, None)] + attrs))
  }

  /** `kind`: the blocks of one file, its root first. */
  function KindOf(v: CrdVersion, names: set<string>): (string, State) {
    var (name, st1) := Reserve(State(names, []), PascalCase(v.kind));
    var root := RootSchema(v);
    var (attrs, st2) := AttributesOf(OwnProperties(root.properties), root.required, name, st1);
    var rest := if RootOpen(v) then Some(Any) else None;
    (name, Place(st2, 0, Schema(name, Enveloped(v, attrs), rest)))
  }

  // ---------------------------------------------------------------- the direct translation

  /** KCL types with records in place of names. */
  datatype Shape =
    | Plain(t: Kcl)
    | List(item: Shape)
    | Dict(value: Shape)
    | Rec(fields: seq<ShapeField>, rest: Option<Shape>)

  datatype ShapeField = ShapeField(name: string, optional: bool, t: Shape, default: Option<string>)

  function Direct(s: OpenApi): Shape
    decreases s, 1
  {
    var simple := Simple(s);
    if simple.Some? then Plain(simple.value)
    else if s.kind == Some("array") then List(if s.items.None? then Plain(Any) else Direct(s.items.value))
    else if s.properties != [] then Rec(DirectFields(s.properties, s.required), DirectRest(s))
    else if s.additional.Of? then Dict(Direct(s.additional.schema))
    else if s.kind.None? && !s.preserveUnknown then Plain(Any)
    else Dict(Plain(Any))
  }

  function DirectRest(s: OpenApi): Option<Shape>
    decreases s, 0
  {
    if s.additional.Of? then Some(Direct(s.additional.schema))
    else if OpenEnded(s) then Some(Plain(Any)) else None
  }

  function DirectFields(properties: seq<Property>, required: set<string>): (r: seq<ShapeField>)
    ensures |r| == |properties|
    decreases properties
  {
    if properties == [] then []
    else
      var p := properties[0];
      [ShapeField(p.name, p.name !in required || p.schema.nullable, Direct(p.schema), None)]
      + DirectFields(properties[1..], required)
  }

  function DirectKind(v: CrdVersion): Shape {
    var root := RootSchema(v);
    Rec(DirectEnveloped(v, DirectFields(OwnProperties(root.properties), root.required)),
        if RootOpen(v) then Some(Plain(Any)) else None)
  }

  function DirectEnveloped(v: CrdVersion, fields: seq<ShapeField>): seq<ShapeField> {
    [ShapeField("apiVersion", false, Plain(Strings([ApiVersion(v)])), Some(ApiVersion(v)))]
    + ([ShapeField("kind", false, Plain(Strings([v.kind])), Some(v.kind))]
       + ([ShapeField("metadata", true, Plain(ObjectMeta), None)] + fields))
  }

  /** Looking names up among `blocks`, the type `t` is the shape `sh`. */
  ghost predicate Means(blocks: set<Block>, t: Kcl, sh: Shape)
    decreases sh
  {
    match sh
    case Plain(p) => t == p && !t.Ref?
    case List(item) => t.ListOf? && Means(blocks, t.item, item)
    case Dict(value) => t.DictOf? && Means(blocks, t.value, value)
    case Rec(fields, rest) =>
      t.Ref? && exists b :: b in blocks && b.Schema? && b.name == t.name && MeansFields(blocks, b.attrs, fields)
                            && MeansRest(blocks, b.rest, rest)
  }

  ghost predicate MeansFields(blocks: set<Block>, attrs: seq<Attr>, fields: seq<ShapeField>)
    decreases fields
  {
    if fields == [] then attrs == []
    else
      && attrs != []
      && attrs[0].name == fields[0].name && attrs[0].optional == fields[0].optional
      && attrs[0].default == fields[0].default
      && Means(blocks, attrs[0].t, fields[0].t)
      && MeansFields(blocks, attrs[1..], fields[1..])
  }

  ghost predicate MeansRest(blocks: set<Block>, rest: Option<Kcl>, shape: Option<Shape>)
    decreases shape
  {
    if shape.None? then rest.None? else rest.Some? && Means(blocks, rest.value, shape.value)
  }
}
