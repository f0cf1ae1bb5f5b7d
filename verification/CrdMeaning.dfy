/**
 * What a CRD's OpenAPI schema admits and what the KCL schemas generated from
 * it admit, as predicates on JSON values, and when the two agree
 * (host/src/crd-schemas.ts). A null member counts as an absent one, as in
 * KCL; there is no other null among the values.
 */
module CrdMeaning {
  import opened Common
  import opened CrdSchemas
  import opened CrdCorrect

  ghost predicate Has(v: Json, name: string)
    requires v.Object?
  {
    exists m :: m in v.members && m.name == name
  }

  // ---------------------------------------------------------------- what a schema admits

  /** The `type` keyword; a type that is none of OpenAPI's says nothing. */
  predicate HasType(kind: Option<string>, v: Json) {
    && (kind == Some("string") ==> v.Text?)
    && (kind == Some("integer") ==> v.Integer?)
    && (kind == Some("number") ==> v.Integer? || v.Fraction?)
    && (kind == Some("boolean") ==> v.Boolean?)
    && (kind == Some("array") ==> v.Items?)
    && (kind == Some("object") ==> v.Object?)
  }

  predicate KeepsUnknown(s: OpenApi) {
    s.preserveUnknown || s.embeddedResource || s.additional == Flag(true)
  }

  predicate Declares(properties: seq<Property>, name: string) {
    exists p :: p in properties && p.name == name
  }

  /** A required property that may be null may be absent. */
  predicate MayBeAbsent(s: OpenApi, name: string) {
    Declares(s.properties, name) && forall p | p in s.properties && p.name == name :: p.schema.nullable
  }

  /**
   * Every keyword constrains the values it is about; a schema that declares
   * properties is closed unless it says otherwise.
   */
  ghost predicate Admits(s: OpenApi, v: Json)
    decreases v, 1
  {
    && HasType(s.kind, v)
    && (s.intOrString ==> v.Integer? || v.Text?)
    && (s.values != [] ==> Value(v) in s.values)
    && (v.Items? && s.items.Some? ==> forall e :: e in v.items ==> Admits(s.items.value, e))
    && (v.Object? ==> AdmitsMembers(s, v))
  }

  ghost predicate AdmitsMembers(s: OpenApi, v: Json)
    requires v.Object?
    decreases v, 0
  {
    && (forall name :: name in s.required ==> Has(v, name) || MayBeAbsent(s, name))
    && (forall m, p :: m in v.members && p in s.properties && p.name == m.name ==> Admits(p.schema, m.value))
    && (forall m :: m in v.members && !Declares(s.properties, m.name) ==>
          if s.additional.Of? then Admits(s.additional.schema, m.value)
          else KeepsUnknown(s) || (s.properties == [] && s.additional.Absent?))
  }

  // ---------------------------------------------------------------- what KCL admits

  /** A type whose names are looked up among `blocks`; a float may be an integer; `meta` is what `ObjectMeta` admits. */
  ghost predicate Fits(meta: Json -> bool, blocks: set<Block>, t: Kcl, v: Json)
    decreases v, 1
  {
    match t
    case IntOrStr => v.Integer? || v.Text?
    case Str => v.Text?
    case Int => v.Integer?
    case Float => v.Integer? || v.Fraction?
    case Bool => v.Boolean?
    case Any => true
    case ObjectMeta => meta(v)
    case Strings(ss) => v.Text? && v.s in ss
    case Integers(ns) => v.Integer? && v.n in ns
    case ListOf(item) => v.Items? && forall e :: e in v.items ==> Fits(meta, blocks, item, e)
    case DictOf(value) => v.Object? && forall m :: m in v.members ==> Fits(meta, blocks, value, m.value)
    case Ref(name) =>
      v.Object? && exists b :: b in blocks && b.Schema? && b.name == name && Conforms(meta, blocks, b.attrs, b.rest, v)
  }

  ghost predicate HasAttr(attrs: seq<Attr>, name: string) {
    exists a :: a in attrs && a.name == name
  }

  ghost predicate Conforms(meta: Json -> bool, blocks: set<Block>, attrs: seq<Attr>, rest: Option<Kcl>, v: Json)
    requires v.Object?
    decreases v, 0
  {
    && (forall a :: a in attrs ==> Has(v, a.name) || a.optional || a.default.Some?)
    && (forall m, a :: m in v.members && a in attrs && a.name == m.name ==> Fits(meta, blocks, a.t, m.value))
    && (forall m :: m in v.members && !HasAttr(attrs, m.name) ==> rest.Some? && Fits(meta, blocks, rest.value, m.value))
  }

  // ---------------------------------------------------------------- the same of shapes

  ghost predicate InShape(meta: Json -> bool, sh: Shape, v: Json)
    decreases v, 1
  {
    match sh
    case Plain(t) => Fits(meta, {}, t, v)
    case List(item) => v.Items? && forall e :: e in v.items ==> InShape(meta, item, e)
    case Dict(value) => v.Object? && forall m :: m in v.members ==> InShape(meta, value, m.value)
    case Rec(fields, rest) => v.Object? && InRecord(meta, fields, rest, v)
  }

  ghost predicate HasField(fields: seq<ShapeField>, name: string) {
    exists f :: f in fields && f.name == name
  }

  ghost predicate InRecord(meta: Json -> bool, fields: seq<ShapeField>, rest: Option<Shape>, v: Json)
    requires v.Object?
    decreases v, 0
  {
    && (forall f :: f in fields ==> Has(v, f.name) || f.optional || f.default.Some?)
    && (forall m, f :: m in v.members && f in fields && f.name == m.name ==> InShape(meta, f.t, m.value))
    && (forall m :: m in v.members && !HasField(fields, m.name) ==> rest.Some? && InShape(meta, rest.value, m.value))
  }

  lemma {:induction false} MeansAt(blocks: set<Block>, attrs: seq<Attr>, fields: seq<ShapeField>)
    requires MeansFields(blocks, attrs, fields)
    ensures |attrs| == |fields|
    ensures forall i :: 0 <= i < |fields| ==>
              && attrs[i].name == fields[i].name && attrs[i].optional == fields[i].optional
              && attrs[i].default == fields[i].default && Means(blocks, attrs[i].t, fields[i].t)
    decreases |fields|
  {
    if fields != [] {
      MeansAt(blocks, attrs[1..], fields[1..]);
      assert forall i :: 0 < i < |fields| ==> fields[i] == fields[1..][i - 1];
      assert forall i :: 0 < i < |attrs| ==> attrs[i] == attrs[1..][i - 1];
    }
  }

  ghost predicate OneEach(blocks: set<Block>) {
    forall a, b :: a in blocks && b in blocks && a.Schema? && b.Schema? && a.name == b.name ==> a == b
  }

  /** Plain types name nothing, so it does not matter where names are looked up. */
  ghost predicate Plainly(sh: Shape) {
    match sh
    case Plain(t) => !t.Ref? && !t.ListOf? && !t.DictOf?
    case List(item) => Plainly(item)
    case Dict(value) => Plainly(value)
    case Rec(fields, rest) => (forall f :: f in fields ==> Plainly(f.t)) && (rest.Some? ==> Plainly(rest.value))
  }

  /** Among blocks with names of their own, a type admits what the shape it means admits. */
  lemma {:induction false} FitsIsInShape(meta: Json -> bool, blocks: set<Block>, t: Kcl, sh: Shape, v: Json)
    requires OneEach(blocks) && Means(blocks, t, sh) && Plainly(sh)
    ensures Fits(meta, blocks, t, v) <==> InShape(meta, sh, v)
    decreases v, 1
  {
    match sh
    case Plain(_) =>
    case List(item) =>
      if v.Items? {
        forall e | e in v.items ensures Fits(meta, blocks, t.item, e) <==> InShape(meta, item, e) {
          FitsIsInShape(meta, blocks, t.item, item, e);
        }
      }
    case Dict(value) =>
      if v.Object? {
        forall m | m in v.members ensures Fits(meta, blocks, t.value, m.value) <==> InShape(meta, value, m.value) {
          FitsIsInShape(meta, blocks, t.value, value, m.value);
        }
      }
    case Rec(fields, rest) =>
      if v.Object? {
        var b :| b in blocks && b.Schema? && b.name == t.name && MeansFields(blocks, b.attrs, fields)
                 && MeansRest(blocks, b.rest, rest);
        ConformsIsInRecord(meta, blocks, b.attrs, b.rest, fields, rest, v);
      }
  }

  lemma {:induction false} ConformsIsInRecord(
    meta: Json -> bool, blocks: set<Block>, attrs: seq<Attr>, rest: Option<Kcl>, fields: seq<ShapeField>,
    restShape: Option<Shape>, v: Json)
    requires OneEach(blocks) && v.Object? && MeansFields(blocks, attrs, fields) && MeansRest(blocks, rest, restShape)
    requires Plainly(Rec(fields, restShape))
    ensures Conforms(meta, blocks, attrs, rest, v) <==> InRecord(meta, fields, restShape, v)
    decreases v, 0
  {
    MeansAt(blocks, attrs, fields);
    forall i, m | 0 <= i < |fields| && m in v.members
      ensures Fits(meta, blocks, attrs[i].t, m.value) <==> InShape(meta, fields[i].t, m.value)
    {
      assert fields[i] in fields;
      FitsIsInShape(meta, blocks, attrs[i].t, fields[i].t, m.value);
    }
    if rest.Some? {
      forall m | m in v.members
        ensures Fits(meta, blocks, rest.value, m.value) <==> InShape(meta, restShape.value, m.value)
      {
        FitsIsInShape(meta, blocks, rest.value, restShape.value, m.value);
      }
    }
    SameNames(attrs, fields);
    if Conforms(meta, blocks, attrs, rest, v) {
      ConformingIsInRecord(meta, blocks, attrs, rest, fields, restShape, v);
    }
    if InRecord(meta, fields, restShape, v) {
      InRecordConforms(meta, blocks, attrs, rest, fields, restShape, v);
    }
  }

  ghost predicate Alike(
    meta: Json -> bool, blocks: set<Block>, attrs: seq<Attr>, rest: Option<Kcl>, fields: seq<ShapeField>,
    restShape: Option<Shape>, v: Json)
    requires v.Object?
  {
    && |attrs| == |fields| && (rest.Some? <==> restShape.Some?)
    && (forall i :: 0 <= i < |fields| ==>
          && attrs[i].name == fields[i].name && attrs[i].optional == fields[i].optional
          && attrs[i].default == fields[i].default)
    && (forall i, m :: 0 <= i < |fields| && m in v.members ==>
          (Fits(meta, blocks, attrs[i].t, m.value) <==> InShape(meta, fields[i].t, m.value)))
    && (rest.Some? ==> forall m :: m in v.members ==>
          (Fits(meta, blocks, rest.value, m.value) <==> InShape(meta, restShape.value, m.value)))
  }

  lemma SameNames(attrs: seq<Attr>, fields: seq<ShapeField>)
    requires |attrs| == |fields| && forall i :: 0 <= i < |fields| ==> attrs[i].name == fields[i].name
    ensures forall name :: HasAttr(attrs, name) <==> HasField(fields, name)
  {
    forall name ensures HasAttr(attrs, name) <==> HasField(fields, name) {
      if a :| a in attrs && a.name == name {
        var i :| 0 <= i < |attrs| && attrs[i] == a;
        assert fields[i] in fields;
      }
      if f :| f in fields && f.name == name {
        var i :| 0 <= i < |fields| && fields[i] == f;
        assert attrs[i] in attrs;
      }
    }
  }

  lemma ConformingIsInRecord(
    meta: Json -> bool, blocks: set<Block>, attrs: seq<Attr>, rest: Option<Kcl>, fields: seq<ShapeField>,
    restShape: Option<Shape>, v: Json)
    requires v.Object? && Alike(meta, blocks, attrs, rest, fields, restShape, v)
    requires forall name :: HasAttr(attrs, name) <==> HasField(fields, name)
    requires Conforms(meta, blocks, attrs, rest, v)
    ensures InRecord(meta, fields, restShape, v)
  {
    forall f | f in fields
      ensures Has(v, f.name) || f.optional || f.default.Some?
      ensures forall m :: m in v.members && f.name == m.name ==> InShape(meta, f.t, m.value)
    {
      var i :| 0 <= i < |fields| && fields[i] == f;
      assert attrs[i] in attrs;
    }
  }

  lemma InRecordConforms(
    meta: Json -> bool, blocks: set<Block>, attrs: seq<Attr>, rest: Option<Kcl>, fields: seq<ShapeField>,
    restShape: Option<Shape>, v: Json)
    requires v.Object? && Alike(meta, blocks, attrs, rest, fields, restShape, v)
    requires forall name :: HasAttr(attrs, name) <==> HasField(fields, name)
    requires InRecord(meta, fields, restShape, v)
    ensures Conforms(meta, blocks, attrs, rest, v)
  {
    forall a | a in attrs
      ensures Has(v, a.name) || a.optional || a.default.Some?
      ensures forall m :: m in v.members && a.name == m.name ==> Fits(meta, blocks, a.t, m.value)
    {
      var i :| 0 <= i < |attrs| && attrs[i] == a;
      assert fields[i] in fields;
    }
  }

  // ---------------------------------------------------------------- enums

  lemma {:induction false} NotNullMeaning(values: seq<EnumValue>)
    ensures forall e :: e in NotNull(values) <==> e in values && e.Value?
  {
    if values != [] {
      NotNullMeaning(values[1..]);
      assert values == [values[0]] + values[1..];
    }
  }

  lemma {:induction false} DistinctMeaning<T>(values: seq<T>)
    ensures forall e :: e in Distinct(values) <==> e in values
  {
    if values != [] {
      var n := |values| - 1;
      DistinctMeaning(values[..n]);
      assert values == values[..n] + [values[n]];
    }
  }

  /** Values other than null are all of one kind, and there are some. */
  predicate AllTexts(values: seq<EnumValue>) {
    (exists e :: e in values && e.Value?) && forall e :: e in values && e.Value? ==> e.v.Text?
  }

  predicate AllIntegers(values: seq<EnumValue>) {
    (exists e :: e in values && e.Value?) && forall e :: e in values && e.Value? ==> e.v.Integer?
  }

  /**
   * An enum becomes literals exactly for a string or integer type whose values
   * are of that kind, and they are its values.
   */
  lemma EnumsBecomeLiterals(s: OpenApi)
    ensures EnumLiterals(s).Some? <==>
            (s.kind == Some("string") && AllTexts(s.values)) || (s.kind == Some("integer") && AllIntegers(s.values))
    ensures EnumLiterals(s).Some? ==>
            forall meta, v :: Fits(meta, {}, EnumLiterals(s).value, v) <==> Value(v) in s.values
    ensures EnumLiterals(s).Some? ==> EnumLiterals(s).value.Strings? || EnumLiterals(s).value.Integers?
  {
    var values := NotNull(s.values);
    NotNullMeaning(s.values);
    assert values == [] <==> !exists e :: e in s.values && e.Value? by {
      if values != [] {
        assert values[0] in values;
      }
    }
    assert (forall i :: 0 <= i < |values| ==> IsText(values[i])) <==> forall e :: e in values ==> IsText(e);
    assert (forall i :: 0 <= i < |values| ==> IsInteger(values[i])) <==> forall e :: e in values ==> IsInteger(e);
    if s.kind == Some("string") && AllTexts(s.values) {
      TextLiterals(s, values);
    } else if s.kind == Some("integer") && AllIntegers(s.values) {
      IntegerLiterals(s, values);
    }
  }

  lemma TextLiterals(s: OpenApi, values: seq<EnumValue>)
    requires forall e :: e in values <==> e in s.values && e.Value?
    requires forall i :: 0 <= i < |values| ==> IsText(values[i])
    ensures forall meta, v ::
              Fits(meta, {}, Strings(Distinct(StringsOf(values))), v) <==> Value(v) in s.values
  {
    DistinctMeaning(StringsOf(values));
    forall meta: Json -> bool, v
      ensures Fits(meta, {}, Strings(Distinct(StringsOf(values))), v) <==> Value(v) in s.values
    {
      if v.Text? && v.s in StringsOf(values) {
        var i :| 0 <= i < |values| && StringsOf(values)[i] == v.s;
        assert values[i] == Value(v) && values[i] in values;
      }
      if Value(v) in s.values {
        var i :| 0 <= i < |values| && values[i] == Value(v);
        assert StringsOf(values)[i] == v.s;
      }
    }
  }

  lemma IntegerLiterals(s: OpenApi, values: seq<EnumValue>)
    requires forall e :: e in values <==> e in s.values && e.Value?
    requires forall i :: 0 <= i < |values| ==> IsInteger(values[i])
    ensures forall meta, v ::
              Fits(meta, {}, Integers(Distinct(IntegersOf(values))), v) <==> Value(v) in s.values
  {
    DistinctMeaning(IntegersOf(values));
    forall meta: Json -> bool, v
      ensures Fits(meta, {}, Integers(Distinct(IntegersOf(values))), v) <==> Value(v) in s.values
    {
      if v.Integer? && v.n in IntegersOf(values) {
        var i :| 0 <= i < |values| && IntegersOf(values)[i] == v.n;
        assert values[i] == Value(v) && values[i] in values;
      }
      if Value(v) in s.values {
        var i :| 0 <= i < |values| && values[i] == Value(v);
        assert IntegersOf(values)[i] == v.n;
      }
    }
  }

  // ---------------------------------------------------------------- nothing valid is rejected

  /**
   * Wherever the compiler meets a schema without a type, no keyword in it is
   * one the compiler takes for an object's.
   */
  predicate Typed(s: OpenApi)
    decreases s
  {
    if s.intOrString then true
    else if s.kind == Some("array") then s.items.Some? ==> Typed(s.items.value)
    else if s.kind == Some("object") then
      (s.additional.Of? ==> Typed(s.additional.schema)) && forall p | p in s.properties :: Typed(p.schema)
    else s.kind.None? ==> s.properties == [] && !s.additional.Of? && !s.preserveUnknown
  }

  lemma {:induction false} DirectFieldAt(properties: seq<Property>, required: set<string>)
    ensures forall i :: 0 <= i < |properties| ==>
              DirectFields(properties, required)[i] ==
              ShapeField(properties[i].name, properties[i].name !in required || properties[i].schema.nullable,
                Direct(properties[i].schema), None)
  {
    if properties != [] {
      DirectFieldAt(properties[1..], required);
      assert forall i :: 0 < i < |properties| ==> properties[i] == properties[1..][i - 1];
    }
  }

  lemma FieldsAreProperties(properties: seq<Property>, required: set<string>)
    ensures forall name :: HasField(DirectFields(properties, required), name) <==> Declares(properties, name)
    ensures forall f :: f in DirectFields(properties, required) ==>
              exists p :: p in properties && f ==
                ShapeField(p.name, p.name !in required || p.schema.nullable, Direct(p.schema), None)
    ensures forall p :: p in properties ==>
              ShapeField(p.name, p.name !in required || p.schema.nullable, Direct(p.schema), None)
              in DirectFields(properties, required)
  {
    var fields := DirectFields(properties, required);
    DirectFieldAt(properties, required);
    forall p | p in properties
      ensures ShapeField(p.name, p.name !in required || p.schema.nullable, Direct(p.schema), None) in fields
    {
      var i :| 0 <= i < |properties| && properties[i] == p;
      assert fields[i] in fields;
    }
    forall f | f in fields
      ensures exists p :: p in properties && f ==
                ShapeField(p.name, p.name !in required || p.schema.nullable, Direct(p.schema), None)
    {
      var i :| 0 <= i < |fields| && fields[i] == f;
      assert properties[i] in properties;
    }
  }

  /** The scalar types, by the values they admit. */
  lemma ScalarsByValue(s: OpenApi, meta: Json -> bool, v: Json)
    requires Simple(s).Some?
    ensures Direct(s) == Plain(Simple(s).value) && Plainly(Direct(s))
    ensures InShape(meta, Direct(s), v) <==>
            if s.intOrString then v.Integer? || v.Text?
            else if (s.kind == Some("string") && AllTexts(s.values))
                 || (s.kind == Some("integer") && AllIntegers(s.values))
            then Value(v) in s.values
            else HasType(s.kind, v)
    ensures s.intOrString || (s.kind.Some? && s.kind.value != "array" && s.kind.value != "object")
  {
    EnumsBecomeLiterals(s);
  }

  lemma {:induction false} AdmittedFits(s: OpenApi, meta: Json -> bool, v: Json)
    requires Typed(s) && Admits(s, v)
    ensures InShape(meta, Direct(s), v)
    decreases v, 1
  {
    if Simple(s).Some? {
      ScalarsByValue(s, meta, v);
      AllOfAKind(s, v);
    } else {
      EnumsBecomeLiterals(s);
      if s.kind == Some("array") {
        if s.items.Some? {
          forall e | e in v.items ensures InShape(meta, Direct(s.items.value), e) {
            AdmittedFits(s.items.value, meta, e);
          }
        }
      } else if s.kind.Some? {
        AdmittedObjectFits(s, meta, v);
      }
    }
  }

  lemma AllOfAKind(s: OpenApi, v: Json)
    requires Admits(s, v) && Simple(s).Some?
    ensures AllTexts(s.values) || AllIntegers(s.values) ==> Value(v) in s.values
  {
    if AllTexts(s.values) || AllIntegers(s.values) {
      var e :| e in s.values && e.Value?;
      assert s.values != [];
    }
  }

  lemma {:induction false} AdmittedObjectFits(s: OpenApi, meta: Json -> bool, v: Json)
    requires Typed(s) && v.Object? && AdmitsMembers(s, v) && Simple(s).None? && s.kind == Some("object")
    ensures InShape(meta, Direct(s), v)
    decreases v, 0
  {
    forall m, p | m in v.members && p in s.properties && p.name == m.name
      ensures InShape(meta, Direct(p.schema), m.value)
    {
      AdmittedFits(p.schema, meta, m.value);
    }
    if s.additional.Of? {
      forall m | m in v.members && !Declares(s.properties, m.name)
        ensures InShape(meta, Direct(s.additional.schema), m.value)
      {
        AdmittedFits(s.additional.schema, meta, m.value);
      }
    }
    if s.properties != [] {
      FieldsAreProperties(s.properties, s.required);
    }
  }

  // ---------------------------------------------------------------- when both admit the same

  const KINDS: set<string> := {"string", "integer", "number", "boolean", "array", "object"}

  predicate HasKind(s: OpenApi) {
    s.kind.Some? && s.kind.value in KINDS
  }

  /** No keyword constrains anything. */
  predicate SaysNothing(s: OpenApi)
    decreases s
  {
    && !s.intOrString && !HasKind(s) && s.values == []
    && (forall name | name in s.required :: MayBeAbsent(s, name))
    && (s.items.Some? ==> SaysNothing(s.items.value))
    && (forall p | p in s.properties :: SaysNothing(p.schema))
    && if s.additional.Of? then SaysNothing(s.additional.schema)
       else KeepsUnknown(s) || (s.properties == [] && s.additional.Absent?)
  }

  /**
   * KCL can say all that the schema says: an enum only of strings or integers
   * of that type (or of both booleans), no type or enum beside int-or-string,
   * no constraint without a type, and no required name that is not declared.
   */
  predicate Expressible(s: OpenApi)
    decreases s
  {
    if s.intOrString then s.values == [] && !HasKind(s)
    else if s.kind == Some("string") then s.values == [] || AllTexts(s.values)
    else if s.kind == Some("integer") then s.values == [] || AllIntegers(s.values)
    else if s.kind == Some("number") then s.values == []
    else if s.kind == Some("boolean") then
      s.values == [] || (Value(Boolean(true)) in s.values && Value(Boolean(false)) in s.values)
    else if s.kind == Some("array") then s.values == [] && (s.items.Some? ==> Expressible(s.items.value))
    else if s.kind == Some("object") then
      && s.values == []
      && (forall name | name in s.required :: Declares(s.properties, name))
      && (forall p | p in s.properties :: Expressible(p.schema))
      && (s.additional.Of? ==> Expressible(s.additional.schema))
      && (s.properties == [] && s.additional == Flag(false) ==> KeepsUnknown(s))
    else
      SaysNothing(s) && (s.kind.None? ==> s.properties == [] && !s.additional.Of? && !s.preserveUnknown)
  }

  lemma {:induction false} ExpressibleIsTyped(s: OpenApi)
    requires Expressible(s)
    ensures Typed(s)
    decreases s
  {
    if !s.intOrString {
      if s.kind == Some("array") && s.items.Some? {
        ExpressibleIsTyped(s.items.value);
      } else if s.kind == Some("object") {
        forall p | p in s.properties ensures Typed(p.schema) {
          ExpressibleIsTyped(p.schema);
        }
        if s.additional.Of? {
          ExpressibleIsTyped(s.additional.schema);
        }
      }
    }
  }

  lemma {:induction false} NothingIsRejected(s: OpenApi, v: Json)
    requires SaysNothing(s)
    ensures Admits(s, v)
    decreases v
  {
    if v.Items? && s.items.Some? {
      forall e | e in v.items ensures Admits(s.items.value, e) {
        NothingIsRejected(s.items.value, e);
      }
    }
    if v.Object? {
      forall m, p | m in v.members && p in s.properties && p.name == m.name ensures Admits(p.schema, m.value) {
        NothingIsRejected(p.schema, m.value);
      }
      if s.additional.Of? {
        forall m | m in v.members ensures Admits(s.additional.schema, m.value) {
          NothingIsRejected(s.additional.schema, m.value);
        }
      }
    }
  }

  lemma {:induction false} FittingIsAdmitted(s: OpenApi, meta: Json -> bool, v: Json)
    requires Expressible(s) && InShape(meta, Direct(s), v)
    ensures Admits(s, v)
    decreases v, 1
  {
    EnumsBecomeLiterals(s);
    if Simple(s).Some? {
      ScalarsByValue(s, meta, v);
      if !s.intOrString && !HasKind(s) {
        NothingIsRejected(s, v);
      }
    } else if s.kind == Some("array") {
      if s.items.Some? {
        forall e | e in v.items ensures Admits(s.items.value, e) {
          FittingIsAdmitted(s.items.value, meta, e);
        }
      }
    } else if s.kind.None? {
      NothingIsRejected(s, v);
    } else {
      FittingObjectIsAdmitted(s, meta, v);
    }
  }

  lemma {:induction false} FittingObjectIsAdmitted(s: OpenApi, meta: Json -> bool, v: Json)
    requires Expressible(s) && Simple(s).None? && s.kind == Some("object") && InShape(meta, Direct(s), v)
    ensures v.Object? && AdmitsMembers(s, v) && Admits(s, v)
    decreases v, 0
  {
    FieldsAreProperties(s.properties, s.required);
    forall m, p | m in v.members && p in s.properties && p.name == m.name ensures Admits(p.schema, m.value) {
      FittingIsAdmitted(p.schema, meta, m.value);
    }
    forall m | m in v.members && !Declares(s.properties, m.name)
      ensures if s.additional.Of? then Admits(s.additional.schema, m.value)
              else KeepsUnknown(s) || (s.properties == [] && s.additional.Absent?)
    {
      UndeclaredFits(s, meta, v, m);
      if s.additional.Of? {
        FittingIsAdmitted(s.additional.schema, meta, m.value);
      }
    }
    forall name | name in s.required ensures Has(v, name) || MayBeAbsent(s, name) {
      if !Has(v, name) {
        RequiredIsThere(s, meta, v, name);
      }
    }
  }

  lemma UndeclaredFits(s: OpenApi, meta: Json -> bool, v: Json, m: Member)
    requires Simple(s).None? && s.kind == Some("object") && InShape(meta, Direct(s), v)
    requires v.Object? && m in v.members && !Declares(s.properties, m.name)
    ensures s.additional.Of? ==> InShape(meta, Direct(s.additional.schema), m.value)
    ensures s.properties != [] && !s.additional.Of? ==> KeepsUnknown(s)
  {
    FieldsAreProperties(s.properties, s.required);
    if s.properties == [] {
      assert s.additional.Of? ==> Direct(s) == Dict(Direct(s.additional.schema));
    } else {
      assert Direct(s) == Rec(DirectFields(s.properties, s.required), DirectRest(s));
      assert !HasField(DirectFields(s.properties, s.required), m.name);
    }
  }

  lemma RequiredIsThere(s: OpenApi, meta: Json -> bool, v: Json, name: string)
    requires s.properties != [] && v.Object? && InRecord(meta, DirectFields(s.properties, s.required), DirectRest(s), v)
    requires name in s.required && Declares(s.properties, name) && !Has(v, name)
    ensures MayBeAbsent(s, name)
  {
    FieldsAreProperties(s.properties, s.required);
    forall p | p in s.properties && p.name == name ensures p.schema.nullable {
      var f := ShapeField(p.name, p.name !in s.required || p.schema.nullable, Direct(p.schema), None);
      assert f in DirectFields(s.properties, s.required);
    }
  }
}
