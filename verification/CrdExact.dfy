/**
 * The condition of `CrdMeaning.Expressible` is exact: for every schema that
 * does not meet it there is a value that the schema and its KCL type judge
 * differently.
 */
module CrdExact {
  import opened Common
  import opened CrdSchemas
  import opened CrdMeaning

  /** The names of a schema's properties differ, as those of a parsed object do. */
  predicate Keyed(s: OpenApi)
    decreases s
  {
    && DistinctProperties(s.properties)
    && (forall p | p in s.properties :: Keyed(p.schema))
    && (s.items.Some? ==> Keyed(s.items.value))
    && (s.additional.Of? ==> Keyed(s.additional.schema))
  }

  predicate DistinctProperties(properties: seq<Property>) {
    forall i, j :: 0 <= i < j < |properties| ==> properties[i].name != properties[j].name
  }

  lemma OneProperty(properties: seq<Property>, p: Property, q: Property)
    requires DistinctProperties(properties) && p in properties && q in properties && p.name == q.name
    ensures p == q
  {
    var i, j :| 0 <= i < |properties| && 0 <= j < |properties| && properties[i] == p && properties[j] == q;
    assert i == j || i < j || j < i;
  }

  // ---------------------------------------------------------------- values that fit

  function SampleOf(t: Kcl): Json {
    match t
    case IntOrStr => Integer(0)
    case Int => Integer(0)
    case Float => Integer(0)
    case Bool => Boolean(true)
    case Integers(ns) => Integer(if ns == [] then 0 else ns[0])
    case Strings(ss) => Text(if ss == [] then "" else ss[0])
    case _ => Text("")
  }

  /** A value of the type a schema is compiled to. */
  function Sample(s: OpenApi): Json
    decreases s, 1
  {
    if Simple(s).Some? then SampleOf(Simple(s).value)
    else if s.kind == Some("array") then Items([])
    else if s.properties != [] then Object(Samples(s.properties))
    else if s.additional.Of? || s.kind.Some? || s.preserveUnknown then Object([])
    else Text("")
  }

  function Samples(properties: seq<Property>): (r: seq<Member>)
    ensures |r| == |properties|
    decreases properties
  {
    if properties == [] then []
    else [Member(properties[0].name, Sample(properties[0].schema))] + Samples(properties[1..])
  }

  lemma {:induction false} SamplesAt(properties: seq<Property>)
    ensures forall i :: 0 <= i < |properties| ==>
              Samples(properties)[i] == Member(properties[i].name, Sample(properties[i].schema))
  {
    if properties != [] {
      SamplesAt(properties[1..]);
      assert forall i :: 0 < i < |properties| ==> properties[i] == properties[1..][i - 1];
    }
  }

  lemma SamplesMeaning(properties: seq<Property>)
    ensures forall m :: m in Samples(properties) <==>
              exists p :: p in properties && m == Member(p.name, Sample(p.schema))
  {
    SamplesAt(properties);
    forall m | m in Samples(properties) ensures exists p :: p in properties && m == Member(p.name, Sample(p.schema)) {
      var i :| 0 <= i < |Samples(properties)| && Samples(properties)[i] == m;
      assert properties[i] in properties;
    }
    forall p | p in properties ensures Member(p.name, Sample(p.schema)) in Samples(properties) {
      var i :| 0 <= i < |properties| && properties[i] == p;
      assert Samples(properties)[i] in Samples(properties);
    }
  }

  lemma LiteralsAreThere(s: OpenApi)
    requires EnumLiterals(s).Some?
    ensures EnumLiterals(s).value.Strings? ==> EnumLiterals(s).value.ss != []
    ensures EnumLiterals(s).value.Integers? ==> EnumLiterals(s).value.ns != []
  {
    var values := NotNull(s.values);
    if EnumLiterals(s).value.Strings? {
      DistinctMeaning(StringsOf(values));
      assert StringsOf(values)[0] in StringsOf(values);
    } else {
      DistinctMeaning(IntegersOf(values));
      assert IntegersOf(values)[0] in IntegersOf(values);
    }
  }

  lemma {:induction false} SampleFits(s: OpenApi, meta: Json -> bool)
    requires Keyed(s)
    ensures InShape(meta, Direct(s), Sample(s))
    decreases s
  {
    if Simple(s).Some? {
      if EnumLiterals(s).Some? {
        LiteralsAreThere(s);
      }
      EnumsBecomeLiterals(s);
    } else if s.kind != Some("array") && s.properties != [] {
      forall p | p in s.properties ensures InShape(meta, Direct(p.schema), Sample(p.schema)) {
        SampleFits(p.schema, meta);
      }
      SampleRecordFits(s, meta);
    }
  }

  lemma SampleRecordFits(s: OpenApi, meta: Json -> bool)
    requires Keyed(s) && s.properties != []
    requires forall p :: p in s.properties ==> InShape(meta, Direct(p.schema), Sample(p.schema))
    ensures InRecord(meta, DirectFields(s.properties, s.required), DirectRest(s), Object(Samples(s.properties)))
    ensures forall name :: Has(Object(Samples(s.properties)), name) <==> Declares(s.properties, name)
  {
    var v := Object(Samples(s.properties));
    SamplesMeaning(s.properties);
    FieldsAreProperties(s.properties, s.required);
    forall f | f in DirectFields(s.properties, s.required)
      ensures Has(v, f.name)
      ensures forall m :: m in v.members && f.name == m.name ==> InShape(meta, f.t, m.value)
    {
      var p :| p in s.properties && f ==
        ShapeField(p.name, p.name !in s.required || p.schema.nullable, Direct(p.schema), None);
      assert Member(p.name, Sample(p.schema)) in v.members;
      forall m | m in v.members && f.name == m.name ensures InShape(meta, f.t, m.value) {
        var q :| q in s.properties && m == Member(q.name, Sample(q.schema));
        OneProperty(s.properties, p, q);
      }
    }
    forall name ensures Has(v, name) <==> Declares(s.properties, name) {
      if p :| p in s.properties && p.name == name {
        assert Member(p.name, Sample(p.schema)) in v.members;
      }
    }
  }

  // ---------------------------------------------------------------- values no enum has

  function Size(v: Json): nat {
    match v
    case Text(s) => |s|
    case Integer(n) => if n < 0 then 0 else n
    case Items(items) => |items|
    case Object(members) => |members|
    case _ => 0
  }

  function Bound(values: seq<EnumValue>): nat {
    if values == [] then 0
    else
      var rest := Bound(values[1..]);
      if values[0].Value? && Size(values[0].v) > rest then Size(values[0].v) else rest
  }

  lemma {:induction false} TooBig(values: seq<EnumValue>, v: Json)
    requires Size(v) > Bound(values)
    ensures Value(v) !in values
  {
    if values != [] {
      TooBig(values[1..], v);
      assert values == [values[0]] + values[1..];
    }
  }

  function Copies<T>(x: T, n: nat): (r: seq<T>)
    ensures |r| == n && forall i :: 0 <= i < n ==> r[i] == x
  {
    seq(n, i => x)
  }

  function LongText(values: seq<EnumValue>): Json {
    Text(Copies('a', Bound(values) + 1))
  }

  function LargeInteger(values: seq<EnumValue>): Json {
    Integer(Bound(values) + 1)
  }

  /** A member that repeats one there is changes nothing. */
  lemma RepeatedFits(meta: Json -> bool, fields: seq<ShapeField>, rest: Option<Shape>, v: Json, m: Member, n: nat)
    requires v.Object? && m in v.members && InRecord(meta, fields, rest, v)
    ensures InRecord(meta, fields, rest, Object(v.members + Copies(m, n)))
  {
    var w := Object(v.members + Copies(m, n));
    assert forall x :: x in w.members <==> x in v.members;
    assert forall name :: Has(v, name) ==> Has(w, name);
  }

  /** Types that are not scalar have values beyond any enum. */
  lemma BeyondEnum(s: OpenApi, meta: Json -> bool) returns (v: Json)
    requires Keyed(s) && Simple(s).None?
    ensures InShape(meta, Direct(s), v) && Value(v) !in s.values
  {
    var n := Bound(s.values) + 1;
    if s.kind == Some("array") {
      var item := if s.items.Some? then Sample(s.items.value) else Text("");
      v := Items(Copies(item, n));
      if s.items.Some? {
        SampleFits(s.items.value, meta);
      }
    } else if s.properties != [] {
      var base := Object(Samples(s.properties));
      SampleFits(s, meta);
      assert Sample(s) == base;
      v := Object(base.members + Copies(base.members[0], n));
      RepeatedFits(meta, DirectFields(s.properties, s.required), DirectRest(s), base, base.members[0], n);
    } else if s.additional.Of? {
      v := Object(Copies(Member("k", Sample(s.additional.schema)), n));
      SampleFits(s.additional.schema, meta);
    } else if s.kind.None? && !s.preserveUnknown {
      v := LargeInteger(s.values);
    } else {
      v := Object(Copies(Member("k", Text("")), n));
    }
    TooBig(s.values, v);
  }

  // ---------------------------------------------------------------- names no schema declares

  function NameBound(properties: seq<Property>): nat {
    if properties == [] then 0
    else
      var rest := NameBound(properties[1..]);
      if |properties[0].name| > rest then |properties[0].name| else rest
  }

  function FreshName(properties: seq<Property>): string {
    Copies('a', NameBound(properties) + 1)
  }

  lemma {:induction false} LongNameIsNotDeclared(properties: seq<Property>, name: string)
    requires |name| > NameBound(properties)
    ensures !Declares(properties, name)
  {
    if properties != [] {
      LongNameIsNotDeclared(properties[1..], name);
      assert properties == [properties[0]] + properties[1..];
    }
  }

  // ---------------------------------------------------------------- what is not admitted

  /** A schema that says something rejects something. */
  lemma {:induction false} RejectsSomething(s: OpenApi) returns (v: Json)
    requires !SaysNothing(s)
    ensures !Admits(s, v)
    decreases s
  {
    if s.intOrString {
      v := Boolean(true);
    } else if HasKind(s) {
      v := if s.kind == Some("string") then Boolean(true) else Text("");
    } else if s.values != [] {
      v := LongText(s.values);
      TooBig(s.values, v);
    } else if name :| name in s.required && !MayBeAbsent(s, name) {
      v := Object([]);
    } else if s.items.Some? && !SaysNothing(s.items.value) {
      var x := RejectsSomething(s.items.value);
      v := Items([x]);
      assert x in v.items;
    } else if p :| p in s.properties && !SaysNothing(p.schema) {
      var x := RejectsSomething(p.schema);
      v := Object([Member(p.name, x)]);
      assert Member(p.name, x) in v.members;
    } else {
      var name := FreshName(s.properties);
      LongNameIsNotDeclared(s.properties, name);
      var x := Text("");
      if s.additional.Of? {
        x := RejectsSomething(s.additional.schema);
      }
      v := Object([Member(name, x)]);
      assert Member(name, x) in v.members;
    }
  }

  // ---------------------------------------------------------------- what is judged differently

  ghost predicate Differ(s: OpenApi, meta: Json -> bool, v: Json) {
    InShape(meta, Direct(s), v) != Admits(s, v)
  }

  lemma ScalarDiffers(s: OpenApi, meta: Json -> bool) returns (v: Json)
    requires Simple(s).Some? && !Expressible(s)
    ensures Differ(s, meta, v)
  {
    if s.intOrString {
      if s.values != [] {
        v := LargeInteger(s.values);
        TooBig(s.values, v);
      } else {
        v := if s.kind == Some("integer") || s.kind == Some("number") then Text("") else Integer(0);
      }
    } else if s.kind == Some("string") {
      v := LongText(s.values);
      TooBig(s.values, v);
    } else if s.kind == Some("integer") || s.kind == Some("number") {
      v := LargeInteger(s.values);
      TooBig(s.values, v);
    } else if s.kind == Some("boolean") {
      v := Boolean(Value(Boolean(true)) !in s.values);
    } else {
      v := RejectsSomething(s);
    }
    ScalarsByValue(s, meta, v);
  }

  lemma WithMember(meta: Json -> bool, fields: seq<ShapeField>, rest: Option<Shape>, v: Json, m: Member)
    requires v.Object? && InRecord(meta, fields, rest, v)
    ensures InRecord(meta, fields, rest, Object(v.members + [m])) <==>
            && (forall f :: f in fields && f.name == m.name ==> InShape(meta, f.t, m.value))
            && (!HasField(fields, m.name) ==> rest.Some? && InShape(meta, rest.value, m.value))
  {
    var w := Object(v.members + [m]);
    assert forall x :: x in w.members <==> x in v.members || x == m;
    assert forall name :: Has(v, name) ==> Has(w, name);
  }

  lemma AdmitsWithMember(s: OpenApi, v: Json, m: Member)
    requires s.values == [] && !s.intOrString && s.kind == Some("object") && v.Object? && AdmitsMembers(s, v)
    ensures Admits(s, Object(v.members + [m])) <==>
            && (forall p :: p in s.properties && p.name == m.name ==> Admits(p.schema, m.value))
            && (!Declares(s.properties, m.name) ==>
                  if s.additional.Of? then Admits(s.additional.schema, m.value)
                  else KeepsUnknown(s) || (s.properties == [] && s.additional.Absent?))
  {
    var w := Object(v.members + [m]);
    assert forall x :: x in w.members <==> x in v.members || x == m;
    assert forall name :: Has(v, name) ==> Has(w, name);
  }

  /** With one more property given, that property decides. */
  lemma PropertyDecides(s: OpenApi, meta: Json -> bool, v: Json, p: Property, x: Json)
    requires Keyed(s) && s.values == [] && Simple(s).None? && s.kind == Some("object") && p in s.properties
    requires v.Object? && AdmitsMembers(s, v) && InShape(meta, Direct(s), v) && Differ(p.schema, meta, x)
    ensures Differ(s, meta, Object(v.members + [Member(p.name, x)]))
  {
    var fields := DirectFields(s.properties, s.required);
    FieldsAreProperties(s.properties, s.required);
    WithMember(meta, fields, DirectRest(s), v, Member(p.name, x));
    AdmitsWithMember(s, v, Member(p.name, x));
    forall q | q in s.properties && q.name == p.name ensures q == p {
      OneProperty(s.properties, q, p);
    }
    var f := ShapeField(p.name, p.name !in s.required || p.schema.nullable, Direct(p.schema), None);
    assert f in fields;
    forall g | g in fields && g.name == p.name ensures g == f {
      var q :| q in s.properties
        && g == ShapeField(q.name, q.name !in s.required || q.schema.nullable, Direct(q.schema), None);
    }
    assert Declares(s.properties, p.name);
  }

  /** With one more undeclared member, the schema for those decides. */
  lemma AdditionalDecides(s: OpenApi, meta: Json -> bool, v: Json, name: string, x: Json)
    requires s.values == [] && Simple(s).None? && s.kind == Some("object") && s.additional.Of?
    requires v.Object? && AdmitsMembers(s, v) && InShape(meta, Direct(s), v)
    requires !Declares(s.properties, name) && Differ(s.additional.schema, meta, x)
    ensures Differ(s, meta, Object(v.members + [Member(name, x)]))
  {
    AdmitsWithMember(s, v, Member(name, x));
    if s.properties == [] {
      var w := Object(v.members + [Member(name, x)]);
      assert forall m :: m in w.members <==> m in v.members || m == Member(name, x);
      assert Direct(s) == Dict(Direct(s.additional.schema));
    } else {
      FieldsAreProperties(s.properties, s.required);
      WithMember(meta, DirectFields(s.properties, s.required), DirectRest(s), v, Member(name, x));
      assert !HasField(DirectFields(s.properties, s.required), name);
    }
  }

  lemma {:induction false} ObjectDiffers(s: OpenApi, meta: Json -> bool) returns (v: Json)
    requires Keyed(s) && Simple(s).None? && s.kind == Some("object") && !Expressible(s)
    ensures Differ(s, meta, v)
    decreases s, 0
  {
    if s.values != [] {
      v := BeyondEnum(s, meta);
      return;
    }
    v := Sample(s);
    SampleFits(s, meta);
    if name :| name in s.required && !Declares(s.properties, name) {
      SampleHasDeclared(s, meta, name);
      assert !AdmitsMembers(s, v);
      return;
    }
    if !Admits(s, v) {
      return;
    }
    if p :| p in s.properties && !Expressible(p.schema) {
      var x := Differs(p.schema, meta);
      PropertyDecides(s, meta, v, p, x);
      v := Object(v.members + [Member(p.name, x)]);
    } else if s.additional.Of? && !Expressible(s.additional.schema) {
      var x := Differs(s.additional.schema, meta);
      var name := FreshName(s.properties);
      LongNameIsNotDeclared(s.properties, name);
      AdditionalDecides(s, meta, v, name, x);
      v := Object(v.members + [Member(name, x)]);
    } else {
      v := Object([Member("k", Text(""))]);
      assert Member("k", Text("")) in v.members;
    }
  }

  lemma SampleHasDeclared(s: OpenApi, meta: Json -> bool, name: string)
    requires Keyed(s) && Simple(s).None? && s.kind == Some("object") && !Declares(s.properties, name)
    ensures Sample(s).Object? && !Has(Sample(s), name)
  {
    if s.properties != [] {
      forall p | p in s.properties ensures InShape(meta, Direct(p.schema), Sample(p.schema)) {
        SampleFits(p.schema, meta);
      }
      SampleRecordFits(s, meta);
    }
  }

  /** Every schema that is not expressible has a value that it and its KCL type judge differently. */
  lemma {:induction false} Differs(s: OpenApi, meta: Json -> bool) returns (v: Json)
    requires Keyed(s) && !Expressible(s)
    ensures Differ(s, meta, v)
    decreases s, 1
  {
    if Simple(s).Some? {
      v := ScalarDiffers(s, meta);
    } else if s.kind == Some("object") {
      v := ObjectDiffers(s, meta);
    } else if s.values != [] {
      v := BeyondEnum(s, meta);
    } else if s.kind == Some("array") {
      var x := Differs(s.items.value, meta);
      v := Items([x]);
      assert x in v.items;
    } else if s.properties != [] || s.additional.Of? || s.preserveUnknown {
      v := Text("");
    } else {
      v := RejectsSomething(s);
    }
  }

  /**
   * A generated type admits exactly what its schema does if and only if the
   * schema is expressible.
   */
  lemma ExactExactly(s: OpenApi, meta: Json -> bool)
    requires Keyed(s)
    ensures Expressible(s) <==> forall v :: InShape(meta, Direct(s), v) <==> Admits(s, v)
  {
    if Expressible(s) {
      ExpressibleIsTyped(s);
      forall v ensures InShape(meta, Direct(s), v) <==> Admits(s, v) {
        if Admits(s, v) {
          AdmittedFits(s, meta, v);
        }
        if InShape(meta, Direct(s), v) {
          FittingIsAdmitted(s, meta, v);
        }
      }
    } else {
      var v := Differs(s, meta);
      assert !(InShape(meta, Direct(s), v) <==> Admits(s, v));
    }
  }
}
