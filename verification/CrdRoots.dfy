/**
 * A whole package: what the schema generated for a kind admits, and what the
 * kind's custom resource definition does (host/src/crd-schemas.ts).
 */
module CrdRoots {
  import opened Common
  import opened CrdSchemas
  import opened CrdCorrect
  import opened CrdMeaning
  import opened CrdExact

  /**
   * What a manifest of a kind is: the envelope every resource has, and the
   * kind's own fields. Its status is not written.
   */
  ghost predicate RootAdmits(c: CrdVersion, meta: Json -> bool, v: Json) {
    && v.Object?
    && (forall m :: m in v.members && m.name == "apiVersion" ==> m.value == Text(c.group + "/" + c.version))
    && (forall m :: m in v.members && m.name == "kind" ==> m.value == Text(c.kind))
    && (forall m :: m in v.members && m.name == "metadata" ==> meta(m.value))
    && (c.schema.Some? ==> OwnAdmits(c.schema.value, v))
  }

  ghost predicate OwnAdmits(s: OpenApi, v: Json)
    requires v.Object?
  {
    && (forall name :: name in s.required && IsOwn(name) ==> Has(v, name) || MayBeAbsent(s, name))
    && (forall m, p :: m in v.members && IsOwn(m.name) && p in s.properties && p.name == m.name ==>
          Admits(p.schema, m.value))
    && (forall m :: m in v.members && IsOwn(m.name) && !Declares(s.properties, m.name) ==>
          if s.additional.Of? then Admits(s.additional.schema, m.value) else KeepsUnknown(s))
    && (forall m :: m in v.members && m.name == "status" ==> KeepsUnknown(s))
  }

  predicate IsOwn(name: string) {
    name != "apiVersion" && name != "kind" && name != "metadata" && name != "status"
  }

  ghost predicate AdmitsNothing(s: OpenApi) {
    forall v :: !Admits(s, v)
  }

  /**
   * The root's own keywords are among those KCL can say. A schema for
   * undeclared fields of a root is not compiled: it must say nothing where the
   * root keeps such fields anyway, and admit nothing where it does not.
   */
  ghost predicate RootExpressible(c: CrdVersion) {
    c.schema.Some? ==>
      var s := c.schema.value;
      && (forall name :: name in s.required && IsOwn(name) ==> Declares(s.properties, name))
      && (forall p :: p in s.properties && IsOwn(p.name) ==> Expressible(p.schema))
      && (s.additional.Of? ==>
            if RootOpen(c) then SaysNothing(s.additional.schema) else AdmitsNothing(s.additional.schema))
  }

  ghost predicate RootTyped(c: CrdVersion) {
    c.schema.Some? ==>
      var s := c.schema.value;
      && (s.additional.Of? ==> RootOpen(c) || AdmitsNothing(s.additional.schema))
      && forall p :: p in s.properties && IsOwn(p.name) ==> Typed(p.schema)
  }

  /** The properties of the root, and those below them, differ in name, as those of a parsed object do. */
  ghost predicate RootKeyed(c: CrdVersion) {
    c.schema.Some? ==>
      && DistinctProperties(c.schema.value.properties)
      && forall p :: p in c.schema.value.properties && IsOwn(p.name) ==> Keyed(p.schema)
  }

  // ---------------------------------------------------------------- shapes

  lemma {:induction false} DirectIsPlain(s: OpenApi)
    ensures Plainly(Direct(s))
    decreases s, 1
  {
    EnumsBecomeLiterals(s);
    if Simple(s).None? {
      if s.kind == Some("array") {
        if s.items.Some? {
          DirectIsPlain(s.items.value);
        }
      } else {
        if s.additional.Of? {
          DirectIsPlain(s.additional.schema);
        }
        FieldsArePlain(s.properties, s.required);
      }
    }
  }

  lemma {:induction false} FieldsArePlain(properties: seq<Property>, required: set<string>)
    ensures forall f :: f in DirectFields(properties, required) ==> Plainly(f.t)
    decreases properties
  {
    if properties != [] {
      DirectIsPlain(properties[0].schema);
      FieldsArePlain(properties[1..], required);
    }
  }

  lemma KindIsPlain(c: CrdVersion)
    ensures Plainly(DirectKind(c))
  {
    FieldsArePlain(OwnProperties(RootSchema(c).properties), RootSchema(c).required);
  }

  lemma {:induction false} OwnMeaning(properties: seq<Property>)
    ensures forall p :: p in OwnProperties(properties) <==> p in properties && IsOwn(p.name)
  {
    if properties != [] {
      OwnMeaning(properties[1..]);
      assert properties == [properties[0]] + properties[1..];
    }
  }

  function OwnFields(c: CrdVersion): seq<ShapeField> {
    DirectFields(OwnProperties(RootSchema(c).properties), RootSchema(c).required)
  }

  /** What the envelope demands of a value. */
  ghost predicate EnvelopeFits(c: CrdVersion, meta: Json -> bool, v: Json)
    requires v.Object?
  {
    && (forall m :: m in v.members && m.name == "apiVersion" ==> m.value == Text(c.group + "/" + c.version))
    && (forall m :: m in v.members && m.name == "kind" ==> m.value == Text(c.kind))
    && (forall m :: m in v.members && m.name == "metadata" ==> meta(m.value))
  }

  /** And what the own fields do. */
  ghost predicate OwnFit(c: CrdVersion, meta: Json -> bool, v: Json)
    requires v.Object?
  {
    && (forall f :: f in OwnFields(c) ==> Has(v, f.name) || f.optional)
    && (forall m, f :: m in v.members && f in OwnFields(c) && f.name == m.name ==> InShape(meta, f.t, m.value))
    && (forall m :: m in v.members && (IsOwn(m.name) || m.name == "status") && !HasField(OwnFields(c), m.name) ==>
          RootOpen(c))
  }

  function FieldOf(s: OpenApi, p: Property): ShapeField {
    ShapeField(p.name, p.name !in s.required || p.schema.nullable, Direct(p.schema), None)
  }

  lemma OwnFieldsAreOwn(c: CrdVersion)
    ensures forall f :: f in OwnFields(c) ==> IsOwn(f.name) && f.default.None?
    ensures var s := RootSchema(c);
            && (forall name :: HasField(OwnFields(c), name) <==> IsOwn(name) && Declares(s.properties, name))
            && (forall f :: f in OwnFields(c) ==> exists p :: p in s.properties && IsOwn(p.name) && f == FieldOf(s, p))
            && (forall p :: p in s.properties && IsOwn(p.name) ==> FieldOf(s, p) in OwnFields(c))
  {
    OwnFieldsCome(c);
    var s := RootSchema(c);
    forall name | IsOwn(name) && Declares(s.properties, name) ensures HasField(OwnFields(c), name) {
      var p :| p in s.properties && p.name == name;
      assert FieldOf(s, p) in OwnFields(c);
    }
    forall name | HasField(OwnFields(c), name) ensures IsOwn(name) && Declares(s.properties, name) {
      var f :| f in OwnFields(c) && f.name == name;
    }
  }

  lemma OwnFieldsCome(c: CrdVersion)
    ensures var s := RootSchema(c);
            && (forall f :: f in OwnFields(c) ==> exists p :: p in s.properties && IsOwn(p.name) && f == FieldOf(s, p))
            && (forall p :: p in s.properties && IsOwn(p.name) ==> FieldOf(s, p) in OwnFields(c))
  {
    var s := RootSchema(c);
    OwnMeaning(s.properties);
    FieldsAreProperties(OwnProperties(s.properties), s.required);
  }

  function ApiField(c: CrdVersion): ShapeField {
    ShapeField("apiVersion", false, Plain(Strings([ApiVersion(c)])), Some(ApiVersion(c)))
  }

  function KindField(c: CrdVersion): ShapeField {
    ShapeField("kind", false, Plain(Strings([c.kind])), Some(c.kind))
  }

  const METADATA := ShapeField("metadata", true, Plain(ObjectMeta), None)

  lemma EnvelopedFields(c: CrdVersion, fields: seq<ShapeField>, f: ShapeField)
    ensures f in DirectEnveloped(c, fields) <==>
            f == ApiField(c) || f == KindField(c) || f == METADATA || f in fields
  {
    assert DirectEnveloped(c, fields) == [ApiField(c), KindField(c), METADATA] + fields;
  }

  lemma KindSplits(c: CrdVersion, meta: Json -> bool, v: Json)
    ensures InShape(meta, DirectKind(c), v) <==> v.Object? && EnvelopeFits(c, meta, v) && OwnFit(c, meta, v)
  {
    if v.Object? {
      var fields := DirectEnveloped(c, OwnFields(c));
      OwnFieldsAreOwn(c);
      forall f ensures f in fields <==>
            f == ApiField(c) || f == KindField(c) || f == METADATA || f in OwnFields(c)
      {
        EnvelopedFields(c, OwnFields(c), f);
      }
      if InShape(meta, DirectKind(c), v) {
        KindToParts(c, meta, fields, v);
      }
      if EnvelopeFits(c, meta, v) && OwnFit(c, meta, v) {
        PartsToKind(c, meta, fields, v);
      }
    }
  }

  ghost predicate AreEnveloped(c: CrdVersion, fields: seq<ShapeField>) {
    && (forall f :: f in OwnFields(c) ==> IsOwn(f.name) && f.default.None?)
    && forall f :: f in fields <==>
        f == ApiField(c) || f == KindField(c) || f == METADATA || f in OwnFields(c)
  }

  lemma EnvelopedNames(c: CrdVersion, fields: seq<ShapeField>)
    requires AreEnveloped(c, fields)
    ensures forall name :: HasField(fields, name) <==>
              name == "apiVersion" || name == "kind" || name == "metadata" || HasField(OwnFields(c), name)
  {
    assert ApiField(c) in fields && KindField(c) in fields && METADATA in fields;
    forall name | HasField(OwnFields(c), name) ensures HasField(fields, name) {
      var f :| f in OwnFields(c) && f.name == name;
      assert f in fields;
    }
  }

  lemma KindToParts(c: CrdVersion, meta: Json -> bool, fields: seq<ShapeField>, v: Json)
    requires v.Object? && AreEnveloped(c, fields)
    requires InRecord(meta, fields, if RootOpen(c) then Some(Plain(Any)) else None, v)
    ensures EnvelopeFits(c, meta, v) && OwnFit(c, meta, v)
  {
    EnvelopedNames(c, fields);
    assert ApiField(c) in fields && KindField(c) in fields && METADATA in fields;
    assert forall f :: f in OwnFields(c) ==> f in fields;
    forall m | m in v.members
      ensures m.name == "apiVersion" ==> m.value == Text(c.group + "/" + c.version)
      ensures m.name == "kind" ==> m.value == Text(c.kind)
      ensures m.name == "metadata" ==> meta(m.value)
    {
      EnvelopeTypes(c, meta, m.value);
    }
  }

  lemma EnvelopeTypes(c: CrdVersion, meta: Json -> bool, v: Json)
    ensures InShape(meta, ApiField(c).t, v) <==> v == Text(c.group + "/" + c.version)
    ensures InShape(meta, KindField(c).t, v) <==> v == Text(c.kind)
    ensures InShape(meta, METADATA.t, v) <==> meta(v)
  {
  }

  lemma PartsToKind(c: CrdVersion, meta: Json -> bool, fields: seq<ShapeField>, v: Json)
    requires v.Object? && AreEnveloped(c, fields)
    requires EnvelopeFits(c, meta, v) && OwnFit(c, meta, v)
    ensures InRecord(meta, fields, if RootOpen(c) then Some(Plain(Any)) else None, v)
  {
    EnvelopedNames(c, fields);
    forall m, f | m in v.members && f in fields && f.name == m.name ensures InShape(meta, f.t, m.value) {
      if f !in OwnFields(c) {
        EnvelopeTypes(c, meta, m.value);
      }
    }
    forall m | m in v.members && !HasField(fields, m.name) ensures RootOpen(c) && InShape(meta, Plain(Any), m.value) {
      assert !HasField(OwnFields(c), m.name);
    }
  }

  // ---------------------------------------------------------------- own fields

  lemma OwnAdmittedFit(c: CrdVersion, meta: Json -> bool, v: Json)
    requires v.Object? && RootTyped(c) && c.schema.Some? && OwnAdmits(c.schema.value, v)
    ensures OwnFit(c, meta, v)
  {
    var s := c.schema.value;
    OwnFieldsAreOwn(c);
    forall f | f in OwnFields(c)
      ensures Has(v, f.name) || f.optional
      ensures forall m :: m in v.members && f.name == m.name ==> InShape(meta, f.t, m.value)
    {
      var p :| p in s.properties && IsOwn(p.name) && f == FieldOf(s, p);
      forall m | m in v.members && f.name == m.name ensures InShape(meta, f.t, m.value) {
        AdmittedFits(p.schema, meta, m.value);
      }
    }
  }

  lemma OwnFittingIsAdmitted(c: CrdVersion, meta: Json -> bool, v: Json)
    requires v.Object? && RootExpressible(c) && c.schema.Some? && OwnFit(c, meta, v)
    ensures OwnAdmits(c.schema.value, v)
  {
    var s := c.schema.value;
    OwnFieldsAreOwn(c);
    forall p | p in s.properties && IsOwn(p.name)
      ensures forall m :: m in v.members && p.name == m.name ==> Admits(p.schema, m.value)
      ensures p.name in s.required && !Has(v, p.name) ==> p.schema.nullable
    {
      var f := FieldOf(s, p);
      assert f in OwnFields(c);
      forall m | m in v.members && p.name == m.name ensures Admits(p.schema, m.value) {
        FittingIsAdmitted(p.schema, meta, m.value);
      }
    }
    forall m | m in v.members && (m.name == "status" || (IsOwn(m.name) && !Declares(s.properties, m.name)))
      ensures KeepsUnknown(s)
      ensures s.additional.Of? ==> Admits(s.additional.schema, m.value)
    {
      assert !HasField(OwnFields(c), m.name);
      if s.additional.Of? {
        NothingIsRejected(s.additional.schema, m.value);
      }
    }
  }

  lemma NoSchemaFits(c: CrdVersion, meta: Json -> bool, v: Json)
    requires v.Object? && c.schema.None?
    ensures OwnFit(c, meta, v)
  {
    assert OwnFields(c) == [];
  }

  // ---------------------------------------------------------------- the whole package

  lemma RootMeansKind(versions: seq<CrdVersion>, names: set<string>, meta: Json -> bool, i: nat, v: Json)
    requires i < |versions|
    ensures Fits(meta, Members(AllBlocks(FilesOf(versions, names))), Ref(RootNames(versions, names)[i]), v)
       <==> InShape(meta, DirectKind(versions[i]), v)
  {
    var all := AllBlocks(FilesOf(versions, names));
    PackageCompiles(versions, names);
    KindIsPlain(versions[i]);
    forall a, b | a in Members(all) && b in Members(all) && a.Schema? && b.Schema? && a.name == b.name ensures a == b {
      LookupIsUnique(all, a.name, a, b);
    }
    FitsIsInShape(meta, Members(all), Ref(RootNames(versions, names)[i]), DirectKind(versions[i]), v);
  }

  /**
   * What a kind's definition admits, its generated root admits, looked up among
   * the blocks of the whole package, for every definition whose untyped
   * schemas use no object keyword.
   */
  lemma NothingValidIsRejected(versions: seq<CrdVersion>, names: set<string>, meta: Json -> bool, i: nat, v: Json)
    requires i < |versions| && RootTyped(versions[i]) && RootAdmits(versions[i], meta, v)
    ensures Fits(meta, Members(AllBlocks(FilesOf(versions, names))), Ref(RootNames(versions, names)[i]), v)
  {
    var c := versions[i];
    RootMeansKind(versions, names, meta, i, v);
    KindSplits(c, meta, v);
    if c.schema.Some? {
      OwnAdmittedFit(c, meta, v);
    } else {
      NoSchemaFits(c, meta, v);
    }
  }

  lemma ExpressibleRootsAreExact(c: CrdVersion, meta: Json -> bool, v: Json)
    requires RootExpressible(c)
    ensures InShape(meta, DirectKind(c), v) <==> RootAdmits(c, meta, v)
  {
    KindSplits(c, meta, v);
    if c.schema.Some? {
      forall p | p in c.schema.value.properties && IsOwn(p.name) ensures Typed(p.schema) {
        ExpressibleIsTyped(p.schema);
      }
      if v.Object? && OwnAdmits(c.schema.value, v) {
        OwnAdmittedFit(c, meta, v);
      }
      if v.Object? && OwnFit(c, meta, v) {
        OwnFittingIsAdmitted(c, meta, v);
      }
    } else if v.Object? {
      NoSchemaFits(c, meta, v);
    }
  }

  // ---------------------------------------------------------------- roots judged differently

  /** Values for the own properties, each of its type. */
  function OwnSample(c: CrdVersion): Json {
    Object(Samples(OwnProperties(RootSchema(c).properties)))
  }

  lemma {:induction false} OwnStaysDistinct(properties: seq<Property>)
    requires DistinctProperties(properties)
    ensures DistinctProperties(OwnProperties(properties))
  {
    if properties != [] {
      var p, rest := properties[0], properties[1..];
      assert forall i :: 0 <= i < |rest| ==> rest[i] == properties[i + 1];
      OwnStaysDistinct(rest);
      OwnMeaning(rest);
      var own := OwnProperties(rest);
      forall q | q in own ensures q.name != p.name {
        var j :| 0 <= j < |rest| && rest[j] == q;
        assert properties[0].name != properties[j + 1].name;
      }
      FirstIsDistinct(p, own);
      assert [] + own == own;
    }
  }

  lemma FirstIsDistinct(p: Property, rest: seq<Property>)
    requires DistinctProperties(rest) && forall q :: q in rest ==> q.name != p.name
    ensures DistinctProperties([p] + rest)
  {
    var all := [p] + rest;
    forall i, j | 0 <= i < j < |all| ensures all[i].name != all[j].name {
      assert all[j] == rest[j - 1] && all[j] in rest;
      assert i > 0 ==> all[i] == rest[i - 1];
    }
  }

  lemma OwnSampleFits(c: CrdVersion, meta: Json -> bool)
    requires RootKeyed(c)
    ensures OwnFit(c, meta, OwnSample(c)) && EnvelopeFits(c, meta, OwnSample(c))
    ensures forall name :: Has(OwnSample(c), name) ==> IsOwn(name) && Declares(RootSchema(c).properties, name)
  {
    var s, v := RootSchema(c), OwnSample(c);
    var own := OwnProperties(s.properties);
    OwnMeaning(s.properties);
    if own != [] {
      OwnStaysDistinct(s.properties);
      var bare := EMPTY.(properties := own, required := s.required);
      forall p | p in own ensures Keyed(p.schema) && InShape(meta, Direct(p.schema), Sample(p.schema)) {
        SampleFits(p.schema, meta);
      }
      SampleRecordFits(bare, meta);
      FieldsAreProperties(own, s.required);
      forall m | m in v.members ensures HasField(OwnFields(c), m.name) && IsOwn(m.name) {
        assert Has(v, m.name);
      }
    }
  }

  ghost predicate Given(v: Json, m: Member, w: Json) {
    v.Object? && w == Object(v.members + [m])
  }

  lemma GivenMembers(v: Json, m: Member, w: Json)
    requires Given(v, m, w)
    ensures forall x :: x in w.members <==> x in v.members || x == m
    ensures forall name :: Has(v, name) ==> Has(w, name)
  {
  }

  /** With one more own member the root fits if and only if that member does. */
  lemma OwnFitGiven(c: CrdVersion, meta: Json -> bool, v: Json, m: Member, w: Json)
    requires Given(v, m, w) && IsOwn(m.name) && OwnFit(c, meta, v)
    ensures OwnFit(c, meta, w) <==>
            && (forall f :: f in OwnFields(c) && f.name == m.name ==> InShape(meta, f.t, m.value))
            && (!HasField(OwnFields(c), m.name) ==> RootOpen(c))
  {
    GivenMembers(v, m, w);
  }

  lemma EnvelopeGiven(c: CrdVersion, meta: Json -> bool, v: Json, m: Member, w: Json)
    requires Given(v, m, w) && IsOwn(m.name) && EnvelopeFits(c, meta, v)
    ensures EnvelopeFits(c, meta, w)
  {
    GivenMembers(v, m, w);
  }

  lemma OwnAdmitsGiven(s: OpenApi, v: Json, m: Member, w: Json)
    requires Given(v, m, w) && IsOwn(m.name) && OwnAdmits(s, v)
    ensures OwnAdmits(s, w) <==>
            && (forall p :: p in s.properties && p.name == m.name ==> Admits(p.schema, m.value))
            && (!Declares(s.properties, m.name) ==>
                  if s.additional.Of? then Admits(s.additional.schema, m.value) else KeepsUnknown(s))
  {
    GivenMembers(v, m, w);
  }

  /** The root's type and its definition judge the value differently. */
  ghost predicate RootsDiffer(c: CrdVersion, meta: Json -> bool, v: Json) {
    InShape(meta, DirectKind(c), v) != RootAdmits(c, meta, v)
  }

  lemma OwnPartDecides(c: CrdVersion, meta: Json -> bool, v: Json)
    requires c.schema.Some? && v.Object? && EnvelopeFits(c, meta, v)
    ensures RootsDiffer(c, meta, v) <==> OwnFit(c, meta, v) != OwnAdmits(c.schema.value, v)
  {
    KindSplits(c, meta, v);
  }

  lemma OwnPropertyDecides(c: CrdVersion, meta: Json -> bool, p: Property) returns (v: Json)
    requires c.schema.Some? && RootKeyed(c) && OwnAdmits(c.schema.value, OwnSample(c))
    requires p in c.schema.value.properties && IsOwn(p.name) && !Expressible(p.schema)
    ensures RootsDiffer(c, meta, v)
  {
    var s, base := c.schema.value, OwnSample(c);
    var x := Differs(p.schema, meta);
    var m := Member(p.name, x);
    v := Object(base.members + [m]);
    OwnSampleFits(c, meta);
    OwnFitGiven(c, meta, base, m, v);
    EnvelopeGiven(c, meta, base, m, v);
    OwnAdmitsGiven(s, base, m, v);
    OwnFieldsAreOwn(c);
    forall q | q in s.properties && q.name == p.name ensures q == p {
      OneProperty(s.properties, q, p);
    }
    assert FieldOf(s, p) in OwnFields(c) && HasField(OwnFields(c), p.name) && Declares(s.properties, p.name);
    forall f | f in OwnFields(c) && f.name == p.name ensures f == FieldOf(s, p) {
    }
    OwnPartDecides(c, meta, v);
  }

  lemma FreshIsOwn(properties: seq<Property>)
    ensures IsOwn(FreshName(properties)) && !Declares(properties, FreshName(properties))
  {
    var name := FreshName(properties);
    LongNameIsNotDeclared(properties, name);
    assert name[0] == 'a' && (|name| > 1 ==> name[1] == 'a');
    assert "apiVersion"[1] == 'p' && "kind"[0] == 'k' && "metadata"[0] == 'm' && "status"[0] == 's';
  }

  lemma AdditionalDecidesRoot(c: CrdVersion, meta: Json -> bool) returns (v: Json)
    requires c.schema.Some? && RootKeyed(c) && OwnAdmits(c.schema.value, OwnSample(c))
    requires var a := c.schema.value.additional;
             a.Of? && if RootOpen(c) then !SaysNothing(a.schema) else !AdmitsNothing(a.schema)
    ensures RootsDiffer(c, meta, v)
  {
    var s, base := c.schema.value, OwnSample(c);
    var x: Json;
    if RootOpen(c) {
      x := RejectsSomething(s.additional.schema);
    } else {
      x :| Admits(s.additional.schema, x);
    }
    FreshIsOwn(s.properties);
    var m := Member(FreshName(s.properties), x);
    v := Object(base.members + [m]);
    OwnSampleFits(c, meta);
    OwnFitGiven(c, meta, base, m, v);
    EnvelopeGiven(c, meta, base, m, v);
    OwnAdmitsGiven(s, base, m, v);
    OwnFieldsAreOwn(c);
    assert !HasField(OwnFields(c), m.name);
    OwnPartDecides(c, meta, v);
  }

  lemma RootDiffers(c: CrdVersion, meta: Json -> bool) returns (v: Json)
    requires RootKeyed(c) && !RootExpressible(c)
    ensures RootsDiffer(c, meta, v)
  {
    var s := c.schema.value;
    v := OwnSample(c);
    OwnSampleFits(c, meta);
    OwnPartDecides(c, meta, v);
    if OwnAdmits(s, v) {
      if p :| p in s.properties && IsOwn(p.name) && !Expressible(p.schema) {
        v := OwnPropertyDecides(c, meta, p);
      } else {
        v := AdditionalDecidesRoot(c, meta);
      }
    }
  }

  /**
   * For every kind of every package: the generated root admits exactly what
   * the kind's definition does, if and only if the definition is expressible.
   */
  lemma RootsAreExact(versions: seq<CrdVersion>, names: set<string>, meta: Json -> bool, i: nat)
    requires i < |versions| && RootKeyed(versions[i])
    ensures var blocks, root := Members(AllBlocks(FilesOf(versions, names))), Ref(RootNames(versions, names)[i]);
            RootExpressible(versions[i]) <==>
              forall v :: Fits(meta, blocks, root, v) <==> RootAdmits(versions[i], meta, v)
  {
    var blocks, root := Members(AllBlocks(FilesOf(versions, names))), Ref(RootNames(versions, names)[i]);
    var c := versions[i];
    if RootExpressible(c) {
      forall v ensures Fits(meta, blocks, root, v) <==> RootAdmits(c, meta, v) {
        RootMeansKind(versions, names, meta, i, v);
        ExpressibleRootsAreExact(c, meta, v);
      }
    } else {
      var v := RootDiffers(c, meta);
      RootMeansKind(versions, names, meta, i, v);
      assert !(Fits(meta, blocks, root, v) <==> RootAdmits(c, meta, v));
    }
  }

  /**
   * The exception is real: a schema without a type that keeps unknown fields
   * admits any value, but its KCL type is a dictionary and rejects text. So do
   * untyped schemas with properties or with a schema for undeclared fields.
   */
  lemma UntypedRejectsText(s: OpenApi, meta: Json -> bool, text: string)
    requires s.kind.None? && !s.intOrString && s.values == []
    ensures Admits(s, Text(text))
    ensures InShape(meta, Direct(s), Text(text)) <==> s.properties == [] && !s.additional.Of? && !s.preserveUnknown
  {
  }
}
