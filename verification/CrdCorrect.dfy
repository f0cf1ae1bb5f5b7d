/** The blocks `PackageEmitter` writes mean the schemas they came from (host/src/crd-schemas.ts). */
module CrdCorrect {
  import opened Common
  import opened CrdSchemas

  // ---------------------------------------------------------------- vocabulary

  ghost function Members(blocks: seq<Block>): set<Block> {
    set b | b in blocks
  }

  ghost function NamesOf(blocks: seq<Block>): set<string> {
    set b | b in blocks && b.Schema? :: b.name
  }

  function Refs(t: Kcl): set<string> {
    match t
    case ListOf(item) => Refs(item)
    case DictOf(value) => Refs(value)
    case Ref(name) => {name}
    case _ => {}
  }

  ghost predicate RefsWithin(b: Block, names: set<string>) {
    b.Schema? ==>
      && (forall a :: a in b.attrs ==> Refs(a.t) <= names)
      && (b.rest.Some? ==> Refs(b.rest.value) <= names)
  }

  ghost predicate Filled(blocks: seq<Block>) {
    forall b :: b in blocks ==> b.Schema?
  }

  ghost predicate DistinctNames(blocks: seq<Block>) {
    forall i, j :: 0 <= i < j < |blocks| && blocks[i].Schema? && blocks[j].Schema? ==> blocks[i].name != blocks[j].name
  }

  /** Blocks that stand on their own: no empty slot, no name twice, no keyword, no dangling reference. */
  ghost predicate Complete(blocks: seq<Block>) {
    && Filled(blocks)
    && DistinctNames(blocks)
    && NamesOf(blocks) !! KEYWORDS
    && forall b :: b in blocks ==> RefsWithin(b, NamesOf(blocks))
  }

  /** `after` keeps every block of `before` and adds complete ones under fresh names. */
  ghost predicate Grew(before: State, after: State) {
    && |before.blocks| <= |after.blocks|
    && after.blocks[..|before.blocks|] == before.blocks
    && Complete(Added(before, after))
    && after.names == before.names + NamesOf(Added(before, after))
    && NamesOf(Added(before, after)) !! before.names
  }

  ghost function Added(before: State, after: State): seq<Block>
    requires |before.blocks| <= |after.blocks|
  {
    after.blocks[|before.blocks|..]
  }

  // ---------------------------------------------------------------- growth

  lemma NamesConcat(a: seq<Block>, b: seq<Block>)
    ensures NamesOf(a + b) == NamesOf(a) + NamesOf(b)
    ensures Members(a + b) == Members(a) + Members(b)
  {
  }

  lemma CompleteConcat(a: seq<Block>, b: seq<Block>)
    requires Complete(a) && Complete(b) && NamesOf(a) !! NamesOf(b)
    ensures Complete(a + b)
  {
    NamesConcat(a, b);
    var ab := a + b;
    forall i, j | 0 <= i < j < |ab| && ab[i].Schema? && ab[j].Schema? ensures ab[i].name != ab[j].name {
      if i < |a| <= j {
        assert a[i] in a && b[j - |a|] in b;
        assert ab[i].name in NamesOf(a) && ab[j].name in NamesOf(b);
      }
    }
    forall x | x in ab ensures RefsWithin(x, NamesOf(ab)) {
      if x in a {
        assert RefsWithin(x, NamesOf(a));
      } else {
        assert RefsWithin(x, NamesOf(b));
      }
    }
  }

  lemma GrewNothing(st: State)
    ensures Grew(st, st)
  {
    assert Added(st, st) == [];
  }

  lemma AddedChain(a: State, b: State, c: State)
    requires |a.blocks| <= |b.blocks| <= |c.blocks|
    requires b.blocks[..|a.blocks|] == a.blocks && c.blocks[..|b.blocks|] == b.blocks
    ensures Added(a, c) == Added(a, b) + Added(b, c)
    ensures c.blocks[..|a.blocks|] == a.blocks
  {
    assert c.blocks == b.blocks + Added(b, c);
    assert b.blocks == a.blocks + Added(a, b);
  }

  lemma GrewTwice(a: State, b: State, c: State)
    requires Grew(a, b) && Grew(b, c)
    ensures Grew(a, c) && Members(Added(a, b)) <= Members(Added(a, c)) && Members(Added(b, c)) <= Members(Added(a, c))
  {
    AddedChain(a, b, c);
    NamesConcat(Added(a, b), Added(b, c));
    CompleteConcat(Added(a, b), Added(b, c));
  }

  // ---------------------------------------------------------------- lookups only ever gain blocks

  lemma {:induction false} MeansGrows(small: set<Block>, big: set<Block>, t: Kcl, sh: Shape)
    requires small <= big && Means(small, t, sh)
    ensures Means(big, t, sh)
    decreases sh
  {
    match sh
    case Plain(_) =>
    case List(item) => MeansGrows(small, big, t.item, item);
    case Dict(value) => MeansGrows(small, big, t.value, value);
    case Rec(fields, rest) =>
      var b :| b in small && b.Schema? && b.name == t.name && MeansFields(small, b.attrs, fields)
               && MeansRest(small, b.rest, rest);
      MeansFieldsGrows(small, big, b.attrs, fields);
      if rest.Some? {
        MeansGrows(small, big, b.rest.value, rest.value);
      }
  }

  lemma {:induction false} MeansFieldsGrows(
    small: set<Block>, big: set<Block>, attrs: seq<Attr>, fields: seq<ShapeField>)
    requires small <= big && MeansFields(small, attrs, fields)
    ensures MeansFields(big, attrs, fields)
    decreases fields
  {
    if fields != [] {
      MeansGrows(small, big, attrs[0].t, fields[0].t);
      MeansFieldsGrows(small, big, attrs[1..], fields[1..]);
    }
  }

  // ---------------------------------------------------------------- the compiler is right

  /** A compiled type: the state grew, and the type means `sh` by the added blocks alone. */
  ghost predicate Compiled(st: State, r: (Kcl, State), sh: Shape) {
    && Grew(st, r.1)
    && Means(Members(Added(st, r.1)), r.0, sh)
    && Refs(r.0) <= NamesOf(Added(st, r.1))
  }

  ghost predicate CompiledAttrs(st: State, r: (seq<Attr>, State), fields: seq<ShapeField>) {
    && Grew(st, r.1)
    && MeansFields(Members(Added(st, r.1)), r.0, fields)
    && forall a :: a in r.0 ==> Refs(a.t) <= NamesOf(Added(st, r.1))
  }

  ghost predicate CompiledRest(st: State, r: (Option<Kcl>, State), rest: Option<Shape>) {
    && Grew(st, r.1)
    && MeansRest(Members(Added(st, r.1)), r.0, rest)
    && (r.0.Some? ==> Refs(r.0.value) <= NamesOf(Added(st, r.1)))
  }

  lemma SimpleHasNoNames(s: OpenApi)
    ensures Simple(s).Some? ==> !Simple(s).value.Ref? && Refs(Simple(s).value) == {}
  {
  }

  lemma {:induction false} TypeCompiles(s: OpenApi, hint: string, st: State)
    ensures Compiled(st, TypeOf(s, hint, st), Direct(s))
    decreases s, 1
  {
    GrewNothing(st);
    SimpleHasNoNames(s);
    if Simple(s).Some? {
    } else if s.kind == Some("array") {
      if s.items.Some? {
        TypeCompiles(s.items.value, hint + "Item", st);
      }
    } else {
      ObjectCompiles(s, hint, st);
    }
  }

  lemma {:induction false} ObjectCompiles(s: OpenApi, hint: string, st: State)
    requires Simple(s).None? && s.kind != Some("array")
    ensures Compiled(st, ObjectOf(s, hint, st), Direct(s))
    decreases s, 0
  {
    if s.properties == [] {
      GrewNothing(st);
      if s.additional.Of? {
        TypeCompiles(s.additional.schema, hint + "Value", st);
      }
    } else {
      var (name, st1) := Reserve(st, hint);
      AttributesCompile(s.properties, s.required, name, st1);
      var (attrs, st2) := AttributesOf(s.properties, s.required, name, st1);
      RestCompiles(s, name, st2);
      var (rest, st3) := RestOf(s, name, st2);
      SchemaCompiles(st, hint, attrs, st2, rest, st3, DirectFields(s.properties, s.required), DirectRest(s));
    }
  }

  lemma {:induction false} RestCompiles(s: OpenApi, name: string, st: State)
    ensures CompiledRest(st, RestOf(s, name, st), DirectRest(s))
    decreases s.additional
  {
    GrewNothing(st);
    if s.additional.Of? {
      TypeCompiles(s.additional.schema, name + "Value", st);
    }
  }

  lemma {:induction false} AttributesCompile(properties: seq<Property>, required: set<string>, name: string, st: State)
    ensures CompiledAttrs(st, AttributesOf(properties, required, name, st), DirectFields(properties, required))
    decreases properties
  {
    GrewNothing(st);
    if properties != [] {
      var p := properties[0];
      var hint := name + PascalCase(p.name);
      TypeCompiles(p.schema, hint, st);
      var (t, st') := TypeOf(p.schema, hint, st);
      AttributesCompile(properties[1..], required, name, st');
      var (more, st'') := AttributesOf(properties[1..], required, name, st');
      GrewTwice(st, st', st'');
      var first := Attr(p.name, p.name !in required || p.schema.nullable, t, None);
      AttributesStep(st, st', st'', first, more, Direct(p.schema), DirectFields(properties[1..], required));
    }
  }

  lemma AttributesStep(
    st: State, st': State, st'': State, first: Attr, more: seq<Attr>, sh: Shape, fields: seq<ShapeField>)
    requires Compiled(st, (first.t, st'), sh) && CompiledAttrs(st', (more, st''), fields) && Grew(st, st'')
    ensures var field := ShapeField(first.name, first.optional, sh, first.default);
            CompiledAttrs(st, ([first] + more, st''), [field] + fields)
  {
    GrewTwice(st, st', st'');
    AddedChain(st, st', st'');
    NamesConcat(Added(st, st'), Added(st', st''));
    MeansGrows(Members(Added(st, st')), Members(Added(st, st'')), first.t, sh);
    MeansFieldsGrows(Members(Added(st', st'')), Members(Added(st, st'')), more, fields);
    assert ([first] + more)[1..] == more;
    assert ([ShapeField(first.name, first.optional, sh, first.default)] + fields)[1..] == fields;
  }

  /** A reserved slot, filled with its body once everything the body names is written. */
  lemma SchemaCompiles(
    st: State, hint: string, attrs: seq<Attr>, st2: State, rest: Option<Kcl>, st3: State,
    fields: seq<ShapeField>, restShape: Option<Shape>)
    requires CompiledAttrs(Reserve(st, hint).1, (attrs, st2), fields)
    requires CompiledRest(st2, (rest, st3), restShape)
    ensures var name := UniqueName(st.names, hint);
            var st4 := Place(st3, |st.blocks|, Schema(name, attrs, rest));
            Compiled(st, (Ref(name), st4), Rec(fields, restShape))
            && Added(st, st4) != [] && Added(st, st4)[0] == Schema(name, attrs, rest)
  {
    var (name, st1) := Reserve(st, hint);
    var body := Schema(name, attrs, rest);
    var st4 := Place(st3, |st.blocks|, body);
    GrewTwice(st1, st2, st3);
    var inner := Added(st1, st3);
    PlacedBlocks(st, st1, st3, body);
    assert Added(st, st4) == [body] + inner;
    BodyRefs(st1, attrs, st2, rest, st3, fields, restShape, body);
    BodyMeans(st1, attrs, st2, rest, st3, fields, restShape, body);
    BodyComplete(body, inner);
    NamesConcat([body], inner);
    SlotGrew(st, st1, st3, st4, body);
  }

  lemma SlotGrew(st: State, st1: State, st3: State, st4: State, body: Block)
    requires body.Schema? && st1 == State(st.names + {body.name}, st.blocks + [Reserved]) && body.name !in st.names
    requires Grew(st1, st3) && st4 == Place(st3, |st.blocks|, body)
    requires Complete([body] + Added(st1, st3))
    ensures Grew(st, st4)
  {
    PlacedBlocks(st, st1, st3, body);
    assert Added(st, st4) == [body] + Added(st1, st3);
    NamesConcat([body], Added(st1, st3));
    assert NamesOf([body]) == {body.name};
  }

  lemma BodyRefs(
    st1: State, attrs: seq<Attr>, st2: State, rest: Option<Kcl>, st3: State,
    fields: seq<ShapeField>, restShape: Option<Shape>, body: Block)
    requires CompiledAttrs(st1, (attrs, st2), fields) && CompiledRest(st2, (rest, st3), restShape) && Grew(st1, st3)
    requires body.Schema? && body.attrs == attrs && body.rest == rest
    ensures RefsWithin(body, NamesOf(Added(st1, st3)))
  {
    AddedChain(st1, st2, st3);
    NamesConcat(Added(st1, st2), Added(st2, st3));
  }

  lemma BodyMeans(
    st1: State, attrs: seq<Attr>, st2: State, rest: Option<Kcl>, st3: State,
    fields: seq<ShapeField>, restShape: Option<Shape>, body: Block)
    requires CompiledAttrs(st1, (attrs, st2), fields) && CompiledRest(st2, (rest, st3), restShape) && Grew(st1, st3)
    requires body.Schema? && body.attrs == attrs && body.rest == rest
    ensures Means(Members([body] + Added(st1, st3)), Ref(body.name), Rec(fields, restShape))
  {
    AddedChain(st1, st2, st3);
    NamesConcat(Added(st1, st2), Added(st2, st3));
    var all := [body] + Added(st1, st3);
    NamesConcat([body], Added(st1, st3));
    MeansFieldsGrows(Members(Added(st1, st2)), Members(all), attrs, fields);
    if restShape.Some? {
      MeansGrows(Members(Added(st2, st3)), Members(all), rest.value, restShape.value);
    }
    assert body in Members(all);
  }

  lemma PlacedBlocks(st: State, st1: State, st3: State, body: Block)
    requires st1.blocks == st.blocks + [Reserved] && Grew(st1, st3)
    ensures Place(st3, |st.blocks|, body).blocks == st.blocks + ([body] + Added(st1, st3))
  {
    assert st3.blocks == st.blocks + [Reserved] + Added(st1, st3);
  }

  lemma BodyComplete(body: Block, inner: seq<Block>)
    requires body.Schema? && Complete(inner) && body.name !in NamesOf(inner) && body.name !in KEYWORDS
    requires RefsWithin(body, NamesOf(inner))
    ensures Complete([body] + inner)
  {
    var all := [body] + inner;
    NamesConcat([body], inner);
    forall i, j | 0 <= i < j < |all| && all[i].Schema? && all[j].Schema? ensures all[i].name != all[j].name {
      assert all[j] == inner[j - 1] && inner[j - 1] in inner;
      assert all[j].name in NamesOf(inner);
    }
    forall b | b in all ensures RefsWithin(b, NamesOf(all)) {
      assert b == body || RefsWithin(b, NamesOf(inner));
    }
  }

  lemma PlainAttribute(
    st: State, name: string, optional: bool, t: Kcl, default: Option<string>, more: seq<Attr>, st2: State,
    fields: seq<ShapeField>)
    requires (t.Strings? || t.ObjectMeta?) && CompiledAttrs(st, (more, st2), fields)
    ensures CompiledAttrs(
      st, ([Attr(name, optional, t, default)] + more, st2), [ShapeField(name, optional, Plain(t), default)] + fields)
  {
    GrewNothing(st);
    AttributesStep(st, st, st2, Attr(name, optional, t, default), more, Plain(t), fields);
  }

  lemma EnvelopeCompiles(v: CrdVersion, st: State, attrs: seq<Attr>, st2: State, fields: seq<ShapeField>)
    requires CompiledAttrs(st, (attrs, st2), fields)
    ensures CompiledAttrs(st, (Enveloped(v, attrs), st2), DirectEnveloped(v, fields))
  {
    var api, kind := Strings([ApiVersion(v)]), Strings([v.kind]);
    var attrs1 := [Attr("metadata", true, ObjectMeta, None)] + attrs;
    var fields1 := [ShapeField("metadata", true, Plain(ObjectMeta), None)] + fields;
    var attrs2 := [Attr("kind", false, kind, Some(v.kind))] + attrs1;
    var fields2 := [ShapeField("kind", false, Plain(kind), Some(v.kind))] + fields1;
    PlainAttribute(st, "metadata", true, ObjectMeta, None, attrs, st2, fields);
    PlainAttribute(st, "kind", false, kind, Some(v.kind), attrs1, st2, fields1);
    PlainAttribute(st, "apiVersion", false, api, Some(ApiVersion(v)), attrs2, st2, fields2);
  }

  /** One kind: its blocks are complete, and its root name means the kind's direct translation. */
  lemma KindCompiles(v: CrdVersion, names: set<string>)
    ensures var (name, st) := KindOf(v, names);
            && Complete(st.blocks) && NamesOf(st.blocks) !! names && st.names == names + NamesOf(st.blocks)
            && Means(Members(st.blocks), Ref(name), DirectKind(v))
            && st.blocks != [] && st.blocks[0].Schema? && st.blocks[0].name == name
  {
    var st0 := State(names, []);
    var hint := PascalCase(v.kind);
    var (name, st1) := Reserve(st0, hint);
    var root := RootSchema(v);
    var own := OwnProperties(root.properties);
    AttributesCompile(own, root.required, name, st1);
    var (attrs, st2) := AttributesOf(own, root.required, name, st1);
    EnvelopeCompiles(v, st1, attrs, st2, DirectFields(own, root.required));
    var rest := if RootOpen(v) then Some(Any) else None;
    var shape := if RootOpen(v) then Some(Plain(Any)) else None;
    GrewNothing(st2);
    SchemaCompiles(st0, hint, Enveloped(v, attrs), st2, rest, st2, DirectEnveloped(v, DirectFields(own, root.required)),
      shape);
    var st := KindOf(v, names).1;
    assert Added(st0, st) == st.blocks;
  }

  // ---------------------------------------------------------------- a whole package

  /** The files of a package's kinds, in order; their names share one namespace. */
  function FilesOf(versions: seq<CrdVersion>, names: set<string>): (files: seq<seq<Block>>)
    ensures |files| == |versions|
    decreases |versions|
  {
    if versions == [] then []
    else
      var (_, st) := KindOf(versions[0], names);
      [st.blocks] + FilesOf(versions[1..], st.names)
  }

  function RootNames(versions: seq<CrdVersion>, names: set<string>): (roots: seq<string>)
    ensures |roots| == |versions|
    decreases |versions|
  {
    if versions == [] then []
    else
      var (name, st) := KindOf(versions[0], names);
      [name] + RootNames(versions[1..], st.names)
  }

  function AllBlocks(files: seq<seq<Block>>): seq<Block> {
    if files == [] then [] else files[0] + AllBlocks(files[1..])
  }

  /**
   * Across all kinds of a package: every slot is filled, names are distinct
   * and never keywords, every referenced name is defined, and looking a kind's
   * root name up gives the same type as translating its schema directly.
   */
  lemma {:induction false} PackageCompiles(versions: seq<CrdVersion>, names: set<string>)
    ensures var all := AllBlocks(FilesOf(versions, names));
            && Complete(all) && NamesOf(all) !! names
            && forall i :: 0 <= i < |versions| ==>
                 Means(Members(all), Ref(RootNames(versions, names)[i]), DirectKind(versions[i]))
    decreases |versions|
  {
    if versions != [] {
      var (name, st) := KindOf(versions[0], names);
      KindCompiles(versions[0], names);
      PackageCompiles(versions[1..], st.names);
      var first, others := st.blocks, AllBlocks(FilesOf(versions[1..], st.names));
      var all := AllBlocks(FilesOf(versions, names));
      assert all == first + others;
      CompleteConcat(first, others);
      NamesConcat(first, others);
      forall i | 0 <= i < |versions|
        ensures Means(Members(all), Ref(RootNames(versions, names)[i]), DirectKind(versions[i]))
      {
        if i == 0 {
          MeansGrows(Members(first), Members(all), Ref(name), DirectKind(versions[0]));
        } else {
          MeansGrows(
            Members(others), Members(all), Ref(RootNames(versions[1..], st.names)[i - 1]), DirectKind(versions[i]));
        }
      }
    }
  }

  /** Distinct names make the lookup a function: a name means at most one record. */
  lemma LookupIsUnique(blocks: seq<Block>, name: string, a: Block, b: Block)
    requires DistinctNames(blocks) && a in blocks && b in blocks
    requires a.Schema? && b.Schema? && a.name == name && b.name == name
    ensures a == b
  {
    var i, j :| 0 <= i < |blocks| && 0 <= j < |blocks| && blocks[i] == a && blocks[j] == b;
    assert i == j || i < j || j < i;
  }

  // ---------------------------------------------------------------- the emitter

  class PackageEmitter {
    var names: set<string>
    var blocks: seq<Block>

    constructor ()
      ensures names == {} && blocks == []
    {
      names, blocks := {}, [];
    }

    /** `unique`: the first free candidate, found by counting up. */
    method Unique(hint: string) returns (candidate: string)
      modifies this`names
      ensures candidate == UniqueName(old(names), hint)
      ensures names == old(names) + {candidate}
    {
      candidate := hint;
      var suffix := 1;
      while candidate in names || candidate in KEYWORDS
        invariant names == old(names)
        invariant suffix >= 1 && candidate == Candidate(hint, suffix)
        invariant FirstFree(names + KEYWORDS, hint, suffix) == UniqueName(names, hint)
        decreases Ahead(names + KEYWORDS, hint, suffix)
      {
        AheadShrinks(names + KEYWORDS, hint, suffix);
        suffix := suffix + 1;
        candidate := Candidate(hint, suffix);
      }
      assert candidate !in names + KEYWORDS;
      assert FirstFree(names + KEYWORDS, hint, suffix) == candidate;
      names := names + {candidate};
    }

    method Push() returns (index: nat)
      modifies this`blocks
      ensures index == |old(blocks)| && blocks == old(blocks) + [Reserved]
    {
      index := |blocks|;
      blocks := blocks + [Reserved];
    }

    method Type(s: OpenApi, hint: string) returns (t: Kcl)
      modifies this
      ensures (t, State(names, blocks)) == TypeOf(s, hint, State(old(names), old(blocks)))
      decreases s, 1
    {
      var simple := Simple(s);
      if simple.Some? {
        t := simple.value;
      } else if s.kind == Some("array") {
        if s.items.None? {
          t := ListOf(Any);
        } else {
          var item := Type(s.items.value, hint + "Item");
          t := ListOf(item);
        }
      } else {
        t := Object(s, hint);
      }
    }

    method Object(s: OpenApi, hint: string) returns (t: Kcl)
      modifies this
      ensures (t, State(names, blocks)) == ObjectOf(s, hint, State(old(names), old(blocks)))
      decreases s, 0
    {
      if s.properties == [] {
        if s.additional.Of? {
          var value := Type(s.additional.schema, hint + "Value");
          t := DictOf(value);
        } else {
          t := if s.kind.None? && !s.preserveUnknown then Any else DictOf(Any);
        }
      } else {
        var name := Unique(hint);
        var index := Push();
        var attrs := Attributes(s.properties, s.required, name);
        var rest := Rest(s, name);
        Fill(index, Schema(name, attrs, rest));
        t := Ref(name);
      }
    }

    method Rest(s: OpenApi, name: string) returns (rest: Option<Kcl>)
      modifies this
      ensures (rest, State(names, blocks)) == RestOf(s, name, State(old(names), old(blocks)))
      decreases s.additional
    {
      if s.additional.Of? {
        var t := Type(s.additional.schema, name + "Value");
        rest := Some(t);
      } else {
        rest := if OpenEnded(s) then Some(Any) else None;
      }
    }

    method Attributes(properties: seq<Property>, required: set<string>, name: string) returns (attrs: seq<Attr>)
      modifies this
      ensures (attrs, State(names, blocks)) == AttributesOf(properties, required, name, State(old(names), old(blocks)))
      decreases properties
    {
      attrs := [];
      ghost var result := AttributesOf(properties, required, name, State(names, blocks));
      for i := 0 to |properties|
        invariant var rest := AttributesOf(properties[i..], required, name, State(names, blocks));
                  rest.1 == result.1 && attrs + rest.0 == result.0
      {
        var p := properties[i];
        assert properties[i..][0] == p && properties[i..][1..] == properties[i + 1..];
        var t := Type(p.schema, name + PascalCase(p.name));
        attrs := attrs + [Attr(p.name, p.name !in required || p.schema.nullable, t, None)];
      }
      assert properties[|properties|..] == [] && attrs + [] == attrs;
    }

    /** `blocks[index] = body`. */
    method Fill(index: nat, body: Block)
      modifies this`blocks
      ensures State(names, blocks) == Place(State(names, old(blocks)), index, body)
    {
      if index < |blocks| {
        blocks := blocks[index := body];
      }
    }

    /** `kind`: a fresh list of blocks, names kept from the kinds before. */
    method Kind(v: CrdVersion) returns (file: seq<Block>)
      modifies this
      ensures file == blocks && State(names, blocks) == KindOf(v, old(names)).1
    {
      blocks := [];
      var name := Unique(PascalCase(v.kind));
      var index := Push();
      var root := RootSchema(v);
      var attrs := Attributes(OwnProperties(root.properties), root.required, name);
      var rest := if RootOpen(v) then Some(Any) else None;
      Fill(index, Schema(name, Enveloped(v, attrs), rest));
      file := blocks;
    }
  }
}
