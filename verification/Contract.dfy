/**
 * The definitions a public API contract needs (cli/scripts/generate-contract.ts):
 * cleaned components, collected by a worklist over possibly cyclic references.
 */
module Contract {
  import opened Common

  datatype Json =
    | Null | Bool(b: bool) | Num(n: int) | Str(s: string)
    | Arr(items: seq<Json>) | Obj(members: seq<Member>)

  datatype Member = Member(key: string, value: Json)

  const COMPONENT_PREFIX := "#/components/schemas/"
  const DEFINITION_PREFIX := "#/$defs/"

  // ---------------------------------------------------------------- what refers to what

  /** The `$ref` of an object with these members is `target`. */
  ghost predicate HasRef(members: seq<Member>, target: string) {
    exists k :: 0 <= k < |members| && members[k] == Member("$ref", Str(target))
                && forall j :: 0 <= j < k ==> members[j].key != "$ref"
  }

  /** Somewhere in `v` there is a reference to the definition `name`. */
  ghost predicate Mentions(v: Json, name: string) {
    match v
    case Arr(items) => exists e :: e in items && Mentions(e, name)
    case Obj(members) => HasRef(members, "#/$defs/" + name) || exists m :: m in members && Mentions(m.value, name)
    case _ => false
  }

  ghost predicate IsDocumentation(key: string) {
    key == "example" || key == "examples" || (|key| >= 2 && key[0] == 'x' && key[1] == '-')
  }

  /** Somewhere in `v`, outside documentation, there is a reference to the component or definition `name`. */
  ghost predicate RefersTo(v: Json, name: string) {
    match v
    case Arr(items) => exists e :: e in items && RefersTo(e, name)
    case Obj(members) =>
      || HasRef(members, "#/components/schemas/" + name)
      || HasRef(members, "#/$defs/" + name)
      || exists m :: m in members && !IsDocumentation(m.key) && RefersTo(m.value, name)
    case _ => false
  }

  /** The positions of the members that are no documentation. */
  ghost predicate AreKept(members: seq<Member>, kept: seq<nat>) {
    && (forall a, b :: 0 <= a < b < |kept| ==> kept[a] < kept[b])
    && (forall k: nat :: k in kept <==> k < |members| && !IsDocumentation(members[k].key))
  }

  /** `w` is `v` without documentation, its component references pointing at definitions. */
  ghost predicate IsClean(v: Json, w: Json)
    decreases v, 1
  {
    match v
    case Arr(items) => w.Arr? && |w.items| == |items| && forall i :: 0 <= i < |items| ==> IsClean(items[i], w.items[i])
    case Obj(members) =>
      w.Obj? && exists kept ::
        && AreKept(members, kept) && |w.members| == |kept|
        && forall k :: 0 <= k < |kept| && kept[k] < |members| ==> IsCleanMember(members[kept[k]], w.members[k])
    case _ => w == v
  }

  ghost predicate IsCleanMember(m: Member, w: Member)
    decreases m, 0
  {
    && w.key == m.key
    && (IsClean(m.value, w.value) || (m.key == "$ref" && m.value.Str?))
    && (m.key == "$ref" && m.value.Str? ==>
          && (forall name :: m.value.s == "#/components/schemas/" + name ==> w.value == Str("#/$defs/" + name))
          && ((forall name :: m.value.s != "#/components/schemas/" + name) ==> w.value == m.value))
  }

  // ---------------------------------------------------------------- references

  /** The definition a `$ref` member names. */
  function OwnReference(members: seq<Member>): (r: seq<string>)
    ensures forall name :: name in r <==> HasRef(members, DEFINITION_PREFIX + name)
  {
    if members == [] then []
    else
      RefOf(members);
      if members[0].key == "$ref" then
        if members[0].value.Str? && StartsWith(members[0].value.s, DEFINITION_PREFIX)
        then [members[0].value.s[|DEFINITION_PREFIX|..]] else []
      else OwnReference(members[1..])
  }

  lemma RefOf(members: seq<Member>)
    requires members != []
    ensures forall target :: HasRef(members, target) <==>
              if members[0].key == "$ref" then members[0].value == Str(target) else HasRef(members[1..], target)
    ensures forall name :: members[0].value == Str(DEFINITION_PREFIX + name) <==>
              && members[0].value.Str? && StartsWith(members[0].value.s, DEFINITION_PREFIX)
              && members[0].value.s[|DEFINITION_PREFIX|..] == name
  {
    var rest := members[1..];
    forall target
      ensures HasRef(members, target) <==>
              if members[0].key == "$ref" then members[0].value == Str(target) else HasRef(rest, target)
    {
      if members[0].key != "$ref" && HasRef(rest, target) {
        var k :| 0 <= k < |rest| && rest[k] == Member("$ref", Str(target))
          && forall j :: 0 <= j < k ==> rest[j].key != "$ref";
        assert members[k + 1] == Member("$ref", Str(target));
        assert forall j :: 0 < j < k + 1 ==> members[j] == rest[j - 1];
      }
      if members[0].key != "$ref" && HasRef(members, target) {
        var k :| 0 <= k < |members| && members[k] == Member("$ref", Str(target))
                 && forall j :: 0 <= j < k ==> members[j].key != "$ref";
        assert rest[k - 1] == members[k];
        assert forall j :: 0 <= j < k - 1 ==> rest[j] == members[j + 1];
      }
      if members[0].key == "$ref" && members[0].value == Str(target) {
        assert members[0] == Member("$ref", Str(target));
      }
    }
    if members[0].value.Str? {
      PrefixSplits(members[0].value.s, DEFINITION_PREFIX);
    }
  }

  lemma PrefixSplits(s: string, prefix: string)
    ensures forall name :: s == prefix + name <==> StartsWith(s, prefix) && s[|prefix|..] == name
  {
    forall name ensures s == prefix + name <==> StartsWith(s, prefix) && s[|prefix|..] == name {
      if StartsWith(s, prefix) {
        assert s == s[..|prefix|] + s[|prefix|..];
      }
      if s == prefix + name {
        assert s[..|prefix|] == prefix && s[|prefix|..] == name;
      }
    }
  }

  /** `definitionReferences`. */
  function References(v: Json): (r: seq<string>)
    ensures forall name :: name in r <==> Mentions(v, name)
    decreases v
  {
    match v
    case Arr(items) => ItemReferences(items)
    case Obj(members) => OwnReference(members) + MemberReferences(members)
    case _ => []
  }

  function ItemReferences(items: seq<Json>): (r: seq<string>)
    ensures forall name :: name in r <==> exists e :: e in items && Mentions(e, name)
    decreases items
  {
    if items == [] then []
    else
      assert items[0] in items && forall e :: e in items <==> e == items[0] || e in items[1..];
      References(items[0]) + ItemReferences(items[1..])
  }

  function MemberReferences(members: seq<Member>): (r: seq<string>)
    ensures forall name :: name in r <==> exists m :: m in members && Mentions(m.value, name)
    decreases members
  {
    if members == [] then []
    else
      assert forall m :: m in members <==> m == members[0] || m in members[1..];
      References(members[0].value) + MemberReferences(members[1..])
  }

  // ---------------------------------------------------------------- cleaning

  predicate Dropped(key: string) {
    key == "example" || key == "examples" || StartsWith(key, "x-")
  }

  /** `cleanSchema`: drop documentation keywords, point component references at the definitions. */
  function CleanMembers(members: seq<Member>): seq<Member>
    decreases members
  {
    if members == [] then []
    else if Dropped(members[0].key) then CleanMembers(members[1..])
    else [Member(members[0].key, CleanField(members[0]))] + CleanMembers(members[1..])
  }

  function CleanField(m: Member): Json
    decreases m
  {
    if m.key == "$ref" && m.value.Str? && StartsWith(m.value.s, COMPONENT_PREFIX)
    then Str(DEFINITION_PREFIX + m.value.s[|COMPONENT_PREFIX|..])
    else CleanValue(m.value)
  }

  function CleanValue(v: Json): Json
    decreases v
  {
    match v
    case Arr(items) => Arr(CleanItems(items))
    case Obj(members) => Obj(CleanMembers(members))
    case _ => v
  }

  function CleanItems(items: seq<Json>): (r: seq<Json>)
    ensures |r| == |items|
    decreases items
  {
    if items == [] then [] else [CleanValue(items[0])] + CleanItems(items[1..])
  }

  lemma DroppedIsDocumentation(key: string)
    ensures Dropped(key) <==> IsDocumentation(key)
  {
    if |key| >= 2 {
      assert key[..2] == [key[0], key[1]];
    }
  }

  lemma {:induction false} CleanItemsAt(items: seq<Json>)
    ensures forall i :: 0 <= i < |items| ==> CleanItems(items)[i] == CleanValue(items[i])
  {
    if items != [] {
      CleanItemsAt(items[1..]);
      assert forall i :: 0 < i < |items| ==> items[i] == items[1..][i - 1];
    }
  }

  // ---------------------------------------------------------------- cleaning keeps references

  /** Cleaning changes no reference: what the result mentions is what the schema refers to. */
  lemma {:induction false} CleanMentions(v: Json, name: string)
    ensures Mentions(CleanValue(v), name) <==> RefersTo(v, name)
    decreases v, 1
  {
    match v
    case Arr(items) =>
      CleanItemsAt(items);
      forall e | e in items ensures Mentions(CleanValue(e), name) <==> RefersTo(e, name) {
        CleanMentions(e, name);
      }
      ItemsMention(items, name);
    case Obj(members) =>
      forall m | m in members ensures Mentions(CleanValue(m.value), name) <==> RefersTo(m.value, name) {
        CleanMentions(m.value, name);
      }
      CleanRef(members, name);
      CleanNested(members, name);
    case _ =>
  }

  lemma ItemsMention(items: seq<Json>, name: string)
    requires forall e :: e in items ==> (Mentions(CleanValue(e), name) <==> RefersTo(e, name))
    requires forall i :: 0 <= i < |items| ==> CleanItems(items)[i] == CleanValue(items[i])
    ensures (exists e :: e in CleanItems(items) && Mentions(e, name)) <==> exists e :: e in items && RefersTo(e, name)
  {
    if e :| e in items && RefersTo(e, name) {
      var i :| 0 <= i < |items| && items[i] == e;
      assert CleanItems(items)[i] in CleanItems(items) && Mentions(CleanItems(items)[i], name);
    }
    if e :| e in CleanItems(items) && Mentions(e, name) {
      var i :| 0 <= i < |items| && CleanItems(items)[i] == e;
      assert items[i] in items && RefersTo(items[i], name);
    }
  }

  /** Component references become definition references, definition references stay. */
  lemma RefCleaned(m: Member, name: string)
    requires m.key == "$ref"
    ensures CleanField(m) == Str(DEFINITION_PREFIX + name) <==>
            m.value == Str(COMPONENT_PREFIX + name) || m.value == Str(DEFINITION_PREFIX + name)
  {
    if m.value.Str? {
      PrefixSplits(m.value.s, COMPONENT_PREFIX);
      var d := DEFINITION_PREFIX + name;
      assert d[2] == '$' && COMPONENT_PREFIX[2] == 'c';
      if |COMPONENT_PREFIX| <= |d| {
        assert d[..|COMPONENT_PREFIX|][2] == d[2];
      }
      if StartsWith(m.value.s, COMPONENT_PREFIX) {
        var rest := m.value.s[|COMPONENT_PREFIX|..];
        assert (DEFINITION_PREFIX + rest)[|DEFINITION_PREFIX|..] == rest && d[|DEFINITION_PREFIX|..] == name;
      }
    }
  }

  lemma {:induction false} CleanRef(members: seq<Member>, name: string)
    ensures HasRef(CleanMembers(members), DEFINITION_PREFIX + name) <==>
            HasRef(members, COMPONENT_PREFIX + name) || HasRef(members, DEFINITION_PREFIX + name)
  {
    if members != [] {
      var m, rest := members[0], members[1..];
      CleanRef(rest, name);
      RefOf(members);
      DroppedIsDocumentation(m.key);
      if !Dropped(m.key) {
        var cleaned := [Member(m.key, CleanField(m))] + CleanMembers(rest);
        RefOf(cleaned);
        assert cleaned[1..] == CleanMembers(rest);
        if m.key == "$ref" {
          RefCleaned(m, name);
        }
      } else {
        assert m.key != "$ref";
      }
    }
  }

  lemma {:induction false} CleanNested(members: seq<Member>, name: string)
    requires forall m :: m in members ==> (Mentions(CleanValue(m.value), name) <==> RefersTo(m.value, name))
    ensures (exists m :: m in CleanMembers(members) && Mentions(m.value, name)) <==>
            exists m :: m in members && !IsDocumentation(m.key) && RefersTo(m.value, name)
  {
    if members != [] {
      var m, rest := members[0], members[1..];
      assert members == [m] + rest;
      CleanNested(rest, name);
      DroppedIsDocumentation(m.key);
      assert !Dropped(m.key) ==> CleanMembers(members) == [Member(m.key, CleanField(m))] + CleanMembers(rest);
      assert Mentions(CleanField(m), name) <==> RefersTo(m.value, name);
    }
  }

  // ---------------------------------------------------------------- what cleaning is

  lemma {:induction false} CleanedIsClean(v: Json)
    ensures IsClean(v, CleanValue(v))
    decreases v, 1
  {
    match v
    case Arr(items) =>
      CleanItemsAt(items);
      forall i | 0 <= i < |items| ensures IsClean(items[i], CleanItems(items)[i]) {
        CleanedIsClean(items[i]);
      }
    case Obj(members) =>
      forall m | m in members ensures IsClean(m.value, CleanValue(m.value)) {
        CleanedIsClean(m.value);
      }
      MembersAreClean(members);
      assert AreKept(members, KeptFrom(members, 0));
    case _ =>
  }

  function KeptFrom(members: seq<Member>, i: nat): (kept: seq<nat>)
    requires i <= |members|
    ensures forall k: nat :: k in kept <==> i <= k < |members| && !Dropped(members[k].key)
    ensures forall a, b :: 0 <= a < b < |kept| ==> kept[a] < kept[b]
    decreases |members| - i
  {
    if i == |members| then []
    else
      var rest := KeptFrom(members, i + 1);
      assert forall k :: 0 <= k < |rest| ==> rest[k] in rest;
      if Dropped(members[i].key) then rest else [i] + rest
  }

  ghost predicate AreCleaned(members: seq<Member>, kept: seq<nat>, cleaned: seq<Member>) {
    && |cleaned| == |kept|
    && forall k :: 0 <= k < |kept| ==>
         kept[k] < |members| && cleaned[k] == Member(members[kept[k]].key, CleanField(members[kept[k]]))
  }

  lemma OneMoreCleaned(members: seq<Member>, i: nat, kept: seq<nat>, cleaned: seq<Member>)
    requires i < |members| && AreCleaned(members, kept, cleaned)
    ensures AreCleaned(members, [i] + kept, [Member(members[i].key, CleanField(members[i]))] + cleaned)
  {
  }

  lemma CleanNext(members: seq<Member>, i: nat)
    requires i < |members|
    ensures CleanMembers(members[i..]) ==
            if Dropped(members[i].key) then CleanMembers(members[i + 1..])
            else [Member(members[i].key, CleanField(members[i]))] + CleanMembers(members[i + 1..])
  {
    assert members[i..][0] == members[i] && members[i..][1..] == members[i + 1..];
  }

  lemma {:induction false} KeptMembers(members: seq<Member>, i: nat)
    requires i <= |members|
    ensures AreCleaned(members, KeptFrom(members, i), CleanMembers(members[i..]))
    decreases |members| - i
  {
    if i < |members| {
      KeptMembers(members, i + 1);
      CleanNext(members, i);
      if !Dropped(members[i].key) {
        OneMoreCleaned(members, i, KeptFrom(members, i + 1), CleanMembers(members[i + 1..]));
      }
    }
  }

  lemma KeptAreKept(members: seq<Member>)
    ensures AreKept(members, KeptFrom(members, 0))
  {
    forall key ensures Dropped(key) <==> IsDocumentation(key) {
      DroppedIsDocumentation(key);
    }
  }

  lemma MembersAreClean(members: seq<Member>)
    requires forall m :: m in members ==> IsClean(m.value, CleanValue(m.value))
    ensures var kept := KeptFrom(members, 0);
            && AreKept(members, kept) && |CleanMembers(members)| == |kept|
            && forall k :: 0 <= k < |kept| && kept[k] < |members| ==>
                 IsCleanMember(members[kept[k]], CleanMembers(members)[k])
  {
    KeptAreKept(members);
    KeptMembers(members, 0);
    assert members[0..] == members;
    forall m | m in members ensures IsCleanMember(m, Member(m.key, CleanField(m))) {
      FieldIsClean(m);
    }
  }

  lemma FieldIsClean(m: Member)
    requires IsClean(m.value, CleanValue(m.value))
    ensures IsCleanMember(m, Member(m.key, CleanField(m)))
  {
    if m.value.Str? {
      PrefixSplits(m.value.s, COMPONENT_PREFIX);
      if StartsWith(m.value.s, COMPONENT_PREFIX) {
        assert m.value.s == COMPONENT_PREFIX + m.value.s[|COMPONENT_PREFIX|..];
      }
    }
  }

  // ---------------------------------------------------------------- reachability

  /** `components.schemas`: each component is an object. */
  type Components = map<string, seq<Member>>

  function Cleaned(doc: Components, name: string): Json
    requires name in doc
  {
    Obj(CleanMembers(doc[name]))
  }

  /** The names a component refers to, once cleaned. */
  function Successors(doc: Components, name: string): (r: seq<string>)
    ensures forall b :: b in r <==> name in doc && RefersTo(Obj(doc[name]), b)
  {
    if name in doc then
      SuccessorsMeaning(doc, name);
      References(Cleaned(doc, name))
    else []
  }

  lemma SuccessorsMeaning(doc: Components, name: string)
    requires name in doc
    ensures forall b :: Mentions(Cleaned(doc, name), b) <==> RefersTo(Obj(doc[name]), b)
  {
    forall b ensures Mentions(Cleaned(doc, name), b) <==> RefersTo(Obj(doc[name]), b) {
      CleanMentions(Obj(doc[name]), b);
    }
  }

  /**
   * The names every plain object inherits: the worklist's `name in definitions`
   * finds them in the empty record too.
   */
  const INHERITED: set<string> := {
    "constructor", "__defineGetter__", "__defineSetter__", "hasOwnProperty", "__lookupGetter__", "__lookupSetter__",
    "isPrototypeOf", "propertyIsEnumerable", "toString", "valueOf", "__proto__", "toLocaleString"}

  /** A chain of references from a root to its last name, on which no `blocked` name leads on. */
  ghost predicate IsChain(doc: Components, roots: set<string>, blocked: set<string>, chain: seq<string>) {
    && chain != [] && chain[0] in roots
    && forall i :: 0 <= i < |chain| - 1 ==> Leads(doc, blocked, chain[i], chain[i + 1])
  }

  ghost predicate Leads(doc: Components, blocked: set<string>, a: string, b: string) {
    a in doc && RefersTo(Obj(doc[a]), b) && a !in blocked
  }

  ghost predicate ReachableVia(doc: Components, roots: set<string>, blocked: set<string>, name: string) {
    exists chain :: IsChain(doc, roots, blocked, chain) && chain[|chain| - 1] == name
  }

  /** Reachable from the roots' references. */
  ghost predicate Reachable(doc: Components, roots: set<string>, name: string) {
    ReachableVia(doc, roots, {}, name)
  }

  /** The reachable names are the least set that holds the roots' references and is closed under references. */
  lemma {:induction false} ReachableIsLeast(
    doc: Components, roots: set<string>, closed: set<string>, chain: seq<string>)
    requires roots <= closed && forall a, b :: a in closed && Leads(doc, {}, a, b) ==> b in closed
    requires IsChain(doc, roots, {}, chain)
    ensures chain[|chain| - 1] in closed
    decreases |chain|
  {
    if |chain| > 1 {
      var n := |chain| - 2;
      ReachableIsLeast(doc, roots, closed, chain[..n + 1]);
      assert Leads(doc, {}, chain[n], chain[n + 1]);
    }
  }

  lemma ReachableIsClosed(doc: Components, roots: set<string>, blocked: set<string>, a: string, b: string)
    requires ReachableVia(doc, roots, blocked, a) && Leads(doc, blocked, a, b)
    ensures ReachableVia(doc, roots, blocked, b)
  {
    var chain :| IsChain(doc, roots, blocked, chain) && chain[|chain| - 1] == a;
    var longer := chain + [b];
    forall i | 0 <= i < |longer| - 1 ensures Leads(doc, blocked, longer[i], longer[i + 1]) {
      if i < |chain| - 1 {
        assert Leads(doc, blocked, chain[i], chain[i + 1]);
      }
    }
    assert IsChain(doc, roots, blocked, longer);
    assert longer[|longer| - 1] == b;
  }

  lemma RootsAreReachable(doc: Components, roots: set<string>, blocked: set<string>, name: string)
    requires name in roots
    ensures ReachableVia(doc, roots, blocked, name)
  {
    assert IsChain(doc, roots, blocked, [name]);
  }

  // ---------------------------------------------------------------- the worklist

  type Outcome = Result<map<string, Json>, string>

  /** What the worklist produces when `inherited` names count as defined: what it reaches, or a missing name. */
  ghost predicate Produced(doc: Components, roots: set<string>, inherited: set<string>, r: Outcome) {
    match r
    case Ok(definitions) =>
      && (forall n :: n in definitions <==> ReachableVia(doc, roots, inherited, n) && n !in inherited)
      && (forall n :: n in definitions ==> n in doc && definitions[n] == Cleaned(doc, n))
    case Err(n) => ReachableVia(doc, roots, inherited, n) && n !in inherited && n !in doc
  }

  /** Everything a definition or a root refers to is defined, pending or inherited. */
  ghost predicate Covered(
    doc: Components, roots: set<string>, inherited: set<string>, definitions: set<string>, pending: seq<string>) {
    && (forall n :: n in roots ==> Known(n, definitions, pending, inherited))
    && (forall a, b :: a in definitions && Leads(doc, inherited, a, b) ==> Known(b, definitions, pending, inherited))
  }

  ghost predicate Known(n: string, definitions: set<string>, pending: seq<string>, inherited: set<string>) {
    n in definitions || n in pending || n in inherited
  }

  ghost predicate Justified(
    doc: Components, roots: set<string>, inherited: set<string>, definitions: map<string, Json>, pending: seq<string>) {
    && (forall n :: n in definitions ==> n in doc && definitions[n] == Cleaned(doc, n) && n !in inherited)
    && (forall n :: n in definitions ==> ReachableVia(doc, roots, inherited, n))
    && (forall n :: n in pending ==> ReachableVia(doc, roots, inherited, n))
  }

  function RootsOf(document: Json): set<string> {
    set n | n in References(document)
  }

  /** `reachableDefinitions`. */
  method ReachableDefinitions(doc: Components, document: Json) returns (r: Outcome)
    ensures Produced(doc, RootsOf(document), INHERITED, r)
  {
    r := Collect(doc, document, INHERITED);
  }

  ghost predicate Invariant(
    doc: Components, roots: set<string>, inherited: set<string>, definitions: map<string, Json>, pending: seq<string>) {
    Justified(doc, roots, inherited, definitions, pending) && Covered(doc, roots, inherited, definitions.Keys, pending)
  }

  /** The body of the loop: take the last pending name, and define it if it is new. */
  method Turn(
    doc: Components, ghost roots: set<string>, inherited: set<string>, definitions: map<string, Json>,
    pending: seq<string>)
    returns (missing: Option<string>, definitions': map<string, Json>, pending': seq<string>)
    requires Invariant(doc, roots, inherited, definitions, pending) && pending != []
    ensures missing.Some? ==> Produced(doc, roots, inherited, Err(missing.value))
    ensures missing.None? ==> Invariant(doc, roots, inherited, definitions', pending')
    ensures missing.None? ==>
              || |doc.Keys - definitions'.Keys| < |doc.Keys - definitions.Keys|
              || (definitions' == definitions && |pending'| < |pending|)
  {
    var name := pending[|pending| - 1];
    missing, definitions', pending' := None, definitions, pending[..|pending| - 1];
    assert pending == pending' + [name];
    if name in definitions || name in inherited {
      Skipped(doc, roots, inherited, definitions, pending', name);
    } else if name !in doc {
      assert name in pending;
      missing := Some(name);
    } else {
      Defined(doc, roots, inherited, definitions, pending', name);
      definitions', pending' := definitions[name := Cleaned(doc, name)], pending' + Successors(doc, name);
    }
  }

  method Collect(doc: Components, document: Json, inherited: set<string>) returns (r: Outcome)
    ensures Produced(doc, RootsOf(document), inherited, r)
  {
    ghost var roots := RootsOf(document);
    var definitions: map<string, Json>, pending := map[], References(document);
    Started(doc, document, inherited);
    while |pending| > 0
      invariant Invariant(doc, roots, inherited, definitions, pending)
      decreases |doc.Keys - definitions.Keys|, |pending|
    {
      var missing;
      missing, definitions, pending := Turn(doc, roots, inherited, definitions, pending);
      if missing.Some? {
        return Err(missing.value);
      }
    }
    Finished(doc, roots, inherited, definitions);
    r := Ok(definitions);
  }

  lemma Started(doc: Components, document: Json, inherited: set<string>)
    ensures Invariant(doc, RootsOf(document), inherited, map[], References(document))
  {
    forall n | n in References(document) ensures ReachableVia(doc, RootsOf(document), inherited, n) {
      RootsAreReachable(doc, RootsOf(document), inherited, n);
    }
  }

  lemma Skipped(
    doc: Components, roots: set<string>, inherited: set<string>, definitions: map<string, Json>,
    pending: seq<string>, name: string)
    requires Justified(doc, roots, inherited, definitions, pending + [name])
    requires Covered(doc, roots, inherited, definitions.Keys, pending + [name])
    requires name in definitions || name in inherited
    ensures Justified(doc, roots, inherited, definitions, pending)
    ensures Covered(doc, roots, inherited, definitions.Keys, pending)
  {
    forall n | n in pending ensures ReachableVia(doc, roots, inherited, n) {
      assert n in pending + [name];
    }
    forall n | Known(n, definitions.Keys, pending + [name], inherited)
      ensures Known(n, definitions.Keys, pending, inherited)
    {
    }
  }

  /** Moving a name from the worklist to the record keeps the invariant and makes progress. */
  lemma Defined(
    doc: Components, roots: set<string>, inherited: set<string>, definitions: map<string, Json>,
    pending: seq<string>, name: string)
    requires Justified(doc, roots, inherited, definitions, pending + [name])
    requires Covered(doc, roots, inherited, definitions.Keys, pending + [name])
    requires name in doc && name !in definitions && name !in inherited
    ensures var definitions' := definitions[name := Cleaned(doc, name)];
            var pending' := pending + Successors(doc, name);
            && Justified(doc, roots, inherited, definitions', pending')
            && Covered(doc, roots, inherited, definitions'.Keys, pending')
            && |doc.Keys - definitions'.Keys| < |doc.Keys - definitions.Keys|
  {
    var definitions' := definitions[name := Cleaned(doc, name)];
    DefinedIsJustified(doc, roots, inherited, definitions, pending, name);
    DefinedIsCovered(doc, roots, inherited, definitions.Keys, pending, name);
    assert definitions'.Keys == definitions.Keys + {name};
    assert doc.Keys - definitions'.Keys == doc.Keys - definitions.Keys - {name};
  }

  lemma DefinedIsJustified(
    doc: Components, roots: set<string>, inherited: set<string>, definitions: map<string, Json>,
    pending: seq<string>, name: string)
    requires Justified(doc, roots, inherited, definitions, pending + [name])
    requires name in doc && name !in definitions && name !in inherited
    ensures Justified(doc, roots, inherited, definitions[name := Cleaned(doc, name)], pending + Successors(doc, name))
  {
    var more := Successors(doc, name);
    assert name in pending + [name];
    forall n | n in pending + more ensures ReachableVia(doc, roots, inherited, n) {
      if n in more {
        ReachableIsClosed(doc, roots, inherited, name, n);
      } else {
        assert n in pending + [name];
      }
    }
  }

  lemma DefinedIsCovered(
    doc: Components, roots: set<string>, inherited: set<string>, definitions: set<string>, pending: seq<string>,
    name: string)
    requires Covered(doc, roots, inherited, definitions, pending + [name])
    ensures Covered(doc, roots, inherited, definitions + {name}, pending + Successors(doc, name))
  {
    var more := Successors(doc, name);
    forall n | Known(n, definitions, pending + [name], inherited)
      ensures Known(n, definitions + {name}, pending + more, inherited)
    {
    }
  }

  lemma Finished(doc: Components, roots: set<string>, inherited: set<string>, definitions: map<string, Json>)
    requires Justified(doc, roots, inherited, definitions, []) && Covered(doc, roots, inherited, definitions.Keys, [])
    ensures Produced(doc, roots, inherited, Ok(definitions))
  {
    forall n | ReachableVia(doc, roots, inherited, n) && n !in inherited ensures n in definitions {
      var chain :| IsChain(doc, roots, inherited, chain) && chain[|chain| - 1] == n;
      ChainIsDefined(doc, roots, inherited, definitions.Keys, chain);
    }
  }

  lemma {:induction false} ChainIsDefined(
    doc: Components, roots: set<string>, inherited: set<string>, definitions: set<string>, chain: seq<string>)
    requires Covered(doc, roots, inherited, definitions, []) && IsChain(doc, roots, inherited, chain)
    ensures Known(chain[|chain| - 1], definitions, [], inherited)
    decreases |chain|
  {
    if |chain| > 1 {
      var n := |chain| - 2;
      ChainIsDefined(doc, roots, inherited, definitions, chain[..n + 1]);
      assert Leads(doc, inherited, chain[n], chain[n + 1]);
    }
  }

  // ---------------------------------------------------------------- what was promised

  /** Exactly the reachable components; a failure exactly when a reachable name is missing. */
  ghost predicate AsPromised(doc: Components, roots: set<string>, r: Outcome) {
    && (r.Ok? <==> forall n :: Reachable(doc, roots, n) ==> n in doc)
    && (r.Ok? ==> forall n :: n in r.value <==> Reachable(doc, roots, n))
  }

  lemma OwnIsReachable(doc: Components, roots: set<string>, blocked: set<string>, n: string)
    ensures ReachableVia(doc, roots, blocked, n) ==> Reachable(doc, roots, n)
  {
    if ReachableVia(doc, roots, blocked, n) {
      var chain :| IsChain(doc, roots, blocked, chain) && chain[|chain| - 1] == n;
      forall i | 0 <= i < |chain| - 1 ensures Leads(doc, {}, chain[i], chain[i + 1]) {
        assert Leads(doc, blocked, chain[i], chain[i + 1]);
      }
      assert IsChain(doc, roots, {}, chain);
    }
  }

  lemma {:induction false} OwnChain(doc: Components, roots: set<string>, inherited: set<string>, chain: seq<string>)
    requires IsChain(doc, roots, {}, chain) && forall n :: Reachable(doc, roots, n) ==> n !in inherited
    ensures IsChain(doc, roots, inherited, chain)
  {
    forall i | 0 <= i < |chain| - 1 ensures Leads(doc, inherited, chain[i], chain[i + 1]) {
      assert Leads(doc, {}, chain[i], chain[i + 1]);
      PrefixReaches(doc, roots, {}, chain, i);
      assert Reachable(doc, roots, chain[i]);
    }
  }

  lemma PrefixReaches(doc: Components, roots: set<string>, blocked: set<string>, chain: seq<string>, i: nat)
    requires IsChain(doc, roots, blocked, chain) && i < |chain|
    ensures ReachableVia(doc, roots, blocked, chain[i])
  {
    var prefix := chain[..i + 1];
    forall j | 0 <= j < |prefix| - 1 ensures Leads(doc, blocked, prefix[j], prefix[j + 1]) {
      assert Leads(doc, blocked, chain[j], chain[j + 1]);
    }
    assert IsChain(doc, roots, blocked, prefix);
    assert prefix[|prefix| - 1] == chain[i];
  }

  /** Every name the roots lead to is a component. */
  ghost predicate AllPresent(doc: Components, roots: set<string>) {
    forall n :: Reachable(doc, roots, n) ==> n in doc
  }

  /**
   * When every reachable component is there, the worklist keeps its promise
   * exactly when none of them has a name every object inherits: such a name
   * counts as already defined, so the component, and what only it refers to,
   * is left out.
   */
  lemma PromiseHoldsExactly(doc: Components, roots: set<string>, inherited: set<string>, r: Outcome)
    requires Produced(doc, roots, inherited, r) && AllPresent(doc, roots)
    ensures r.Ok?
    ensures AsPromised(doc, roots, r) <==> forall n :: Reachable(doc, roots, n) ==> n !in inherited
  {
    forall n ensures ReachableVia(doc, roots, inherited, n) ==> Reachable(doc, roots, n) {
      OwnIsReachable(doc, roots, inherited, n);
    }
    if forall n :: Reachable(doc, roots, n) ==> n !in inherited {
      forall n | Reachable(doc, roots, n) ensures ReachableVia(doc, roots, inherited, n) {
        var chain :| IsChain(doc, roots, {}, chain) && chain[|chain| - 1] == n;
        OwnChain(doc, roots, inherited, chain);
      }
    }
  }

  /**
   * When a reachable component is missing, the worklist fails, as it should,
   * exactly when a missing name that is not inherited can be reached past
   * names that are not: behind an inherited name its absence goes unnoticed.
   */
  lemma MissingIsNoticedExactly(doc: Components, roots: set<string>, inherited: set<string>, r: Outcome)
    requires Produced(doc, roots, inherited, r) && !AllPresent(doc, roots)
    ensures AsPromised(doc, roots, r) <==> r.Err?
    ensures r.Err? <==> exists n :: ReachableVia(doc, roots, inherited, n) && n !in inherited && n !in doc
  {
  }

  /** The exception is real: a component named `toString` that is referred to is left out. */
  lemma InheritedNameExample(r: Outcome)
    requires Produced(map["toString" := []], {"toString"}, INHERITED, r)
    ensures !AsPromised(map["toString" := []], {"toString"}, r)
  {
    var doc: Components, roots := map["toString" := []], {"toString"};
    RootsAreReachable(doc, roots, {}, "toString");
    forall n | Reachable(doc, roots, n) ensures n == "toString" {
      var chain :| IsChain(doc, roots, {}, chain) && chain[|chain| - 1] == n;
      ReachableIsLeast(doc, roots, {"toString"}, chain);
    }
    forall n ensures ReachableVia(doc, roots, INHERITED, n) ==> n == "toString" {
      OwnIsReachable(doc, roots, INHERITED, n);
    }
    assert "toString" in INHERITED;
    PromiseHoldsExactly(doc, roots, INHERITED, r);
  }

  /** And a reference to it in a document that has no such component is not noticed. */
  lemma MissingUnnoticedExample(r: Outcome)
    requires Produced(map[], {"toString"}, INHERITED, r)
    ensures r.Ok? && !AsPromised(map[], {"toString"}, r)
  {
    var doc: Components, roots := map[], {"toString"};
    RootsAreReachable(doc, roots, {}, "toString");
    forall n ensures ReachableVia(doc, roots, INHERITED, n) ==> n == "toString" {
      if chain :| IsChain(doc, roots, INHERITED, chain) && chain[|chain| - 1] == n {
        OwnIsReachable(doc, roots, INHERITED, n);
        var own :| IsChain(doc, roots, {}, own) && own[|own| - 1] == n;
        ReachableIsLeast(doc, roots, roots, own);
      }
    }
    assert "toString" in INHERITED;
  }
}
