/**
 * `akua.lock` as text: `lockBody` writes a lock as TOML, `parseLock` decodes
 * what it reads (host/src/lockfile.ts).
 */
module LockText {
  import opened Common
  import opened Lockfile
  import opened TomlGrammar
  import opened TomlDocument
  import opened TomlMeaning

  // ---------------------------------------------------------------- keys

  datatype Key =
    | Name | Version | Source | Digest | VendorDigest | Signature | Dependencies | Attestation
    | Replaced | Yanked | KyvernoSourceDigest | ConverterVersion | CrdsDigest

  function Spell(k: Key): string {
    match k
    case Name => "name"
    case Version => "version"
    case Source => "source"
    case Digest => "digest"
    case VendorDigest => "vendor_digest"
    case Signature => "signature"
    case Dependencies => "dependencies"
    case Attestation => "attestation"
    case Replaced => "replaced"
    case Yanked => "yanked"
    case KyvernoSourceDigest => "kyverno_source_digest"
    case ConverterVersion => "converter_version"
    case CrdsDigest => "crds_digest"
  }

  /** The keys in the order an entry is written. */
  const ORDER: seq<Key> := [
    Name, Version, Source, Digest, VendorDigest, Signature, Dependencies, Attestation,
    Replaced, Yanked, KyvernoSourceDigest, ConverterVersion, CrdsDigest]

  function Position(k: Key): nat {
    match k
    case Name => 0
    case Version => 1
    case Source => 2
    case Digest => 3
    case VendorDigest => 4
    case Signature => 5
    case Dependencies => 6
    case Attestation => 7
    case Replaced => 8
    case Yanked => 9
    case KyvernoSourceDigest => 10
    case ConverterVersion => 11
    case CrdsDigest => 12
  }

  lemma OrderIsComplete()
    ensures Complete(ORDER) && NoRepeats(ORDER)
  {
    forall k: Key ensures k in ORDER {
      assert ORDER[Position(k)] == k;
    }
    assert forall i :: 0 <= i < |ORDER| ==> Position(ORDER[i]) == i;
  }

  ghost predicate Complete(keys: seq<Key>) {
    forall k: Key :: k in keys
  }

  ghost predicate NoRepeats(keys: seq<Key>) {
    forall i, j :: 0 <= i < j < |keys| ==> keys[i] != keys[j]
  }

  /** Length and first character tell the keys apart. */
  lemma SpellingsDiffer(a: Key, b: Key)
    requires a != b
    ensures Spell(a) != Spell(b)
  {
    assert |Spell(a)| != |Spell(b)| || Spell(a)[0] != Spell(b)[0];
  }

  // ---------------------------------------------------------------- writing

  function Text(s: string): Option<TomlDocument.Source> {
    Some(Plain(Str(s)))
  }

  function OptionalText(s: Option<string>): Option<TomlDocument.Source> {
    if s.None? then None else Text(s.value)
  }

  /** What an entry has under a key; empty `dependencies` are left out. */
  function ValueFor(e: Entry, k: Key): Option<TomlDocument.Source> {
    match k
    case Name => Text(e.name)
    case Version => Text(e.version)
    case Source => Text(e.source)
    case Digest => Text(e.digest)
    case VendorDigest => OptionalText(e.vendorDigest)
    case Signature => OptionalText(e.signature)
    case Dependencies =>
      if e.dependencies.None? || e.dependencies.value == [] then None else Some(Plain(Arr(e.dependencies.value)))
    case Attestation => OptionalText(e.attestation)
    case Replaced => if e.replaced.None? then None else Some(Nested(TomlTable([Field("path", Text(e.replaced.value))])))
    case Yanked => if e.yanked.None? then None else Some(Plain(Bool(e.yanked.value)))
    case KyvernoSourceDigest => OptionalText(e.kyvernoSourceDigest)
    case ConverterVersion => OptionalText(e.converterVersion)
    case CrdsDigest => OptionalText(e.crdsDigest)
  }

  function FieldsFor(e: Entry, keys: seq<Key>): seq<Field> {
    if keys == [] then [] else [Field(Spell(keys[0]), ValueFor(e, keys[0]))] + FieldsFor(e, keys[1..])
  }

  function EntryTables(packages: seq<Entry>, keys: seq<Key>): (r: seq<TomlTable>)
    ensures |r| == |packages|
    ensures forall i :: 0 <= i < |r| ==> r[i] == TomlTable(FieldsFor(packages[i], keys))
  {
    seq(|packages|, i requires 0 <= i < |packages| => TomlTable(FieldsFor(packages[i], keys)))
  }

  function LockTable(lock: Lock, keys: seq<Key>): TomlTable {
    TomlTable([
      Field("version", Some(Plain(Num(lock.version)))),
      Field("package", Some(List(EntryTables(Sort(lock.packages), keys))))])
  }

  /** `lockBody`. */
  function LockBody(lock: Lock): string {
    ToToml(LockTable(lock, ORDER))
  }

  /** `lockHeader`: two comment lines that name the verbs as `cli` spells them, and an empty one. */
  function LockHeader(cli: string): string {
    "#" + (FIRST_COMMENT + ("\n" + ("#" + (Verbs(cli) + ("\n" + "\n")))))
  }

  const FIRST_COMMENT := " akua.lock - " + "machine-maintained." + " Never hand-edit."

  function Verbs(cli: string): string {
    " Regenerated by `" + cli + " add`, `" + cli + " pull`, `" + cli + " publish`, `" + cli + " update`."
  }

  /** `formatLock`: the text on disk. */
  function FormatLock(lock: Lock, cli: string): string {
    LockHeader(cli) + LockBody(lock)
  }

  // ---------------------------------------------------------------- decoding

  /** What a table holds under each key. */
  type Lookup = Key -> Option<Tree>

  function Get(m: map<string, Tree>): (get: Lookup)
    ensures forall k :: get(k) == if Spell(k) in m then Some(m[Spell(k)]) else None
  {
    (k: Key) => if Spell(k) in m then Some(m[Spell(k)]) else None
  }

  predicate IsText(t: Option<Tree>) {
    t.Some? && t.value.Val? && t.value.v.Str?
  }

  predicate IsOptionalText(t: Option<Tree>) {
    t.None? || IsText(t)
  }

  function TextOf(t: Option<Tree>): Option<string>
    requires IsOptionalText(t)
  {
    if t.None? then None else Some(t.value.v.s)
  }

  predicate IsReplaced(t: Option<Tree>) {
    t.Some? ==> t.value.Tab? && "path" in t.value.m && IsText(Some(t.value.m["path"]))
  }

  function ReplacedOf(t: Option<Tree>): Option<string>
    requires IsReplaced(t)
  {
    if t.None? then None else TextOf(Some(t.value.m["path"]))
  }

  /** The schema an entry must have; other keys are ignored. */
  predicate IsEntry(get: Lookup) {
    && IsText(get(Name)) && IsText(get(Version)) && IsText(get(Source)) && IsText(get(Digest))
    && IsOptionalText(get(VendorDigest)) && IsOptionalText(get(Signature)) && IsOptionalText(get(Attestation))
    && IsOptionalText(get(KyvernoSourceDigest)) && IsOptionalText(get(ConverterVersion))
    && IsOptionalText(get(CrdsDigest))
    && (get(Dependencies).Some? ==> get(Dependencies).value.Val? && get(Dependencies).value.v.Arr?)
    && (get(Yanked).Some? ==> get(Yanked).value.Val? && get(Yanked).value.v.Bool?)
    && IsReplaced(get(Replaced))
  }

  function DecodeFrom(get: Lookup): Option<Entry> {
    if !IsEntry(get) then None
    else
      var dependencies, yanked := get(Dependencies), get(Yanked);
      Some(Entry(
        TextOf(get(Name)).value, TextOf(get(Version)).value, TextOf(get(Source)).value, TextOf(get(Digest)).value,
        TextOf(get(VendorDigest)), TextOf(get(Signature)),
        if dependencies.None? then None else Some(dependencies.value.v.items),
        TextOf(get(Attestation)),
        ReplacedOf(get(Replaced)),
        if yanked.None? then None else Some(yanked.value.v.b),
        TextOf(get(KyvernoSourceDigest)), TextOf(get(ConverterVersion)), TextOf(get(CrdsDigest))))
  }

  function DecodeEntry(m: map<string, Tree>): Option<Entry> {
    DecodeFrom(Get(m))
  }

  function DecodeEntries(elements: seq<map<string, Tree>>): Option<seq<Entry>> {
    if elements == [] then Some([])
    else
      var first, rest := DecodeEntry(elements[0]), DecodeEntries(elements[1..]);
      if first.None? || rest.None? then None else Some([first.value] + rest.value)
  }

  function DecodePackages(t: Tree): Option<seq<Entry>> {
    match t
    case Tabs(elements) => DecodeEntries(elements)
    case Val(v) => if v == Arr([]) then Some([]) else None
    case Tab(_) => None
  }

  /** `decodeLock` of the parsed text. */
  function ReadLock(text: string): Option<Lock> {
    var m := ReadToml(text);
    if m.None? || "version" !in m.value || !m.value["version"].Val? || !m.value["version"].v.Num? then None
    else
      var packages := if "package" in m.value then DecodePackages(m.value["package"]) else Some([]);
      if packages.None? then None else Some(Lock(m.value["version"].v.n, packages.value))
  }

  // ---------------------------------------------------------------- round trip

  /** An entry as it comes back: an empty list of dependencies counts as none. */
  function Normal(e: Entry): Entry {
    if e.dependencies == Some([]) then e.(dependencies := None) else e
  }

  function NormalAll(packages: seq<Entry>): (r: seq<Entry>)
    ensures |r| == |packages|
    ensures forall i :: 0 <= i < |r| ==> r[i] == Normal(packages[i])
  {
    if packages == [] then [] else [Normal(packages[0])] + NormalAll(packages[1..])
  }

  function MeaningFor(e: Entry, k: Key): Option<Tree> {
    var v := ValueFor(e, k);
    if v.None? then None else Some(SourceMeaning(v.value))
  }

  /** Looking a key up in the tree an entry is written as. */
  lemma {:induction false} EntryLookup(e: Entry, keys: seq<Key>, k: Key)
    ensures Get(Meaning(FieldsFor(e, keys)))(k) == if k in keys then MeaningFor(e, k) else None
    decreases |keys|
  {
    if keys != [] {
      EntryLookup(e, keys[1..], k);
      if k != keys[0] {
        SpellingsDiffer(k, keys[0]);
      }
      LookupStep(Field(Spell(keys[0]), ValueFor(e, keys[0])), FieldsFor(e, keys[1..]), Spell(k));
    }
  }

  lemma LookupStep(f: Field, rest: seq<Field>, key: string)
    ensures var m := Meaning([f] + rest);
            if f.value.Some? && key == f.key then key in m && m[key] == SourceMeaning(f.value.value)
            else (key in m <==> key in Meaning(rest)) && (key in m ==> m[key] == Meaning(rest)[key])
  {
    assert ([f] + rest)[1..] == rest;
  }

  lemma {:induction false} EntryKeys(e: Entry, keys: seq<Key>, k: Key)
    requires k !in keys
    ensures Spell(k) !in KeysOf(FieldsFor(e, keys))
    decreases |keys|
  {
    if keys != [] {
      EntryKeys(e, keys[1..], k);
      assert FieldsFor(e, keys)[1..] == FieldsFor(e, keys[1..]);
      SpellingsDiffer(k, keys[0]);
    }
  }

  lemma {:induction false} EntryIsDistinct(e: Entry, keys: seq<Key>)
    requires NoRepeats(keys)
    ensures DistinctKeys(FieldsFor(e, keys))
    decreases |keys|
  {
    if keys != [] {
      EntryIsDistinct(e, keys[1..]);
      EntryKeys(e, keys[1..], keys[0]);
      assert FieldsFor(e, keys)[1..] == FieldsFor(e, keys[1..]);
      ValueIsDistinct(e, keys[0]);
    }
  }

  lemma ValueIsDistinct(e: Entry, k: Key)
    ensures ValueFor(e, k).Some? ==> DistinctIn(ValueFor(e, k).value)
  {
    if k == Replaced && e.replaced.Some? {
      OneField("path", Plain(Str(e.replaced.value)));
    }
  }

  lemma OneField(key: string, s: TomlDocument.Source)
    requires DistinctIn(s)
    ensures DistinctKeys([Field(key, Some(s))]) && KeysOf([Field(key, Some(s))]) == {key}
    ensures Meaning([Field(key, Some(s))]) == map[key := SourceMeaning(s)]
  {
    assert [Field(key, Some(s))][1..] == [];
    assert KeysOf([]) == {} && DistinctKeys([]) && Meaning([]) == map[];
  }

  lemma TwoFields(a: string, s: TomlDocument.Source, b: string, t: TomlDocument.Source)
    requires a != b && DistinctIn(s) && DistinctIn(t)
    ensures var fields := [Field(a, Some(s)), Field(b, Some(t))];
            DistinctKeys(fields) && Meaning(fields) == map[b := SourceMeaning(t), a := SourceMeaning(s)]
  {
    OneField(b, t);
    assert [Field(a, Some(s)), Field(b, Some(t))][1..] == [Field(b, Some(t))];
  }

  /** A written entry decodes to itself. */
  lemma EntryDecodes(e: Entry, keys: seq<Key>)
    requires Complete(keys)
    ensures DecodeEntry(Meaning(FieldsFor(e, keys))) == Some(Normal(e))
  {
    var get := Get(Meaning(FieldsFor(e, keys)));
    forall k: Key ensures get(k) == MeaningFor(e, k) {
      EntryLookup(e, keys, k);
    }
    LookupsDecode(e, get);
  }

  lemma LookupsDecode(e: Entry, get: Lookup)
    requires forall k: Key :: get(k) == MeaningFor(e, k)
    ensures DecodeFrom(get) == Some(Normal(e))
  {
    RequiredDecode(e, get);
    OptionalDecode(e, get);
    StructuredDecode(e, get);
    FoundDecode(e, get);
  }

  ghost predicate RequiredFound(e: Entry, get: Lookup) {
    && get(Name) == Some(Val(Str(e.name))) && get(Version) == Some(Val(Str(e.version)))
    && get(Source) == Some(Val(Str(e.source))) && get(Digest) == Some(Val(Str(e.digest)))
  }

  ghost predicate OptionalFound(e: Entry, get: Lookup) {
    && get(VendorDigest) == Found(e.vendorDigest) && get(Signature) == Found(e.signature)
    && get(Attestation) == Found(e.attestation) && get(KyvernoSourceDigest) == Found(e.kyvernoSourceDigest)
    && get(ConverterVersion) == Found(e.converterVersion) && get(CrdsDigest) == Found(e.crdsDigest)
  }

  ghost predicate StructuredFound(e: Entry, get: Lookup) {
    && IsReplaced(get(Replaced)) && ReplacedOf(get(Replaced)) == e.replaced
    && get(Yanked) == (if e.yanked.None? then None else Some(Val(Bool(e.yanked.value))))
    && var dependencies := Normal(e).dependencies;
       get(Dependencies) == if dependencies.None? then None else Some(Val(Arr(dependencies.value)))
  }

  lemma FoundDecode(e: Entry, get: Lookup)
    requires RequiredFound(e, get) && OptionalFound(e, get) && StructuredFound(e, get)
    ensures DecodeFrom(get) == Some(Normal(e))
  {
  }

  lemma RequiredDecode(e: Entry, get: Lookup)
    requires forall k: Key :: get(k) == MeaningFor(e, k)
    ensures RequiredFound(e, get)
  {
  }

  /** A string that may be missing, as a lookup gives it. */
  function Found(s: Option<string>): Option<Tree> {
    if s.None? then None else Some(Val(Str(s.value)))
  }

  lemma OptionalDecode(e: Entry, get: Lookup)
    requires forall k: Key :: get(k) == MeaningFor(e, k)
    ensures OptionalFound(e, get)
  {
  }

  lemma StructuredDecode(e: Entry, get: Lookup)
    requires forall k: Key :: get(k) == MeaningFor(e, k)
    ensures StructuredFound(e, get)
  {
    if e.replaced.Some? {
      OneField("path", Plain(Str(e.replaced.value)));
    }
  }

  lemma {:induction false} EntriesDecode(packages: seq<Entry>, keys: seq<Key>)
    requires Complete(keys)
    ensures DecodeEntries(TablesMeaning(EntryTables(packages, keys))) == Some(NormalAll(packages))
    decreases |packages|
  {
    if packages != [] {
      EntryDecodes(packages[0], keys);
      assert EntryTables(packages, keys)[1..] == EntryTables(packages[1..], keys);
      EntriesDecode(packages[1..], keys);
    }
  }

  lemma TablesAreDistinct(packages: seq<Entry>, keys: seq<Key>)
    requires NoRepeats(keys)
    ensures DistinctIn(List(EntryTables(packages, keys)))
  {
    var tables := EntryTables(packages, keys);
    forall t | t in tables ensures DistinctKeys(t.fields) {
      var i :| 0 <= i < |tables| && tables[i] == t;
      EntryIsDistinct(packages[i], keys);
    }
  }

  lemma TopKeysDiffer()
    ensures "version" != "package"
  {
    assert "version"[0] != "package"[0];
  }

  lemma PackagesDecode(packages: seq<Entry>, keys: seq<Key>)
    requires Complete(keys)
    ensures DecodePackages(SourceMeaning(List(EntryTables(packages, keys)))) == Some(NormalAll(packages))
  {
    EntriesDecode(packages, keys);
  }

  /** For every lock: what `lockBody` writes reads back as the same version and the same entries, sorted. */
  lemma LockRoundTrip(lock: Lock)
    ensures ReadLock(LockBody(lock)) == Some(Lock(lock.version, NormalAll(Sort(lock.packages))))
  {
    OrderIsComplete();
    TableReadsBack(lock, ORDER);
  }

  lemma TableReadsBack(lock: Lock, keys: seq<Key>)
    requires Complete(keys) && NoRepeats(keys)
    ensures ReadLock(ToToml(LockTable(lock, keys))) == Some(Lock(lock.version, NormalAll(Sort(lock.packages))))
  {
    var packages := Sort(lock.packages);
    TopKeysDiffer();
    TablesAreDistinct(packages, keys);
    TwoFields("version", Plain(Num(lock.version)), "package", List(EntryTables(packages, keys)));
    TomlRoundTrip(LockTable(lock, keys));
    PackagesDecode(packages, keys);
  }

  // ---------------------------------------------------------------- the header

  lemma CommentHasNoControls()
    ensures NoControls(FIRST_COMMENT)
  {
    ControlsConcat(" akua.lock - ", "machine-maintained.");
    ControlsConcat(" akua.lock - " + "machine-maintained.", " Never hand-edit.");
  }

  lemma VerbsHaveNoControls(cli: string)
    requires NoControls(cli)
    ensures NoControls(Verbs(cli))
  {
    ControlsConcat(" Regenerated by `", cli);
    ControlsConcat(" Regenerated by `" + cli, " add`, `");
    ControlsConcat(" Regenerated by `" + cli + " add`, `", cli);
    ControlsConcat(" Regenerated by `" + cli + " add`, `" + cli, " pull`, `");
    ControlsConcat(" Regenerated by `" + cli + " add`, `" + cli + " pull`, `", cli);
    ControlsConcat(" Regenerated by `" + cli + " add`, `" + cli + " pull`, `" + cli, " publish`, `");
    ControlsConcat(" Regenerated by `" + cli + " add`, `" + cli + " pull`, `" + cli + " publish`, `", cli);
    var verbs := " Regenerated by `" + cli + " add`, `" + cli + " pull`, `" + cli + " publish`, `" + cli;
    ControlsConcat(verbs, " update`.");
  }

  /** The header is read as comments, when the name in it has no control characters. */
  lemma HeaderIsSkipped(cli: string, body: string)
    requires NoControls(cli)
    ensures ReadLines(LockHeader(cli) + body) == ReadLines(body)
  {
    CommentHasNoControls();
    VerbsHaveNoControls(cli);
    HeaderRegroups(FIRST_COMMENT, Verbs(cli), body);
    CommentLine(FIRST_COMMENT, "#" + (Verbs(cli) + ("\n" + ("\n" + body))));
    CommentLine(Verbs(cli), "\n" + body);
    BlankLine(body);
  }

  lemma HeaderRegroups(a: string, b: string, body: string)
    ensures "#" + (a + ("\n" + ("#" + (b + ("\n" + "\n"))))) + body
         == "#" + (a + ("\n" + ("#" + (b + ("\n" + ("\n" + body))))))
  {
  }

  /** For every lock: the text on disk reads back as the same version and the same entries, sorted. */
  lemma FormatRoundTrip(lock: Lock, cli: string)
    requires NoControls(cli)
    ensures ReadLock(FormatLock(lock, cli)) == Some(Lock(lock.version, NormalAll(Sort(lock.packages))))
  {
    HeaderIsSkipped(cli, LockBody(lock));
    SameLines(FormatLock(lock, cli), LockBody(lock));
    LockRoundTrip(lock);
  }

  lemma SameLines(a: string, b: string)
    requires ReadLines(a) == ReadLines(b)
    ensures ReadToml(a) == ReadToml(b) && ReadLock(a) == ReadLock(b)
  {
  }

  // ---------------------------------------------------------------- the next command's lock

  lemma MergeIsSorted(lock: Lock, updates: seq<Update>)
    ensures Sort(Merge(lock, updates).packages) == Merge(lock, updates).packages
  {
    var written := UpsertAll(Keep(lock.packages, updates), updates);
    SortSorts(written);
    SortedStays(Sort(written));
  }

  /**
   * A merged lock, written and read again, holds the merged entries; and the
   * next command takes it over, instead of starting from an empty lock,
   * exactly when the entries the merge kept repeat no key.
   */
  lemma MergedLockReadsBack(lock: Lock, updates: seq<Update>, cli: string)
    requires Accepted(lock) && UniqueNames(updates) && GoodDigests(updates) && NoControls(cli)
    ensures var merged := Merge(lock, updates);
            var again := ReadLock(FormatLock(merged, cli));
            && again == Some(Lock(merged.version, NormalAll(merged.packages)))
            && (Accepted(again.value) <==> UniqueKeys(Keep(lock.packages, updates)))
  {
    var merged := Merge(lock, updates);
    FormatRoundTrip(merged, cli);
    MergeIsSorted(lock, updates);
    MergeIsAcceptedExactly(lock, updates);
    NormalIsAccepted(merged);
  }

  lemma NormalIsAccepted(lock: Lock)
    ensures Accepted(Lock(lock.version, NormalAll(lock.packages))) <==> Accepted(lock)
  {
    var back := NormalAll(lock.packages);
    forall i | 0 <= i < |back| ensures EntryProblem(back, i) == EntryProblem(lock.packages, i) {
      SameProblem(back, lock.packages, i);
    }
  }
}
