/**
 * `source.toml`, which says where generated schemas come from
 * (host/src/crds.effect.ts): written as TOML in UTF-8 behind two comment
 * lines, and read back.
 */
module ProvenanceText {
  import opened Common
  import opened TomlGrammar
  import opened TomlDocument
  import opened TomlMeaning
  import opened WebUtf8
  import Oci
  import TrustFiles

  const CONVERTER := "1"

  function Text(key: string, s: string): Field {
    Field(key, Some(Plain(Str(s))))
  }

  function FieldsOf(p: Oci.Provenance): seq<Field> {
    [Text("dependency", p.dependency), Text("source", p.source), Text("version", p.version),
     Text("crds", p.crds), Text("digest", p.digest), Text("converter", CONVERTER)]
  }

  const FIRST_COMMENT :=
    " Generated by akuapkg from" + " the CustomResourceDefinitions" + " of a dependency. Do not edit:"
  const SECOND_COMMENT := " `akuapkg lock` regenerates" + " this directory."

  /** `provenanceToml`. */
  function Written(p: Oci.Provenance): string {
    "#" + (FIRST_COMMENT + ("\n" + ("#" + (SECOND_COMMENT + ("\n" + ("\n" + ToToml(TomlTable(FieldsOf(p)))))))))
  }

  function Write(p: Oci.Provenance): Bytes {
    Encode(Written(p))
  }

  function TextAt(m: map<string, Tree>, key: string): Option<string> {
    if key in m && m[key].Val? && m[key].v.Str? then Some(m[key].v.s) else None
  }

  /** The schema: six strings. */
  function Decode(m: map<string, Tree>): Option<Oci.Provenance> {
    var dependency, source, version := TextAt(m, "dependency"), TextAt(m, "source"), TextAt(m, "version");
    var crds, digest, converter := TextAt(m, "crds"), TextAt(m, "digest"), TextAt(m, "converter");
    if dependency.None? || source.None? || version.None? || crds.None? || digest.None? || converter.None? then None
    else Some(Oci.Provenance(dependency.value, source.value, version.value, crds.value, digest.value))
  }

  /** `readGeneratedCrds`, from the bytes of the file. */
  function Read(bytes: Bytes): Option<Oci.Provenance> {
    var m := ReadToml(Lossy(bytes));
    if m.None? then None else Decode(m.value)
  }

  // ---------------------------------------------------------------- round trip

  ghost predicate KeysDiffer(fields: seq<Field>) {
    forall i, j :: 0 <= i < j < |fields| ==> fields[i].key != fields[j].key
  }

  /** A table of strings, each under its own key. */
  ghost predicate AllText(fields: seq<Field>) {
    forall i :: 0 <= i < |fields| ==>
      fields[i].value.Some? && fields[i].value.value.Plain? && fields[i].value.value.v.Str?
  }

  lemma {:induction false} KeysAmong(fields: seq<Field>, key: string)
    requires forall i :: 0 <= i < |fields| ==> fields[i].key != key
    ensures key !in KeysOf(fields) && key !in Meaning(fields)
  {
    if fields != [] {
      KeysAmong(fields[1..], key);
    }
  }

  lemma {:induction false} TextIsDistinct(fields: seq<Field>)
    requires KeysDiffer(fields) && AllText(fields)
    ensures DistinctKeys(fields)
  {
    if fields != [] {
      TextIsDistinct(fields[1..]);
      KeysAmong(fields[1..], fields[0].key);
    }
  }

  lemma {:induction false} TextFound(fields: seq<Field>, i: nat)
    requires KeysDiffer(fields) && AllText(fields) && i < |fields|
    ensures TextAt(Meaning(fields), fields[i].key) == Some(fields[i].value.value.v.s)
  {
    if i > 0 {
      TextFound(fields[1..], i - 1);
    }
  }

  lemma FieldsDiffer(p: Oci.Provenance)
    ensures KeysDiffer(FieldsOf(p)) && AllText(FieldsOf(p))
  {
    var fields := FieldsOf(p);
    forall i, j | 0 <= i < j < |fields| ensures fields[i].key != fields[j].key {
      assert |fields[i].key| != |fields[j].key| || fields[i].key[0] != fields[j].key[0];
    }
  }

  lemma FieldsDecode(p: Oci.Provenance)
    ensures Decode(Meaning(FieldsOf(p))) == Some(p)
  {
    var fields := FieldsOf(p);
    FieldsDiffer(p);
    forall i | 0 <= i < |fields| ensures TextAt(Meaning(fields), fields[i].key) == Some(fields[i].value.value.v.s) {
      TextFound(fields, i);
    }
    SixTexts(Meaning(fields), p, fields);
  }

  lemma SixTexts(m: map<string, Tree>, p: Oci.Provenance, fields: seq<Field>)
    requires fields == FieldsOf(p)
    requires forall i :: 0 <= i < |fields| ==>
               fields[i].value.Some? && fields[i].value.value.Plain? && fields[i].value.value.v.Str?
               && TextAt(m, fields[i].key) == Some(fields[i].value.value.v.s)
    ensures Decode(m) == Some(p)
  {
    assert fields[0].key == "dependency" && fields[1].key == "source" && fields[2].key == "version";
    assert fields[3].key == "crds" && fields[4].key == "digest" && fields[5].key == "converter";
  }

  lemma CommentsHaveNoControls()
    ensures NoControls(FIRST_COMMENT) && NoControls(SECOND_COMMENT)
  {
    FirstHasNoControls();
    ControlsConcat(" `akuapkg lock` regenerates", " this directory.");
  }

  lemma FirstHasNoControls()
    ensures NoControls(FIRST_COMMENT)
  {
    ControlsConcat(" Generated by akuapkg from", " the CustomResourceDefinitions");
    ControlsConcat(" Generated by akuapkg from" + " the CustomResourceDefinitions", " of a dependency. Do not edit:");
  }

  lemma CommentsAreSkipped(body: string)
    ensures ReadLines("#" + (FIRST_COMMENT + ("\n" + ("#" + (SECOND_COMMENT + ("\n" + ("\n" + body)))))))
         == ReadLines(body)
  {
    CommentsHaveNoControls();
    CommentLine(FIRST_COMMENT, "#" + (SECOND_COMMENT + ("\n" + ("\n" + body))));
    CommentLine(SECOND_COMMENT, "\n" + body);
    BlankLine(body);
  }

  /** What is written says where the schemas come from, for every provenance. */
  lemma ProvenanceRoundTrip(p: Oci.Provenance)
    ensures Read(Write(p)) == Some(p)
  {
    var fields := FieldsOf(p);
    TextDecodes(Written(p));
    assert Written(p)[0] == '#';
    CommentsAreSkipped(ToToml(TomlTable(fields)));
    FieldsDiffer(p);
    TextIsDistinct(fields);
    TomlRoundTrip(TomlTable(fields));
    FieldsDecode(p);
  }

  /** So the law assumed of `source.toml` holds of the code that writes and reads it. */
  lemma LawHolds(w: Oci.World)
    requires forall p :: w.writeProvenance(p) == Write(p)
    requires forall bytes :: w.readProvenance(bytes) == Read(bytes)
    ensures TrustFiles.ProvenanceReads(w)
  {
    forall p ensures w.readProvenance(w.writeProvenance(p)) == Some(p) {
      ProvenanceRoundTrip(p);
    }
  }
}
