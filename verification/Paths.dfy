/** `entryPath` (host/src/archive.ts): which archive names are accepted, and as what. */
module Paths {
  import opened Common

  /** `s.split("/")`. */
  function Split(s: string): (parts: seq<string>)
    ensures parts != []
  {
    if s == [] then [""]
    else
      var n, c := |s| - 1, s[|s| - 1];
      var parts := Split(s[..n]);
      if c == '/' then parts + [""] else parts[..|parts| - 1] + [parts[|parts| - 1] + [c]]
  }

  /** `parts.join("/")`. */
  function Join(parts: seq<string>): string {
    if parts == [] then ""
    else if |parts| == 1 then parts[0]
    else Join(parts[..|parts| - 1]) + "/" + parts[|parts| - 1]
  }

  /** `raw.replaceAll("\\", "/")`. */
  function Slashes(raw: string): (s: string)
    ensures |s| == |raw|
    ensures forall i :: 0 <= i < |raw| ==> s[i] == if raw[i] == '\\' then '/' else raw[i]
  {
    seq(|raw|, i requires 0 <= i < |raw| => if raw[i] == '\\' then '/' else raw[i])
  }

  function Named(parts: seq<string>): seq<string> {
    if parts == [] then []
    else (if Skipped(parts[0]) then [] else [parts[0]]) + Named(parts[1..])
  }

  predicate Skipped(part: string) {
    part == "" || part == "."
  }

  function EntryPath(raw: string): Option<string> {
    var parts := Named(Split(Slashes(raw)));
    if StartsWith(raw, "/") || ".." in parts || parts == [] then None else Some(Join(parts))
  }

  predicate GoodPart(part: string) {
    !Skipped(part) && part != ".." && '/' !in part
  }

  /** A relative path that names something below the archive root and is spelled one way only. */
  predicate Normal(path: string) {
    '\\' !in path && forall part | part in Split(path) :: GoodPart(part)
  }

  lemma {:induction false} SplitHasNoSlash(s: string)
    ensures forall part :: part in Split(s) ==> '/' !in part
  {
    if s != [] {
      SplitHasNoSlash(s[..|s| - 1]);
      var parts := Split(s[..|s| - 1]);
      assert parts[|parts| - 1] in parts;
    }
  }

  lemma JoinSnoc(parts: seq<string>, part: string)
    requires parts != []
    ensures Join(parts + [part]) == Join(parts) + "/" + part
  {
    assert (parts + [part])[..|parts|] == parts;
  }

  lemma JoinLast(parts: seq<string>, c: char)
    requires parts != []
    ensures Join(parts[..|parts| - 1] + [parts[|parts| - 1] + [c]]) == Join(parts) + [c]
  {
    var init, last := parts[..|parts| - 1], parts[|parts| - 1];
    assert parts == init + [last];
    JoinLonger(init, last, c);
  }

  lemma JoinLonger(init: seq<string>, last: string, c: char)
    ensures Join(init + [last + [c]]) == Join(init + [last]) + [c]
  {
    if init == [] {
      assert init + [last + [c]] == [last + [c]] && init + [last] == [last];
    } else {
      JoinSnoc(init, last + [c]);
      JoinSnoc(init, last);
      var head := Join(init) + "/";
      assert head + (last + [c]) == head + last + [c];
    }
  }

  lemma {:induction false} JoinSplit(s: string)
    ensures Join(Split(s)) == s
  {
    if s != [] {
      var n := |s| - 1;
      JoinSplit(s[..n]);
      var parts := Split(s[..n]);
      if s[n] == '/' {
        JoinSnoc(parts, "");
      } else {
        JoinLast(parts, s[n]);
      }
      assert s == s[..n] + [s[n]];
    }
  }

  lemma {:induction false} SplitPart(s: string, part: string)
    requires '/' !in part
    ensures Split(s + part) == Split(s)[..|Split(s)| - 1] + [Split(s)[|Split(s)| - 1] + part]
  {
    var parts := Split(s);
    if part == [] {
      assert s + part == s;
      assert parts[|parts| - 1] + part == parts[|parts| - 1];
    } else {
      var n := |part| - 1;
      SplitPart(s, part[..n]);
      var whole := s + part;
      assert whole[..|whole| - 1] == s + part[..n] && whole[|whole| - 1] == part[n];
      assert part[n] in part;
      assert parts[|parts| - 1] + part[..n] + [part[n]] == parts[|parts| - 1] + part;
    }
  }

  lemma {:induction false} SplitJoin(parts: seq<string>)
    requires parts != [] && forall part :: part in parts ==> '/' !in part
    ensures Split(Join(parts)) == parts
  {
    var n := |parts| - 1;
    assert parts[n] in parts;
    if n == 0 {
      SplitPart("", parts[0]);
      assert "" + parts[0] == parts[0];
    } else {
      SplitJoin(parts[..n]);
      SplitAfterSlash(Join(parts[..n]), parts[n]);
      assert parts == parts[..n] + [parts[n]];
    }
  }

  lemma SplitAfterSlash(s: string, part: string)
    requires '/' !in part
    ensures Split(s + "/" + part) == Split(s) + [part]
  {
    var dir := s + "/";
    assert dir[..|dir| - 1] == s && dir[|dir| - 1] == '/';
    SplitPart(dir, part);
    assert "" + part == part;
  }

  lemma {:induction false} NamedKeepsGood(parts: seq<string>)
    requires forall part :: part in parts ==> !Skipped(part)
    ensures Named(parts) == parts
  {
    if parts != [] {
      assert parts[0] in parts;
      NamedKeepsGood(parts[1..]);
    }
  }

  lemma {:induction false} NamedMembers(parts: seq<string>)
    ensures forall part :: part in Named(parts) <==> part in parts && !Skipped(part)
  {
    if parts != [] {
      NamedMembers(parts[1..]);
      assert parts == [parts[0]] + parts[1..];
    }
  }

  /** A normal path is accepted as it is. */
  lemma NormalIsKept(path: string)
    requires Normal(path)
    ensures EntryPath(path) == Some(path)
  {
    assert Slashes(path) == path;
    NamedKeepsGood(Split(path));
    JoinSplit(path);
    NoLeadingSlash(path);
  }

  lemma NoLeadingSlash(path: string)
    requires Normal(path)
    ensures !StartsWith(path, "/")
  {
    var parts := Split(path);
    assert GoodPart(parts[0]);
    FirstPartEmpty(path);
    assert path != [] ==> path[..1] == [path[0]];
  }

  lemma {:induction false} FirstPartEmpty(path: string)
    ensures path != [] && path[0] == '/' ==> Split(path)[0] == "" && |Split(path)| > 1
  {
    if |path| > 1 {
      FirstPartEmpty(path[..|path| - 1]);
    } else if |path| == 1 {
      assert path[..0] == [];
    }
  }

  /**
   * Whatever an archive says, an accepted name is normal: relative, without
   * `..`, `.`, empty parts or backslashes. With `NormalIsKept`, the accepted
   * spellings that stay as they are are exactly the normal paths.
   */
  lemma AcceptedIsNormal(raw: string)
    ensures EntryPath(raw).Some? ==> Normal(EntryPath(raw).value)
  {
    var s := Slashes(raw);
    var parts := Named(Split(s));
    SplitHasNoSlash(s);
    NamedMembers(Split(s));
    if EntryPath(raw).Some? {
      SplitJoin(parts);
      assert '\\' !in s;
      JoinSplit(s);
      forall part | part in parts ensures '\\' !in part {
        PartsAreInside(s, part);
      }
      JoinCharacters(parts, '\\');
    }
  }

  lemma {:induction false} PartsAreInside(s: string, part: string)
    requires part in Split(s) && '\\' !in s
    ensures '\\' !in part
  {
    if s != [] {
      var parts := Split(s[..|s| - 1]);
      var last := parts[|parts| - 1];
      PartsAreInside(s[..|s| - 1], last);
      if part in parts {
        PartsAreInside(s[..|s| - 1], part);
      }
    }
  }

  lemma {:induction false} JoinCharacters(parts: seq<string>, c: char)
    requires c != '/' && forall part :: part in parts ==> c !in part
    ensures c !in Join(parts)
  {
    if |parts| > 1 {
      JoinCharacters(parts[..|parts| - 1], c);
      assert parts[|parts| - 1] in parts;
    } else if |parts| == 1 {
      assert parts[0] in parts;
    }
  }

  /** A newline at the end of a normal path makes another normal path. */
  lemma NormalWithNewline(path: string)
    requires Normal(path)
    ensures Normal(path + "\n")
  {
    SplitPart(path, "\n");
    var parts := Split(path);
    var n := |parts| - 1;
    var longer := Split(path + "\n");
    assert longer == parts[..n] + [parts[n] + "\n"];
    forall part | part in longer ensures GoodPart(part) {
      if part in parts[..n] {
        assert part in parts;
      } else {
        assert parts[n] in parts;
        NewlinePart(parts[n]);
      }
    }
  }

  lemma NewlinePart(part: string)
    requires GoodPart(part)
    ensures GoodPart(part + "\n")
  {
    var longer := part + "\n";
    assert longer[|part|] == '\n';
  }

  lemma {:induction false} NamedIsShorter(parts: seq<string>)
    ensures |Join(Named(parts))| <= |Join(parts)|
  {
    if parts != [] {
      NamedIsShorter(parts[1..]);
      JoinFromFront(parts[0], parts[1..]);
      JoinFromFront(parts[0], Named(parts[1..]));
      assert parts == [parts[0]] + parts[1..];
      assert [] + Named(parts[1..]) == Named(parts[1..]);
    }
  }

  lemma {:induction false} JoinFromFront(part: string, rest: seq<string>)
    ensures |Join([part] + rest)| == |part| + if rest == [] then 0 else 1 + |Join(rest)|
  {
    if |rest| > 0 {
      var n := |rest| - 1;
      JoinFromFront(part, rest[..n]);
      assert ([part] + rest)[..n + 1] == [part] + rest[..n];
    } else {
      assert [part] + rest == [part];
    }
  }

  /** What an entry is called is never longer than what the archive calls it. */
  lemma EntryPathIsShorter(raw: string)
    ensures EntryPath(raw).Some? ==> |EntryPath(raw).value| <= |raw|
  {
    NamedIsShorter(Split(Slashes(raw)));
    JoinSplit(Slashes(raw));
  }

  // ---------------------------------------------------------------- every name

  /** The positions of the parts that say something. */
  ghost predicate AreNamed(parts: seq<string>, kept: seq<nat>) {
    && (forall a, b :: 0 <= a < b < |kept| ==> kept[a] < kept[b])
    && (forall k: nat :: k in kept <==> k < |parts| && parts[k] != "" && parts[k] != ".")
  }

  /** `names` are those parts, in order. */
  ghost predicate NamesOf(parts: seq<string>, kept: seq<nat>, names: seq<string>) {
    && AreNamed(parts, kept) && |names| == |kept|
    && forall i :: 0 <= i < |kept| ==> kept[i] < |parts| && names[i] == parts[kept[i]]
  }

  lemma {:induction false} NamedSnoc(parts: seq<string>, part: string)
    ensures Named(parts + [part]) == Named(parts) + (if Skipped(part) then [] else [part])
  {
    if parts == [] {
      assert parts + [part] == [part];
    } else {
      assert (parts + [part])[1..] == parts[1..] + [part];
      NamedSnoc(parts[1..], part);
    }
  }

  lemma SkippedSnoc(parts: seq<string>, kept: seq<nat>, names: seq<string>, part: string)
    requires NamesOf(parts, kept, names) && Skipped(part)
    ensures NamesOf(parts + [part], kept, names)
  {
    var longer := parts + [part];
    forall k: nat ensures k in kept <==> k < |longer| && longer[k] != "" && longer[k] != "." {
      assert k < |parts| ==> longer[k] == parts[k];
    }
  }

  lemma NamedPartSnoc(parts: seq<string>, kept: seq<nat>, names: seq<string>, part: string)
    requires NamesOf(parts, kept, names) && !Skipped(part)
    ensures NamesOf(parts + [part], kept + [|parts|], names + [part])
  {
    var longer, more: seq<nat>, all := parts + [part], kept + [|parts|], names + [part];
    forall k: nat ensures k in more <==> k < |longer| && longer[k] != "" && longer[k] != "." {
      assert k in more <==> k in kept || k == |parts|;
      assert k < |parts| ==> longer[k] == parts[k];
    }
    forall i | 0 <= i < |more| ensures more[i] < |longer| && all[i] == longer[more[i]] {
      assert i < |kept| ==> kept[i] < |parts|;
    }
    forall a, b | 0 <= a < b < |more| ensures more[a] < more[b] {
      assert kept[a] < |parts|;
    }
  }

  lemma {:induction false} NamedAt(parts: seq<string>) returns (kept: seq<nat>)
    ensures NamesOf(parts, kept, Named(parts))
  {
    if parts == [] {
      kept := [];
    } else {
      var init, part := parts[..|parts| - 1], parts[|parts| - 1];
      kept := NamedAt(init);
      NamedSnoc(init, part);
      assert parts == init + [part];
      if Skipped(part) {
        SkippedSnoc(init, kept, Named(init), part);
        assert Named(init) + [] == Named(init);
      } else {
        NamedPartSnoc(init, kept, Named(init), part);
        kept := kept + [|init|];
      }
    }
  }

  /**
   * Every name of an archive, whatever it looks like: backslashes count as
   * slashes; it is refused exactly when it starts with a slash, has a part
   * `..`, or has no part that says something; otherwise the parts that do, in
   * order, are the parts of the entry's path.
   */
  lemma EntryPathExactly(raw: string)
    ensures var parts := Split(Slashes(raw));
            && (EntryPath(raw).None? <==>
                  || (raw != [] && raw[0] == '/') || ".." in parts
                  || forall k :: 0 <= k < |parts| ==> parts[k] == "" || parts[k] == ".")
            && (EntryPath(raw).Some? ==> exists kept :: NamesOf(parts, kept, Split(EntryPath(raw).value)))
  {
    var parts := Split(Slashes(raw));
    NamedMembers(parts);
    assert raw != [] ==> raw[..1] == [raw[0]];
    if Named(parts) == [] {
      forall k | 0 <= k < |parts| ensures Skipped(parts[k]) {
        assert parts[k] in parts;
      }
    } else {
      assert Named(parts)[0] in Named(parts);
    }
    if EntryPath(raw).Some? {
      var kept := NamedAt(parts);
      SplitHasNoSlash(Slashes(raw));
      SplitJoin(Named(parts));
    }
  }

  /** Names come back unchanged exactly when they are normal. */
  lemma KeptExactly(path: string)
    ensures EntryPath(path) == Some(path) <==> Normal(path)
  {
    AcceptedIsNormal(path);
    if Normal(path) {
      NormalIsKept(path);
    }
  }
}
