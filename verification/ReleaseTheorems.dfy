/** `verify` accepts exactly what `pack` writes. */
module ReleaseTheorems {
  import opened Options
  import opened Ustar
  import opened ReleaseLayout
  import opened PosixPaths
  import opened ReleaseTarball
  import Order = SortedStrings

  // ---------------------------------------------------------------- the top directory

  /** What every `TopDir` of a valid version and architecture is. */
  ghost predicate PlainTop(top: string) {
    top != "" && top[0] != '/' && top[0] != '.' && top[|top| - 1] != '/' && '/' !in top
  }

  lemma TopIsPlain(version: string, arch: string)
    requires IsVersion(version) && IsArch(arch)
    ensures PlainTop(TopDir(version, arch))
  {}

  // ---------------------------------------------------------------- names and relative paths

  lemma FullNameRel(top: string, rel: string)
    ensures FullName(top, rel) != top && RelOf(top, FullName(top, rel)) == rel
  {}

  /** Every name is the top directory or a full name, by its relative path. */
  lemma NameShape(top: string, contents: Contents, name: string)
    requires name in Names(top, contents)
    ensures var rel := RelOf(top, name);
      name == top || (name == FullName(top, rel) && (rel in DIRS || rel in contents))
  {}

  /** What `EntryFor` makes of a full name. */
  lemma EntryShape(top: string, contents: Contents, rel: string)
    ensures EntryFor(top, contents, FullName(top, rel)) ==
      if rel in contents then Entry(FullName(top, rel), Some(contents[rel]), ModeFor(rel))
      else Entry(FullName(top, rel), None, DIR_MODE)
  {}

  /** A regular file reads back under its own name. */
  lemma FileNameReadsBack(e: Entry, mtime: nat)
    requires Encodable(e, mtime) && e.data.Some? && e.name != "" && e.name[0] != '/'
    ensures ReadBack(e, mtime).name == e.name
  {
    SplitFits(e.name);
  }

  /** Two names share a relative path only if they are the top directory with and without a slash. */
  lemma RelIsUnique(top: string, contents: Contents, a: string, b: string)
    requires a in Names(top, contents) && b in Names(top, contents) && a != b && RelOf(top, a) == RelOf(top, b)
    ensures (a == top && b == FullName(top, "")) || (b == top && a == FullName(top, ""))
  {}

  /** Reading a member back keeps its relative path. */
  lemma RelReadsBack(top: string, contents: Contents, name: string, mtime: nat)
    requires PlainTop(top) && name in Names(top, contents) && Encodable(EntryFor(top, contents, name), mtime)
    ensures RelOf(top, ReadBack(EntryFor(top, contents, name), mtime).name) == RelOf(top, name)
    ensures var back := ReadBack(EntryFor(top, contents, name), mtime).name;
      back == name || (name == top && back == FullName(top, ""))
  {
    var e := EntryFor(top, contents, name);
    NameShape(top, contents, name);
    var rel := RelOf(top, name);
    assert name[0] == top[0];
    if e.data.Some? {
      FileNameReadsBack(e, mtime);
    } else {
      if name != top {
        EntryShape(top, contents, rel);
        DirFacts(rel);
        assert name[|name| - 1] == rel[|rel| - 1];
      }
      NameReadsBack(e, mtime);
      if ReadBack(e, mtime).name != name {
        if name != top { DirIsNotPrefix(top, rel); }
        FullNameRel(top, "");
        assert name + ['/'] == FullName(name, "");
      }
    }
  }

  /** A directory below the top is never stored as a bare prefix: the top's own slash comes first. */
  lemma DirIsNotPrefix(top: string, d: string)
    requires d in DIRS
    ensures SplitName(FullName(top, d) + ['/']) != Some((FullName(top, d), []))
  {
    var w := FullName(top, d) + ['/'];
    DirFacts(d);
    assert w[|top|] == '/';
    if SplitName(w) == Some((FullName(top, d), [])) { FirstSplitFits(w, 0); }
  }

  // ---------------------------------------------------------------- the reader's dictionaries

  lemma {:induction false} ByRelLast(ms: seq<Member>, top: string, j: nat)
    requires j < |ms| && forall k :: j < k < |ms| ==> RelOf(top, ms[k].name) != RelOf(top, ms[j].name)
    ensures RelOf(top, ms[j].name) in ByRel(ms, top) && ByRel(ms, top)[RelOf(top, ms[j].name)] == ms[j]
  {
    if j < |ms| - 1 { ByRelLast(ms[..|ms| - 1], top, j); }
  }

  lemma {:induction false} ByRelKeys(ms: seq<Member>, top: string)
    ensures forall r :: r in ByRel(ms, top) <==> exists i :: 0 <= i < |ms| && RelOf(top, ms[i].name) == r
  {
    if ms != [] {
      var n := |ms| - 1;
      ByRelKeys(ms[..n], top);
      forall r | r in ByRel(ms, top) ensures exists i :: 0 <= i < |ms| && RelOf(top, ms[i].name) == r {
        if r in ByRel(ms[..n], top) {
          var i :| 0 <= i < n && RelOf(top, ms[..n][i].name) == r;
          assert RelOf(top, ms[i].name) == r;
        } else {
          assert RelOf(top, ms[n].name) == r;
        }
      }
      forall r, i | 0 <= i < |ms| && RelOf(top, ms[i].name) == r ensures r in ByRel(ms, top) {
        if i < n { assert RelOf(top, ms[..n][i].name) == r; }
      }
    }
  }

  lemma {:induction false} ContentsLast(ms: seq<Member>, top: string, j: nat)
    requires j < |ms| && ms[j].kind == REGULAR
    requires forall k :: j < k < |ms| && ms[k].kind == REGULAR ==> RelOf(top, ms[k].name) != RelOf(top, ms[j].name)
    ensures RelOf(top, ms[j].name) in ContentsOf(ms, top) && ContentsOf(ms, top)[RelOf(top, ms[j].name)] == ms[j].data
  {
    if j < |ms| - 1 { ContentsLast(ms[..|ms| - 1], top, j); }
  }

  lemma {:induction false} ContentsKeys(ms: seq<Member>, top: string, r: string)
    requires r in ContentsOf(ms, top)
    ensures exists i :: 0 <= i < |ms| && ms[i].kind == REGULAR && RelOf(top, ms[i].name) == r
  {
    var n := |ms| - 1;
    if ms[n].kind == REGULAR && RelOf(top, ms[n].name) == r {
    } else {
      ContentsKeys(ms[..n], top, r);
      var i :| 0 <= i < n && ms[..n][i].kind == REGULAR && RelOf(top, ms[..n][i].name) == r;
      assert ms[i].kind == REGULAR && RelOf(top, ms[i].name) == r;
    }
  }

  // ---------------------------------------------------------------- a canonical stream, read

  ghost function Listing(top: string, contents: Contents): seq<string> { Order.Sorted(Names(top, contents)) }

  ghost predicate Written(top: string, contents: Contents, mtime: nat) {
    PlainTop(top) && AllEncodable(TarEntries(top, contents), mtime)
  }

  /** The members a reader gets from the canonical stream. */
  ghost function Members(top: string, contents: Contents, mtime: nat): seq<Member>
    requires Written(top, contents, mtime)
  {
    ReadBackAll(TarEntries(top, contents), mtime)
  }

  lemma MemberAt(top: string, contents: Contents, mtime: nat, i: nat)
    requires Written(top, contents, mtime) && i < |Listing(top, contents)|
    ensures var name := Listing(top, contents)[i]; var ms := Members(top, contents, mtime);
      && |ms| == |Listing(top, contents)| && name in Names(top, contents)
      && Encodable(EntryFor(top, contents, name), mtime)
      && ms[i] == ReadBack(EntryFor(top, contents, name), mtime)
      && RelOf(top, ms[i].name) == RelOf(top, name)
      && (ms[i].name == name || (name == top && ms[i].name == FullName(top, "")))
  {
    hide Encodable, ReadBack, Names;
    var name := Listing(top, contents)[i];
    Order.SortedLists(Names(top, contents));
    assert name in Listing(top, contents);
    assert Encodable(TarEntries(top, contents)[i], mtime);
    RelReadsBack(top, contents, name, mtime);
  }

  lemma IndexOfName(top: string, contents: Contents, name: string) returns (i: nat)
    requires name in Names(top, contents)
    ensures i < |Listing(top, contents)| && Listing(top, contents)[i] == name
  {
    hide Names;
    Order.SortedLists(Names(top, contents));
    i :| 0 <= i < |Listing(top, contents)| && Listing(top, contents)[i] == name;
  }

  /** No later member shares the relative path of a file, or of a directory that no file shadows. */
  lemma LastOfItsRel(top: string, contents: Contents, mtime: nat, j: nat, k: nat)
    requires Written(top, contents, mtime) && j < k < |Listing(top, contents)|
    requires Listing(top, contents)[j] != top || "" !in contents
    ensures |Members(top, contents, mtime)| == |Listing(top, contents)|
    ensures RelOf(top, Members(top, contents, mtime)[k].name) != RelOf(top, Members(top, contents, mtime)[j].name)
  {
    hide Members, ReadBack, Encodable, Written;
    var names := Listing(top, contents);
    MemberAt(top, contents, mtime, j);
    MemberAt(top, contents, mtime, k);
    Order.SortedLists(Names(top, contents));
    if RelOf(top, names[j]) == RelOf(top, names[k]) {
      RelIsUnique(top, contents, names[j], names[k]);
      Order.PrefixIsLess(top, "/");
      assert FullName(top, "") == top + "/";
      Order.Total(top, FullName(top, ""));
      if names[k] == FullName(top, "") {
        NameShape(top, contents, names[k]);
        FullNameRel(top, "");
        NoEmptyDir();
      }
    }
  }

  lemma NoEmptyDir()
    ensures "" !in DIRS
  {}

  lemma FoundFile(top: string, contents: Contents, mtime: nat, r: string)
    requires Written(top, contents, mtime) && r in contents
    ensures var ms := Members(top, contents, mtime);
      && r in ByRel(ms, top) && ByRel(ms, top)[r].kind == REGULAR && ByRel(ms, top)[r].mode == ModeFor(r)
      && r in ContentsOf(ms, top) && ContentsOf(ms, top)[r] == contents[r]
  {
    var name := FullName(top, r);
    assert name in Names(top, contents);
    hide Members, Written, Encodable, Names;
    var ms := Members(top, contents, mtime);
    var j := IndexOfName(top, contents, name);
    MemberAt(top, contents, mtime, j);
    FullNameRel(top, r);
    EntryShape(top, contents, r);
    forall k | j < k < |ms| ensures RelOf(top, ms[k].name) != RelOf(top, ms[j].name) {
      LastOfItsRel(top, contents, mtime, j, k);
    }
    ByRelLast(ms, top, j);
    ContentsLast(ms, top, j);
  }

  lemma FoundDir(top: string, contents: Contents, mtime: nat, r: string)
    requires Written(top, contents, mtime) && r !in contents && (r == "" || r in DIRS)
    ensures var ms := Members(top, contents, mtime);
      r in ByRel(ms, top) && ByRel(ms, top)[r].kind == DIRECTORY && ByRel(ms, top)[r].mode == DIR_MODE
  {
    var name := if r == "" then top else FullName(top, r);
    assert name in Names(top, contents);
    NoEmptyDir();
    hide Members, Written, Encodable, Names;
    var ms := Members(top, contents, mtime);
    var j := IndexOfName(top, contents, name);
    MemberAt(top, contents, mtime, j);
    FullNameRel(top, r);
    EntryShape(top, contents, r);
    forall k | j < k < |ms| ensures RelOf(top, ms[k].name) != RelOf(top, ms[j].name) {
      LastOfItsRel(top, contents, mtime, j, k);
    }
    ByRelLast(ms, top, j);
  }

  lemma FoundOnly(top: string, contents: Contents, mtime: nat, r: string)
    requires Written(top, contents, mtime)
    ensures var ms := Members(top, contents, mtime);
      && (r in ByRel(ms, top) ==> r == "" || r in DIRS || r in contents)
      && (r in ContentsOf(ms, top) ==> r in contents)
  {
    hide Written, Encodable;
    var ms := Members(top, contents, mtime);
    ByRelKeys(ms, top);
    if r in ByRel(ms, top) {
      var i :| 0 <= i < |ms| && RelOf(top, ms[i].name) == r;
      MemberAt(top, contents, mtime, i);
      NameShape(top, contents, Listing(top, contents)[i]);
    }
    if r in ContentsOf(ms, top) {
      ContentsKeys(ms, top, r);
      var i :| 0 <= i < |ms| && ms[i].kind == REGULAR && RelOf(top, ms[i].name) == r;
      MemberAt(top, contents, mtime, i);
      NameShape(top, contents, Listing(top, contents)[i]);
    }
  }

  /** The reader's contents are the written contents, whatever they are. */
  lemma ContentsReadBack(top: string, contents: Contents, mtime: nat)
    requires Written(top, contents, mtime)
    ensures ContentsOf(Members(top, contents, mtime), top) == contents
  {
    hide Written, Members, ContentsOf;
    var back := ContentsOf(Members(top, contents, mtime), top);
    forall r | r in contents ensures r in back && back[r] == contents[r] { FoundFile(top, contents, mtime, r); }
    forall r | r in back ensures r in contents { FoundOnly(top, contents, mtime, r); }
    assert back.Keys == contents.Keys;
  }

  // ---------------------------------------------------------------- layout, members, tables

  /** The files of a release: the four fixed ones and at least one license. */
  ghost predicate GoodKeys(c: Contents) {
    && REQUIRED <= c.Keys && (forall r :: r in c && r !in REQUIRED ==> IsLicense(r))
    && exists r :: r in c && IsLicense(r)
  }

  lemma GoodKeysAreFiles(c: Contents, r: string)
    requires GoodKeys(c) && r in c
    ensures ".." !in Components(r) && r !in DIRS && r != ""
  {
    FileFacts(r);
  }

  ghost function Found(top: string, c: Contents, mtime: nat): map<string, Member>
    requires Written(top, c, mtime)
  {
    ByRel(Members(top, c, mtime), top)
  }

  lemma LayoutFromKeys(top: string, c: Contents, mtime: nat)
    requires Written(top, c, mtime) && GoodKeys(c)
    ensures LayoutOk(Found(top, c, mtime))
  {
    hide Written, Members, ByRel, IsLicense, GoodKeys;
    var found := Found(top, c, mtime);
    forall r | r in c
      ensures r in found && found[r].kind == REGULAR && found[r].mode == ModeFor(r) && r !in DIRS && r != ""
    {
      FoundFile(top, c, mtime, r);
      GoodKeysAreFiles(c, r);
    }
    forall r | r == "" || r in DIRS
      ensures r in found && found[r].kind == DIRECTORY && found[r].mode == DIR_MODE && r !in c
    {
      if r in c { GoodKeysAreFiles(c, r); }
      FoundDir(top, c, mtime, r);
    }
    forall r | r in found ensures r == "" || r in DIRS || r in c { FoundOnly(top, c, mtime, r); }
    var dirs := set r | r in found && found[r].kind == DIRECTORY;
    assert dirs == {""} + DIRS;
    assert found.Keys - dirs == c.Keys;
    KeysOf(c);
  }

  lemma KeysOf(c: Contents)
    requires GoodKeys(c)
    ensures REQUIRED <= c.Keys && forall r :: r in c.Keys - REQUIRED ==> IsLicense(r)
    ensures exists r :: r in c.Keys && IsLicense(r)
  {}

  lemma KeysFromLayout(top: string, c: Contents, mtime: nat)
    requires Written(top, c, mtime) && LayoutOk(Found(top, c, mtime))
    ensures GoodKeys(c)
  {
    hide Written, Members, ByRel, IsLicense;
    var found := Found(top, c, mtime);
    var dirs := set r | r in found && found[r].kind == DIRECTORY;
    forall r | r in c ensures r in found && r !in dirs { FoundFile(top, c, mtime, r); }
    forall r | r in found && r !in dirs ensures r in c { FoundOnly(top, c, mtime, r); }
    assert found.Keys - dirs == c.Keys;
  }

  lemma FileNameIsSafe(top: string, rel: string)
    requires PlainTop(top) && ".." !in Components(rel)
    ensures !DotDot(FullName(top, rel))
  {
    ComponentsOfBelow(top, rel);
    ComponentsOfOne(top);
  }

  lemma TopIsSafe(top: string)
    requires PlainTop(top)
    ensures !DotDot(top) && !DotDot(FullName(top, ""))
  {
    ComponentsOfOne(top);
    ComponentsOfBelow(top, "");
    assert Components("") == [""];
  }

  lemma PackedMembersOk(top: string, c: Contents, mtime: nat)
    requires Written(top, c, mtime) && GoodKeys(c)
    ensures MembersOk(Members(top, c, mtime), top)
    ensures forall i :: 0 <= i < |Members(top, c, mtime)| ==> Members(top, c, mtime)[i].mtime == mtime
  {
    var ms := Members(top, c, mtime);
    var names := Listing(top, c);
    forall i | 0 <= i < |ms| ensures MemberOk(ms[i], top) && ms[i].mtime == mtime { PackedMemberOk(top, c, mtime, i); }
    forall i, j | 0 <= i < j < |ms| ensures ms[i].name != ms[j].name {
      hide MemberOk, GoodKeys, Encodable;
      if "" in c { GoodKeysAreFiles(c, ""); }
      LastOfItsRel(top, c, mtime, i, j);
    }
  }

  lemma PackedMemberOk(top: string, c: Contents, mtime: nat, i: nat)
    requires Written(top, c, mtime) && GoodKeys(c) && i < |Members(top, c, mtime)|
    ensures MemberOk(Members(top, c, mtime)[i], top) && Members(top, c, mtime)[i].mtime == mtime
  {
    hide GoodKeys, DotDot, Encodable;
    assert PlainTop(top);
    MemberAt(top, c, mtime, i);
    hide Written, Members;
    var name, m := Listing(top, c)[i], Members(top, c, mtime)[i];
    var rel := RelOf(top, name);
    NameShape(top, c, name);
    TopIsSafe(top);
    assert m.name[0] == top[0];
    if name != top {
      if rel in c {
        GoodKeysAreFiles(c, rel);
      } else {
        DirFacts(rel);
        PlainIsNormal(rel);
      }
      FileNameIsSafe(top, rel);
      assert name[..|top| + 1] == top + "/";
    } else if m.name != top {
      assert m.name[..|top| + 1] == top + "/";
    }
  }

  /** In a canonical stream the members' own facts are those `pack` records. */
  lemma ActualFactsAre(t: Tools, top: string, c: Contents, mtime: nat)
    requires Written(top, c, mtime)
    ensures ActualFacts(t, Found(top, c, mtime), c) == map r | r in c :: Fact(r, ModeFor(r), |c[r]|, t.sha(c[r]))
  {
    hide Written, Members, ByRel;
    var found := Found(top, c, mtime);
    forall r | r in c ensures r in found && found[r].mode == ModeFor(r) { FoundFile(top, c, mtime, r); }
  }

  lemma {:induction false} SumLinesAgree(a: map<string, string>, b: map<string, string>, paths: seq<string>)
    requires forall p :: p in paths ==> p in a && p in b && a[p] == b[p]
    ensures SumLines(a, paths) == SumLines(b, paths)
  {
    if paths != [] { SumLinesAgree(a, b, paths[..|paths| - 1]); }
  }

  /** The checksum table of the contents does not depend on the checksum file itself. */
  lemma SumsIgnoreThemselves(t: Tools, listed: Contents, sums: Bytes)
    requires SUMS_PATH !in listed
    ensures SumsText(t, listed[SUMS_PATH := sums]) == SumsText(t, listed)
  {
    var c := listed[SUMS_PATH := sums];
    assert c.Keys - {SUMS_PATH} == listed.Keys - {SUMS_PATH} == listed.Keys;
    Order.SortedLists(listed.Keys);
    SumLinesAgree(map r | r in c :: t.sha(c[r]), map r | r in listed :: t.sha(listed[r]), Order.Sorted(listed.Keys));
  }

  /** The staged part of the contents. */
  function Staged(c: Contents): Contents { c - GENERATED }

  /** The manifest's table matches the members exactly when it is the one `pack` builds. */
  lemma ManifestTableIs(t: Tools, c: Contents, files: seq<Fact>)
    ensures var actual := map r | r in c :: Fact(r, ModeFor(r), |c[r]|, t.sha(c[r]));
      ManifestFilesOk(files, actual) <==> files == FactsFor(t, Staged(c))
  {
    var actual := map r | r in c :: Fact(r, ModeFor(r), |c[r]|, t.sha(c[r]));
    var staged := Staged(c);
    assert actual.Keys - GENERATED == staged.Keys;
    var paths := Order.Sorted(staged.Keys);
    Order.SortedLists(staged.Keys);
    forall i | 0 <= i < |paths| ensures paths[i] in staged { assert paths[i] in paths; }
    if ManifestFilesOk(files, actual) {
      forall i | 0 <= i < |paths| ensures files[i] == FactsFor(t, staged)[i] { assert paths[i] in staged; }
    }
  }

  // ---------------------------------------------------------------- theorems

  lemma PackedKeys(t: Tools, version: string, arch: string, source: Source, meta: Meta, files: Contents)
    requires StageOk(files)
    ensures var c := Packed(t, version, arch, source, meta, files);
      && GoodKeys(c) && Staged(c) == files && c[SUMS_PATH] == SumsText(t, c)
      && c[MANIFEST_PATH] == t.encode(BuildManifest(t, version, arch, source, meta, files))
  {
    hide IsLicense, BuildManifest, SumsText;
    var listed := files[MANIFEST_PATH := t.encode(BuildManifest(t, version, arch, source, meta, files))];
    var c := Packed(t, version, arch, source, meta, files);
    PathsDiffer();
    forall r | r in files ensures r !in GENERATED {
      if r in GENERATED { GeneratedFacts(r); }
    }
    SumsIgnoreThemselves(t, listed, SumsText(t, listed));
    assert Staged(c) == files;
    var lic :| lic in files && IsLicense(lic);
    assert lic in c;
  }

  lemma PathsDiffer()
    ensures |BIN_PATH| == 30 && |UNIT_PATH| == 47 && |MANIFEST_PATH| == 42 && |SUMS_PATH| == 39
  {}

  /** Every stream `pack` writes is accepted, if its binary lacks the marker and it fits the size cap. */
  lemma VerifyAcceptsPacked(t: Tools, version: string, arch: string, source: Source, meta: Meta, files: Contents,
                            raw: Bytes)
    requires CodecRoundTrips(t) && ReadsUstar(t)
    requires Pack(t, version, arch, source, meta, files) == Some(raw)
    requires BIN_PATH in files && !Contains(files[BIN_PATH], WEB_UI_MARKER)
    ensures Accepts(t, raw, version, arch)
  {
    hide Stream, ReadTar, AllEncodable, ByRel, ContentsOf, MembersOk, LayoutOk, ManifestFilesOk, GoodKeys, Contains,
         IsVersion, IsArch, SumsText, BuildManifest, TarEntries, ReadBackAll;
    var top := TopDir(version, arch);
    var c := Packed(t, version, arch, source, meta, files);
    var mtime := source.epoch;
    TopIsPlain(version, arch);
    PackedKeys(t, version, arch, source, meta, files);
    ReaderReads(t, top, c, mtime);
    var ms := Members(top, c, mtime);
    ContentsReadBack(top, c, mtime);
    PackedMembersOk(top, c, mtime);
    LayoutFromKeys(top, c, mtime);
    TablesOk(t, top, c, mtime, version, arch, source, meta, files);
    ContentsFromParts(t, raw, ms, c, version, arch, source, meta, files);
  }

  lemma ReaderReads(t: Tools, top: string, c: Contents, mtime: nat)
    requires ReadsUstar(t) && Written(top, c, mtime)
    ensures t.read(Stream(TarEntries(top, c), mtime)) == Some(Members(top, c, mtime))
  {}

  lemma TablesOk(t: Tools, top: string, c: Contents, mtime: nat, version: string, arch: string, source: Source,
                 meta: Meta,
                 files: Contents)
    requires Written(top, c, mtime) && Staged(c) == files
    ensures var actual := ActualFacts(t, Found(top, c, mtime), c);
      && ManifestFilesOk(BuildManifest(t, version, arch, source, meta, files).files, actual)
      && SumsText(t, c) == SumLines(map r | r in actual :: actual[r].sha, Order.Sorted(actual.Keys - {SUMS_PATH}))
  {
    hide Written, ManifestFilesOk, Found, ActualFacts, FactsFor, SumLines;
    ActualFactsAre(t, top, c, mtime);
    ManifestTableIs(t, c, FactsFor(t, files));
    var actual := ActualFacts(t, Found(top, c, mtime), c);
    assert actual.Keys == c.Keys;
    assert (map r | r in actual :: actual[r].sha) == (map r | r in c :: t.sha(c[r]));
  }

  lemma RequiredPresent(c: Contents)
    requires GoodKeys(c)
    ensures MANIFEST_PATH in c && SUMS_PATH in c && BIN_PATH in c
  {}

  lemma ManifestReads(t: Tools, version: string, arch: string, source: Source, meta: Meta, files: Contents)
    requires CodecRoundTrips(t) && SourceOk(source, version) && t.metaOk(meta)
    ensures var m := BuildManifest(t, version, arch, source, meta, files);
      t.decode(t.encode(m)) == Some(m) && ManifestOk(t, m, version, arch) && m.source == source
  {}

  lemma ContentsFromParts(t: Tools, raw: Bytes, ms: seq<Member>, c: Contents, version: string, arch: string,
                          source: Source,
                          meta: Meta, files: Contents)
    requires CodecRoundTrips(t) && SourceOk(source, version) && t.metaOk(meta) && GoodKeys(c)
    requires TarBytes(TopDir(version, arch), c, source.epoch) == Some(raw)
    requires LayoutOk(ByRel(ms, TopDir(version, arch)))
    requires c[MANIFEST_PATH] == t.encode(BuildManifest(t, version, arch, source, meta, files))
    requires c[SUMS_PATH] == SumsText(t, c)
    requires var actual := ActualFacts(t, ByRel(ms, TopDir(version, arch)), c);
      && ManifestFilesOk(BuildManifest(t, version, arch, source, meta, files).files, actual)
      && SumsText(t, c) == SumLines(map r | r in actual :: actual[r].sha, Order.Sorted(actual.Keys - {SUMS_PATH}))
    requires forall i :: 0 <= i < |ms| ==> ms[i].mtime == source.epoch
    requires !Contains(c[BIN_PATH], WEB_UI_MARKER)
    ensures ContentsOk(t, raw, ms, c, version, arch)
  {
    hide LayoutOk, ByRel, ManifestFilesOk, SumLines, SumsText, TarBytes, Contains, ActualFacts, GoodKeys,
         CodecRoundTrips, BuildManifest, ManifestOk, TopDir;
    RequiredPresent(c);
    ManifestReads(t, version, arch, source, meta, files);
  }

  /**
    The stream that passes `check_contents` has one reading. Whatever members and contents a lenient
    reader produced, the strict reader finds exactly those contents in it.
   */
  lemma EveryReaderSeesTheSame(t: Tools, raw: Bytes, ms: seq<Member>, c: Contents, version: string, arch: string)
    requires IsVersion(version) && IsArch(arch) && ContentsOk(t, raw, ms, c, version, arch)
    ensures ReadTar(raw, true).Some? && ContentsOf(ReadTar(raw, true).value, TopDir(version, arch)) == c
  {
    hide Stream, ReadTar, AllEncodable, ByRel, ContentsOf, LayoutOk, ManifestFilesOk, Contains, IsVersion, IsArch,
         TarEntries, ReadBackAll, SumLines, ActualFacts;
    var top := TopDir(version, arch);
    var mtime := t.decode(c[MANIFEST_PATH]).value.source.epoch;
    TopIsPlain(version, arch);
    StreamRoundTrip(TarEntries(top, c), mtime);
    ContentsReadBack(top, c, mtime);
  }

  /**
    Anything accepted is the canonical stream of its own contents: reading it back gives exactly
    those contents, its checksum file is their checksum table, and its manifest is the one `pack`
    would build from its other files.
   */
  lemma AcceptedIsCanonical(t: Tools, raw: Bytes, version: string, arch: string)
    requires ReadsUstar(t) && IsVersion(version) && IsArch(arch) && Accepts(t, raw, version, arch)
    ensures var top := TopDir(version, arch); var c := ContentsOf(t.read(raw).value, top);
      && GoodKeys(c) && t.decode(c[MANIFEST_PATH]).Some?
      && var m := t.decode(c[MANIFEST_PATH]).value;
         && SourceOk(m.source, version) && t.metaOk(m.meta) && TarBytes(top, c, m.source.epoch) == Some(raw)
         && m == BuildManifest(t, version, arch, m.source, m.meta, Staged(c))
         && c[MANIFEST_PATH] == t.encode(m)
         && c[SUMS_PATH] == SumsText(t, c)
         && !Contains(c[BIN_PATH], WEB_UI_MARKER)
  {
    hide Stream, ReadTar, AllEncodable, ByRel, ContentsOf, MembersOk, LayoutOk, ManifestFilesOk, GoodKeys, Contains,
         IsVersion, IsArch, TarEntries, ReadBackAll, SumLines, FactsFor, ActualFacts;
    var top := TopDir(version, arch);
    var ms := t.read(raw).value;
    var c := ContentsOf(ms, top);
    var m := t.decode(c[MANIFEST_PATH]).value;
    var mtime := m.source.epoch;
    TopIsPlain(version, arch);
    assert Written(top, c, mtime);
    ReaderReads(t, top, c, mtime);
    assert ms == Members(top, c, mtime);
    KeysFromLayout(top, c, mtime);
    ActualFactsAre(t, top, c, mtime);
    ManifestTableIs(t, c, m.files);
    var actual := ActualFacts(t, Found(top, c, mtime), c);
    assert actual.Keys == c.Keys;
    assert (map r | r in actual :: actual[r].sha) == (map r | r in c :: t.sha(c[r]));
  }

  /** An accepted stream is what `pack` writes for its own staged files and manifest entries. */
  lemma AcceptedIsPacked(t: Tools, raw: Bytes, version: string, arch: string)
    returns (source: Source, meta: Meta, files: Contents)
    requires ReadsUstar(t) && IsVersion(version) && IsArch(arch) && Accepts(t, raw, version, arch)
    ensures Pack(t, version, arch, source, meta, files) == Some(raw)
    ensures BIN_PATH in files && !Contains(files[BIN_PATH], WEB_UI_MARKER)
  {
    hide Stream, ReadTar, AllEncodable, ContentsOf, MembersOk, ContentsOk, Contains, IsVersion, IsArch, TarBytes,
         FactsFor, IsLicense, SumLines;
    AcceptedIsCanonical(t, raw, version, arch);
    var c := ContentsOf(t.read(raw).value, TopDir(version, arch));
    var m := t.decode(c[MANIFEST_PATH]).value;
    source, meta, files := m.source, m.meta, Staged(c);
    StagedIsOk(c);
    var listed := files[MANIFEST_PATH := t.encode(m)];
    PathsDiffer();
    assert listed == c - {SUMS_PATH};
    assert c == listed[SUMS_PATH := c[SUMS_PATH]];
    SumsIgnoreThemselves(t, listed, c[SUMS_PATH]);
    assert Packed(t, version, arch, source, meta, files) == c;
  }

  lemma StagedIsOk(c: Contents)
    requires GoodKeys(c)
    ensures StageOk(Staged(c)) && Staged(c)[BIN_PATH] == c[BIN_PATH]
  {
    PathsDiffer();
    var lic :| lic in c && IsLicense(lic);
    assert lic !in GENERATED by {
      if lic in GENERATED { GeneratedFacts(lic); }
    }
    assert lic in Staged(c);
  }

  /** A source record, metadata and files that pack to the stream, with a binary free of the web-UI marker. */
  ghost predicate PacksTo(t: Tools, version: string, arch: string, source: Source, meta: Meta, files: Contents,
                          raw: Bytes) {
    && Pack(t, version, arch, source, meta, files) == Some(raw)
    && BIN_PATH in files && !Contains(files[BIN_PATH], WEB_UI_MARKER)
  }

  /** `verify` accepts exactly the streams `pack` writes, for every version and architecture. */
  lemma VerifyAcceptsExactlyPack(t: Tools, raw: Bytes, version: string, arch: string)
    requires CodecRoundTrips(t) && ReadsUstar(t) && IsVersion(version) && IsArch(arch)
    ensures Accepts(t, raw, version, arch) <==>
      exists source, meta, files :: PacksTo(t, version, arch, source, meta, files, raw)
  {
    hide Accepts, Pack, Contains, IsVersion, IsArch;
    if Accepts(t, raw, version, arch) {
      var source, meta, files := AcceptedIsPacked(t, raw, version, arch);
      assert PacksTo(t, version, arch, source, meta, files, raw);
    }
    if source, meta, files :| PacksTo(t, version, arch, source, meta, files, raw) {
      VerifyAcceptsPacked(t, version, arch, source, meta, files, raw);
    }
  }

  /** The same tools with another tar reader. */
  ghost predicate SameButReader(t: Tools, u: Tools) { u == t.(read := u.read) }

  /** The tables do not look at the reader. */
  lemma TablesIgnoreReader(t: Tools, u: Tools, raw: Bytes, ms: seq<Member>, c: Contents, version: string, arch: string)
    requires SameButReader(t, u)
    ensures ContentsOk(t, raw, ms, c, version, arch) <==> ContentsOk(u, raw, ms, c, version, arch)
  {
    hide LayoutOk, ByRel, ManifestFilesOk, SumLines, TarBytes, Contains, TopDir;
    assert ActualFacts(t, ByRel(ms, TopDir(version, arch)), c) == ActualFacts(u, ByRel(ms, TopDir(version, arch)), c);
  }

  /** Any two readers that read written streams back accept exactly the same streams. */
  lemma ReaderDoesNotMatter(t: Tools, u: Tools, raw: Bytes, version: string, arch: string)
    requires ReadsUstar(t) && ReadsUstar(u) && SameButReader(t, u) && IsVersion(version) && IsArch(arch)
    ensures Accepts(t, raw, version, arch) <==> Accepts(u, raw, version, arch)
  {
    hide ReadsUstar, IsVersion, IsArch, Accepts;
    if Accepts(t, raw, version, arch) { AcceptedByOther(t, u, raw, version, arch); }
    if Accepts(u, raw, version, arch) { AcceptedByOther(u, t, raw, version, arch); }
  }

  lemma AcceptedByOther(t: Tools, u: Tools, raw: Bytes, version: string, arch: string)
    requires ReadsUstar(t) && ReadsUstar(u) && SameButReader(t, u) && IsVersion(version) && IsArch(arch)
    requires Accepts(t, raw, version, arch)
    ensures Accepts(u, raw, version, arch)
  {
    hide Stream, AllEncodable, ContentsOf, MembersOk, ContentsOk, Contains, IsVersion, IsArch, FactsFor, SumLines,
         GoodKeys, ReadsUstar, TarEntries, ReadBackAll, ByRel;
    var top := TopDir(version, arch);
    var c := ContentsOf(t.read(raw).value, top);
    AcceptedIsCanonical(t, raw, version, arch);
    TopIsPlain(version, arch);
    RequiredPresent(c);
    var mtime := t.decode(c[MANIFEST_PATH]).value.source.epoch;
    ReaderReads(t, top, c, mtime);
    ReaderReads(u, top, c, mtime);
    assert u.read(raw) == t.read(raw);
    TablesIgnoreReader(t, u, raw, t.read(raw).value, c, version, arch);
  }

  /** The strict ustar reader is one of them. */
  lemma StrictReaderReads(t: Tools)
    requires forall raw :: t.read(raw) == ReadTar(raw, true)
    ensures ReadsUstar(t)
  {
    hide Stream, ReadTar, AllEncodable, ReadBackAll;
    forall es, mtime | AllEncodable(es, mtime) ensures t.read(Stream(es, mtime)) == Some(ReadBackAll(es, mtime)) {
      StreamRoundTrip(es, mtime);
    }
  }

  // ---------------------------------------------------------------- paths no stage can hold

  /** Paths as a walk of a directory yields them. */
  ghost predicate Walked(files: Contents) { forall r :: r in files ==> Normal(r) == r }

  ghost function StagedIn(t: Tools, raw: Bytes, top: string): Contents
    requires t.read(raw).Some?
  {
    Staged(ContentsOf(t.read(raw).value, top))
  }

  /** A packed stream determines the files it was packed from. */
  lemma PackedFilesAreUnique(t: Tools, version: string, arch: string, source: Source, meta: Meta, files: Contents,
                             raw: Bytes)
    requires ReadsUstar(t) && Pack(t, version, arch, source, meta, files) == Some(raw)
    ensures t.read(raw).Some? && StagedIn(t, raw, TopDir(version, arch)) == files
  {
    hide Stream, ReadTar, AllEncodable, ContentsOf, IsVersion, IsArch, TarEntries, ReadBackAll, StageOk, GoodKeys,
         Staged, Packed;
    var top := TopDir(version, arch);
    var c := Packed(t, version, arch, source, meta, files);
    TopIsPlain(version, arch);
    PackedKeys(t, version, arch, source, meta, files);
    ReaderReads(t, top, c, source.epoch);
    ContentsReadBack(top, c, source.epoch);
  }

  /**
    `is_license` normalises the path it is given, so `verify` also accepts streams that no staged
    directory packs to: an accepted stream comes from a directory exactly when all its paths are
    normal.
   */
  lemma PackedFromDirectoryIffNormal(t: Tools, raw: Bytes, version: string, arch: string)
    requires ReadsUstar(t) && IsVersion(version) && IsArch(arch) && Accepts(t, raw, version, arch)
    ensures (exists source, meta, files :: Walked(files) && PacksTo(t, version, arch, source, meta, files, raw))
      <==> Walked(StagedIn(t, raw, TopDir(version, arch)))
  {
    hide Pack, Contains, IsVersion, IsArch, Walked, StagedIn, ContentsOk, ReadTar, MembersOk;
    var source, meta, files := AcceptedIsPacked(t, raw, version, arch);
    PackedFilesAreUnique(t, version, arch, source, meta, files, raw);
    assert PacksTo(t, version, arch, source, meta, files, raw);
    forall source', meta', files' | PacksTo(t, version, arch, source', meta', files', raw)
      ensures files' == files
    {
      PackedFilesAreUnique(t, version, arch, source', meta', files', raw);
    }
  }

  /** The smallest such case: one license, reached through a doubled slash. */
  lemma DoubledSlashIsAccepted(t: Tools, version: string, arch: string, source: Source, meta: Meta, raw: Bytes)
    requires CodecRoundTrips(t) && ReadsUstar(t)
    requires Pack(t, version, arch, source, meta, OddStage()) == Some(raw)
    ensures Accepts(t, raw, version, arch)
    ensures !exists source, meta, files :: Walked(files) && PacksTo(t, version, arch, source, meta, files, raw)
  {
    hide Accepts, Contains, IsVersion, IsArch, StagedIn, ReadTar, IsLicense, TarBytes, Normal;
    OddStageIsOdd();
    VerifyAcceptsPacked(t, version, arch, source, meta, OddStage(), raw);
    PackedFilesAreUnique(t, version, arch, source, meta, OddStage(), raw);
    PackedFromDirectoryIffNormal(t, raw, version, arch);
  }

  function OddStage(): Contents { map[BIN_PATH := "", UNIT_PATH := "", LICENSE_DIR + "//" + "MIT" := ""] }

  /**
    That stage does pack: every source record and metadata gives such a stream, if the generated
    files fit a member.
   */
  lemma OddStagePacks(t: Tools, source: Source, meta: Meta)
    requires SourceOk(source, "1.0.0") && t.metaOk(meta)
    requires var c := Packed(t, "1.0.0", "x86_64", source, meta, OddStage());
      MANIFEST_PATH in c && |c[MANIFEST_PATH]| < Pow8(11) && SUMS_PATH in c && |c[SUMS_PATH]| < Pow8(11)
    ensures Pack(t, "1.0.0", "x86_64", source, meta, OddStage()).Some?
  {
    hide IsVersion, IsArch, StageOk, TarEntries, Encodable, BuildManifest, SumsText, Names, FullName;
    OddVersion();
    OddStageIsOdd();
    var top := TopDir("1.0.0", "x86_64");
    var c := Packed(t, "1.0.0", "x86_64", source, meta, OddStage());
    var names := Listing(top, c);
    Order.SortedLists(Names(top, c));
    forall i | 0 <= i < |names| ensures Encodable(EntryFor(top, c, names[i]), source.epoch) {
      assert names[i] in names;
      OddEntryFits(c, names[i], source.epoch);
    }
    assert AllEncodable(TarEntries(top, c), source.epoch);
  }

  lemma OddVersion()
    ensures IsVersion("1.0.0") && IsArch("x86_64")
  {
    var v := "1.0.0";
    assert DigitsFrom(v, 1) == 1 && DigitsFrom(v, 0) == 1;
    assert DigitsFrom(v, 3) == 3 && DigitsFrom(v, 2) == 3;
    assert DigitsFrom(v, 5) == 5 && DigitsFrom(v, 4) == 5;
  }

  lemma OddEntryFits(c: Contents, name: string, mtime: nat)
    requires c.Keys == OddStage().Keys + GENERATED && name in Names(TopDir("1.0.0", "x86_64"), c) && mtime <= MAX_MTIME
    requires forall r :: r in c ==> |c[r]| < Pow8(11)
    ensures Encodable(EntryFor(TopDir("1.0.0", "x86_64"), c, name), mtime)
  {
    hide Names, TopDir, DIRS, GENERATED, OddStage;
    var top := TopDir("1.0.0", "x86_64");
    Powers();
    OddTop();
    NameShape(top, c, name);
    if name != top {
      var rel := RelOf(top, name);
      OddRel(rel);
      TextBelow(top, rel);
    }
  }

  lemma OddTop()
    ensures IsText(TopDir("1.0.0", "x86_64")) && |TopDir("1.0.0", "x86_64")| == 31
  {}

  lemma TextBelow(dir: string, base: string)
    requires IsText(dir) && IsText(base)
    ensures IsText(FullName(dir, base)) && IsText(dir + "/" + base)
  {}

  lemma OddRel(rel: string)
    requires rel in DIRS || rel in OddStage().Keys + GENERATED
    ensures IsText(rel) && |rel| <= 47
  {
    OddBases();
    hide IsText;
    OddDirs();
    TextBelow(BIN_DIR, "snitchwatch-bridge-cli");
    TextBelow(UNIT_DIR, "snitchwatch-bridge.service");
    TextBelow(DATA_DIR, "MANIFEST.json");
    TextBelow(DATA_DIR, "SHA256SUMS");
    TextBelow(LICENSE_DIR, "/MIT");
    assert LICENSE_DIR + "//" + "MIT" == LICENSE_DIR + "/" + "/MIT";
  }

  lemma OddBases()
    ensures IsText("snitchwatch-bridge-cli") && IsText("snitchwatch-bridge.service")
    ensures IsText("MANIFEST.json") && IsText("SHA256SUMS") && IsText("/MIT")
  {}

  lemma OddSteps()
    ensures IsText("usr") && IsText("bin") && IsText("lib") && IsText("systemd") && IsText("user")
    ensures IsText("share") && IsText("licenses") && IsText(NAME)
  {}

  lemma OddDirs()
    ensures forall d :: d in DIRS ==> IsText(d)
  {
    hide IsText;
    OddSteps();
    TextBelow("usr", "bin");
    TextBelow("usr", "lib");
    TextBelow(LIB_DIR, "systemd");
    TextBelow(SYSTEMD_DIR, "user");
    TextBelow("usr", "share");
    TextBelow(SHARE_DIR, "licenses");
    TextBelow(LICENSES_DIR, NAME);
    TextBelow(SHARE_DIR, NAME);
  }

  lemma OddStageIsOdd()
    ensures StageOk(OddStage()) && !Walked(OddStage()) && BIN_PATH in OddStage()
    ensures !Contains(OddStage()[BIN_PATH], WEB_UI_MARKER)
  {
    hide IsLicense, PlainLicense, Normal;
    PathsDiffer();
    var odd := LICENSE_DIR + "//" + "MIT";
    DoubledSlashIsLicense("MIT");
    assert IsLicense(odd) ==> PlainLicense(Normal(odd)) by { LicenseNormal(odd); }
    assert odd in OddStage();
    assert |odd| == 42 && odd != BIN_PATH && odd != UNIT_PATH;
  }

  lemma LicenseNormal(r: string)
    requires IsLicense(r)
    ensures PlainLicense(Normal(r))
  {}
}
