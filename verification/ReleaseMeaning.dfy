/** What an accepted release says and does not say, spelled out. */
module ReleaseMeaning {
  import opened Options
  import opened Ustar
  import opened Gzip
  import opened ReleaseLayout
  import opened PosixPaths
  import opened ReleaseTarball
  import opened ReleaseTheorems
  import opened ReleaseArtifact
  import Order = SortedStrings

  // ---------------------------------------------------------------- the web-UI marker

  /** The marker is contained exactly when it stands somewhere, anything before and after it. */
  lemma ContainsIs(s: Bytes, marker: Bytes)
    ensures Contains(s, marker) <==> exists a, b :: s == a + marker + b
  {
    if Contains(s, marker) {
      var i :| 0 <= i <= |s| && StartsAt(s, marker, i);
      assert s == s[..i] + marker + s[i + |marker|..];
    }
    if a, b :| s == a + marker + b {
      assert StartsAt(s, marker, |a|);
    }
  }

  /** What the verified tarball holds as its binary. */
  ghost function BinaryIn(t: Tools, c: Codec, name: string, blob: Bytes): Bytes
    requires Unzip(c, blob).Some? && ParseTarballName(name).Some? && t.read(Unzip(c, blob).value).Some?
    requires BIN_PATH in ContentsOf(t.read(Unzip(c, blob).value).value, TopOf(name))
  {
    ContentsOf(t.read(Unzip(c, blob).value).value, TopOf(name))[BIN_PATH]
  }

  function TopOf(name: string): string
    requires ParseTarballName(name).Some?
  {
    TopDir(ParseTarballName(name).value.0, ParseTarballName(name).value.1)
  }

  /** No artifact whose binary holds the marker, wherever in it, passes. */
  lemma MarkedBinaryIsRefused(t: Tools, c: Codec, name: string, blob: Bytes, sidecar: Option<Bytes>,
                              digest: Option<string>,
                              expected: Option<string>, a: Bytes, b: Bytes)
    requires Verify(t, c, name, blob, sidecar, digest, expected)
    ensures Unzip(c, blob).Some? && ParseTarballName(name).Some? && t.read(Unzip(c, blob).value).Some?
    ensures BIN_PATH in ContentsOf(t.read(Unzip(c, blob).value).value, TopOf(name))
    ensures BinaryIn(t, c, name, blob) != a + "Objective Development Software GmbH" + b
  {
    hide Unzip, ParseTarballName, ContentsOf, MembersOk, LayoutOk, ByRel, ManifestFilesOk, SumLines, TarBytes,
         Contains;
    ContainsIs(BinaryIn(t, c, name, blob), WEB_UI_MARKER);
  }

  /** Nor does anything packed from such a binary. */
  lemma MarkedStageNeverVerifies(t: Tools, c: Codec, p: Inputs, a: Bytes, b: Bytes)
    requires Sound(t, c) && PackArtifact(t, c, p).Some? && BIN_PATH in p.files
    requires p.files[BIN_PATH] == a + "Objective Development Software GmbH" + b
    ensures var x := PackArtifact(t, c, p).value;
      !Verify(t, c, x.name, x.blob, Some(x.sidecar), Some(t.sha(x.blob)), Some(p.version))
  {
    hide Verify, PackArtifact, TarOf, Sound, Contains;
    ContainsIs(p.files[BIN_PATH], WEB_UI_MARKER);
    PackedArtifactVerifies(t, c, p);
  }

  // ---------------------------------------------------------------- what the caller may expect

  /** The digest, the version, the sidecar and the caps all bind; each is asked for where it is given. */
  lemma ExpectationsBind(t: Tools, c: Codec, name: string, blob: Bytes, sidecar: Option<Bytes>, digest: Option<string>,
                         expected: Option<string>)
    ensures Verify(t, c, name, blob, sidecar, digest, expected) <==>
      && Verify(t, c, name, blob, sidecar, None, None)
      && (digest.Some? ==> digest.value == t.sha(blob))
      && (expected.Some? ==> ParseTarballName(name).Some? && ParseTarballName(name).value.0 == expected.value)
    ensures Verify(t, c, name, blob, sidecar, digest, expected) ==>
      && |blob| <= 64 * 1024 * 1024 && sidecar == Some(t.sha(blob) + "  " + name + "\n") && |sidecar.value| <= 4096
      && Unzip(c, blob).Some? && |Unzip(c, blob).value| <= 256 * 1024 * 1024
  {
    hide ReadMember, ParseTarballName, Accepts;
  }

  // ---------------------------------------------------------------- what the manifest says

  ghost predicate Hex(s: string, length: nat) {
    |s| == length && forall c :: c in s ==> '0' <= c <= '9' || 'a' <= c <= 'f'
  }

  /** The entry is the fact of the file it names: its permissions, its length and its digest. */
  ghost predicate EntryIs(t: Tools, e: Fact, c: Contents) {
    && e.path in c && e.size == |c[e.path]| && e.sha == t.sha(c[e.path])
    && e.mode == (if e.path == BIN_PATH then 0x1ED else 0x1A4)
  }

  /** The table lists every file except the generated ones, once, in order. */
  ghost predicate TableIs(t: Tools, files: seq<Fact>, c: Contents) {
    && (forall i :: 0 <= i < |files| ==>
          EntryIs(t, files[i], c) && files[i].path != MANIFEST_PATH && files[i].path != SUMS_PATH)
    && (forall r :: r in c && r != MANIFEST_PATH && r != SUMS_PATH ==>
          exists i :: 0 <= i < |files| && files[i].path == r)
    && forall i, j :: 0 <= i < j < |files| ==> Order.Leq(files[i].path, files[j].path) && files[i].path != files[j].path
  }

  lemma FactAt(t: Tools, c: Contents, i: nat)
    requires i < |FactsFor(t, Staged(c))|
    ensures var paths := Order.Sorted(Staged(c).Keys); var e := FactsFor(t, Staged(c))[i];
      |FactsFor(t, Staged(c))| == |paths| && e.path == paths[i] && e.path in Staged(c) && EntryIs(t, e, c)
  {
    var paths := Order.Sorted(Staged(c).Keys);
    Order.SortedLists(Staged(c).Keys);
    assert paths[i] in paths;
  }

  lemma FactsAre(t: Tools, c: Contents)
    ensures TableIs(t, FactsFor(t, Staged(c)), c)
  {
    var paths := Order.Sorted(Staged(c).Keys);
    var files := FactsFor(t, Staged(c));
    assert |files| == |paths|;
    Order.SortedLists(Staged(c).Keys);
    hide FactsFor, EntryIs, TableIs, Staged;
    forall i | 0 <= i < |files|
      ensures files[i].path == paths[i] && files[i].path in Staged(c) && EntryIs(t, files[i], c)
    {
      FactAt(t, c, i);
    }
    TableFrom(t, files, paths, c);
  }

  lemma TableFrom(t: Tools, files: seq<Fact>, paths: seq<string>, c: Contents)
    requires |files| == |paths| && forall r :: r in paths <==> r in Staged(c)
    requires forall i :: 0 <= i < |files| ==>
      files[i].path == paths[i] && files[i].path in Staged(c) && EntryIs(t, files[i], c)
    requires forall i, j :: 0 <= i < j < |paths| ==> Order.Leq(paths[i], paths[j]) && paths[i] != paths[j]
    ensures TableIs(t, files, c)
  {
    hide EntryIs;
    forall r | r in c && r != MANIFEST_PATH && r != SUMS_PATH
      ensures exists i :: 0 <= i < |files| && files[i].path == r
    {
      assert r in paths;
      var i :| 0 <= i < |paths| && paths[i] == r;
      assert files[i].path == r;
    }
  }

  /** An accepted manifest, field by field. */
  lemma ManifestSays(t: Tools, raw: Bytes, version: string, arch: string)
    requires ReadsUstar(t) && IsVersion(version) && IsArch(arch) && Accepts(t, raw, version, arch)
    ensures t.read(raw).Some? && MANIFEST_PATH in ContentsOf(t.read(raw).value, TopDir(version, arch))
    ensures var c := ContentsOf(t.read(raw).value, TopDir(version, arch)); var m := t.decode(c[MANIFEST_PATH]);
      && m.Some? && TableIs(t, m.value.files, c)
      && m.value.schema == 1 && m.value.name == "snitchwatch-bridge" && m.value.version == version
      && m.value.arch == arch
      && Hex(m.value.source.commit, 40) && 0 <= m.value.source.epoch < 0x2_0000_0000
      && (m.value.source.tag.Some? ==> m.value.source.tag.value == "v" + version && !m.value.source.dirty)
      && m.value.install == Install("/" + BIN_PATH, "/" + UNIT_PATH, "snitchwatch-bridge.service", "user")
  {
    hide MembersOk, ContentsOk, Contains, IsVersion, IsArch, TarBytes, FactsFor, SumLines, GoodKeys, TableIs,
         ContentsOf, ReadsUstar;
    AcceptedIsCanonical(t, raw, version, arch);
    var c := ContentsOf(t.read(raw).value, TopDir(version, arch));
    RequiredPresent(c);
    FactsAre(t, c);
    var commit := t.decode(c[MANIFEST_PATH]).value.source.commit;
    forall x | x in commit ensures '0' <= x <= '9' || 'a' <= x <= 'f' { var i :| 0 <= i < |commit| && commit[i] == x; }
  }

  /**
    The files of an accepted stream: the four fixed ones, at least one license, and nothing that is
    not one of these.
   */
  lemma FilesSay(t: Tools, raw: Bytes, version: string, arch: string)
    requires ReadsUstar(t) && IsVersion(version) && IsArch(arch) && Accepts(t, raw, version, arch)
    ensures t.read(raw).Some?
    ensures var c := ContentsOf(t.read(raw).value, TopDir(version, arch));
      && BIN_PATH in c && UNIT_PATH in c && MANIFEST_PATH in c && SUMS_PATH in c
      && (exists r :: r in c && IsLicense(r))
      && (forall r :: r in c ==> IsLicense(r) || r in {BIN_PATH, UNIT_PATH, MANIFEST_PATH, SUMS_PATH})
  {
    hide MembersOk, ContentsOk, Contains, IsVersion, IsArch, TarBytes, FactsFor, SumLines, ContentsOf, ReadsUstar,
         IsLicense;
    AcceptedIsCanonical(t, raw, version, arch);
    GoodKeysAre(ContentsOf(t.read(raw).value, TopDir(version, arch)));
  }

  lemma GoodKeysAre(c: Contents)
    requires GoodKeys(c)
    ensures BIN_PATH in c && UNIT_PATH in c && MANIFEST_PATH in c && SUMS_PATH in c
    ensures exists r :: r in c && IsLicense(r)
    ensures forall r :: r in c ==> IsLicense(r) || r in {BIN_PATH, UNIT_PATH, MANIFEST_PATH, SUMS_PATH}
  {
    hide IsLicense;
  }

  /** A license is a file directly in the license directory, however its path is spelled. */
  lemma LicensesAre(r: string)
    ensures IsLicense(r) <==>
      && r != "" && r[0] != '/'
      && exists name :: LicenseName(name) && Normal(r) == "usr/share/licenses/snitchwatch-bridge" + "/" + name
  {
    hide Normal, LicenseName;
    LicenseDirIs();
    var p, n := Normal(r), |LICENSE_DIR| + 1;
    if PlainLicense(p) { assert p == LICENSE_DIR + "/" + p[n..]; }
    if name :| LicenseName(name) && p == LICENSE_DIR + "/" + name {
      assert p[..n] == LICENSE_DIR + "/" && p[n..] == name;
      NameIsNotEmpty(name);
    }
  }

  lemma NameIsNotEmpty(name: string)
    requires LicenseName(name)
    ensures name != ""
  {}

  lemma LicenseDirIs()
    ensures LICENSE_DIR == "usr/share/licenses/snitchwatch-bridge"
  {
    assert SHARE_DIR == "usr/share" && LICENSES_DIR == SHARE_DIR + "/licenses";
    assert LICENSES_DIR == "usr/share/licenses";
  }

  /**
    Every member of an accepted stream: root's, at the release time, executable exactly for
    directories and the binary.
   */
  lemma MembersSay(t: Tools, raw: Bytes, version: string, arch: string, i: nat)
    requires ReadsUstar(t) && IsVersion(version) && IsArch(arch) && Accepts(t, raw, version, arch)
    requires t.read(raw).Some? && i < |t.read(raw).value|
    ensures var m := t.read(raw).value[i]; var c := ContentsOf(t.read(raw).value, TopDir(version, arch));
      && MANIFEST_PATH in c && t.decode(c[MANIFEST_PATH]).Some?
      && m.mtime == t.decode(c[MANIFEST_PATH]).value.source.epoch
      && m.uid == 0 && m.gid == 0 && m.uname == "root" && m.gname == "root"
      && (m.kind == '5' ==> m.mode == 0x1ED)
      && (m.kind == '0' ==> m.mode == if RelOf(TopDir(version, arch), m.name) == BIN_PATH then 0x1ED else 0x1A4)
      && (m.kind == '5' || m.kind == '0')
  {
    hide Contains, IsVersion, IsArch, FactsFor, SumLines, GoodKeys, ContentsOf, Encodable, ByRel, LayoutOk,
         ManifestFilesOk, MembersOk, Stream, ReadBackAll, ReadsUstar, IsText;
    AcceptedIsCanonical(t, raw, version, arch);
    var top := TopDir(version, arch);
    var c := ContentsOf(t.read(raw).value, top);
    RequiredPresent(c);
    var mtime := t.decode(c[MANIFEST_PATH]).value.source.epoch;
    TopIsPlain(version, arch);
    ReaderReads(t, top, c, mtime);
    MembersAre(top, c, mtime, i);
  }

  lemma MembersAre(top: string, c: Contents, mtime: nat, i: nat)
    requires Written(top, c, mtime) && i < |Members(top, c, mtime)|
    ensures var m := Members(top, c, mtime)[i];
      && m.mtime == mtime && m.uid == 0 && m.gid == 0 && m.uname == "root" && m.gname == "root"
      && (m.kind == '5' ==> m.mode == 0x1ED)
      && (m.kind == '0' ==> m.mode == if RelOf(top, m.name) == BIN_PATH then 0x1ED else 0x1A4)
      && (m.kind == '5' || m.kind == '0')
  {
    hide Encodable, Names, SplitName, ReadName;
    MemberAt(top, c, mtime, i);
  }

  lemma BelowTopIs(name: string, top: string)
    ensures (|name| > |top| && name[..|top| + 1] == top + "/") <==> exists rest :: name == top + "/" + rest
  {
    if |name| > |top| && name[..|top| + 1] == top + "/" {
      assert name == top + "/" + name[|top| + 1..];
    }
    if rest :| name == top + "/" + rest {
      assert name[..|top| + 1] == top + "/";
    }
  }

  /** What the member check asks: a safe path at or below the top directory, a plain kind, and root's ownership. */
  lemma MemberCheckIs(m: Member, top: string)
    ensures MemberOk(m, top) <==>
      && (m.name == top || exists rest :: m.name == top + "/" + rest)
      && !(m.name != "" && m.name[0] == '/') && ".." !in Components(m.name)
      && (m.kind == '0' || m.kind == '5')
      && m.uid == 0 && m.gid == 0 && m.uname == "root" && m.gname == "root"
  {
    BelowTopIs(m.name, top);
  }

  // ---------------------------------------------------------------- what the checksum table says

  function LineEnd(s: Bytes): (k: nat)
    ensures k <= |s| && (k < |s| ==> s[k] == '\n') && forall j :: 0 <= j < k ==> s[j] != '\n'
  {
    if s == "" || s[0] == '\n' then 0 else 1 + LineEnd(s[1..])
  }

  /** The first double space of a line, or -1. */
  function Gap(line: Bytes): (k: int)
    ensures -1 <= k && k + 2 <= |line| + 1 && (k >= 0 ==> k + 2 <= |line|)
  {
    if |line| < 2 then -1
    else if line[0] == ' ' && line[1] == ' ' then 0
    else var k := Gap(line[1..]); if k < 0 then -1 else k + 1
  }

  /** The reader's own parse: a line with a double space maps what follows it to what precedes it; later lines win. */
  function ParseLine(line: Bytes): map<string, string> {
    if Gap(line) < 0 then map[] else map[line[Gap(line) + 2..] := line[..Gap(line)]]
  }

  function ParseSums(s: Bytes): map<string, string>
    decreases |s|
  {
    if s == "" then map[]
    else
      var k := LineEnd(s);
      ParseLine(s[..k]) + ParseSums(if k < |s| then s[k + 1..] else "")
  }

  lemma LineEndIs(s: Bytes, k: nat)
    requires k < |s| && s[k] == '\n' && forall j :: 0 <= j < k ==> s[j] != '\n'
    ensures LineEnd(s) == k
  {}

  lemma {:induction false} GapIs(digest: Bytes, path: Bytes)
    requires ' ' !in digest
    ensures Gap(digest + "  " + path) == |digest|
  {
    var line := digest + "  " + path;
    if digest != "" {
      assert line[1..] == digest[1..] + "  " + path;
      assert line[0] == digest[0] && digest[0] in digest;
      GapIs(digest[1..], path);
    }
  }

  /** Text made of whole lines. */
  predicate WholeLines(s: Bytes) { s == "" || s[|s| - 1] == '\n' }

  lemma ParseFirst(s: Bytes, line: Bytes, rest: Bytes)
    requires s == line + "\n" + rest && '\n' !in line
    ensures ParseSums(s) == ParseLine(line) + ParseSums(rest)
  {
    assert s[|line|] == '\n';
    LineEndIs(s, |line|);
    assert s[..|line|] == line && s[|line| + 1..] == rest;
  }

  lemma MapsAssociate(a: map<string, string>, b: map<string, string>, c: map<string, string>)
    ensures (a + b) + c == a + (b + c)
  {}

  lemma FirstLine(text: Bytes) returns (first: Bytes, rest: Bytes)
    requires text != "" && WholeLines(text)
    ensures text == first + "\n" + rest && '\n' !in first && WholeLines(rest) && |rest| < |text|
  {
    hide LineEnd;
    var k := LineEnd(text);
    LastIsEnd(text);
    first, rest := text[..k], text[k + 1..];
    assert text == text[..k] + text[k..k + 1] + text[k + 1..];
  }

  lemma ParseOnly(line: Bytes)
    requires '\n' !in line
    ensures ParseSums("") == map[] && ParseSums("" + line + "\n") == ParseLine(line)
  {
    hide ParseLine;
    assert "" + line + "\n" == line + "\n" + "";
    ParseFirst("" + line + "\n", line, "");
  }

  lemma {:induction false} ParseAppends(text: Bytes, line: Bytes)
    requires WholeLines(text) && '\n' !in line
    ensures ParseSums(text + line + "\n") == ParseSums(text) + ParseLine(line)
    decreases |text|
  {
    hide ParseSums, ParseLine, WholeLines;
    if text == "" {
      ParseOnly(line);
    } else {
      var first, rest := FirstLine(text);
      ParseFirst(text, first, rest);
      assert text + line + "\n" == first + "\n" + (rest + line + "\n");
      ParseFirst(text + line + "\n", first, rest + line + "\n");
      ParseAppends(rest, line);
      MapsAssociate(ParseLine(first), ParseSums(rest), ParseLine(line));
    }
  }

  lemma LastIsEnd(text: Bytes)
    requires text != "" && WholeLines(text)
    ensures LineEnd(text) < |text| && WholeLines(text[LineEnd(text) + 1..])
  {
    hide LineEnd;
    var k, n := LineEnd(text), |text| - 1;
    assert text[n] == '\n';
    if k < n { assert text[k + 1..][n - k - 1] == text[n]; }
  }

  lemma LineParses(digest: Bytes, path: Bytes)
    requires ' ' !in digest
    ensures ParseLine(digest + "  " + path) == map[path := digest]
  {
    var line := digest + "  " + path;
    GapIs(digest, path);
    assert line[..|digest|] == digest && line[|digest| + 2..] == path;
  }

  lemma OneMore(sums: map<string, string>, paths: seq<string>, p: string)
    requires (forall q :: q in paths ==> q in sums) && p in sums
    ensures (map q | q in paths :: sums[q]) + map[p := sums[p]] == map q | q in paths + [p] :: sums[q]
  {}

  /** The table reads back to exactly the digests it was made from. */
  lemma {:induction false} SumLinesReadBack(sums: map<string, string>, paths: seq<string>)
    requires forall p :: p in paths ==> p in sums && ' ' !in sums[p] && '\n' !in sums[p] && '\n' !in p
    ensures WholeLines(SumLines(sums, paths))
    ensures ParseSums(SumLines(sums, paths)) == map p | p in paths :: sums[p]
  {
    if paths == [] {
      assert ParseSums("") == map[];
    } else {
      var n := |paths| - 1;
      var text, p := SumLines(sums, paths[..n]), paths[n];
      assert SumLines(sums, paths) == text + (sums[p] + "  " + p) + "\n";
      hide ParseSums, ParseLine, SumLines;
      assert paths == paths[..n] + [p];
      forall q | q in paths[..n] ensures q in paths {}
      SumLinesReadBack(sums, paths[..n]);
      ParseAppends(text, sums[p] + "  " + p);
      LineParses(sums[p], p);
      OneMore(sums, paths[..n], p);
    }
  }

  /** An accepted SHA256SUMS, parsed line by line, maps every other file to its digest and lists nothing else. */
  lemma SumsSay(t: Tools, raw: Bytes, version: string, arch: string)
    requires ReadsUstar(t) && IsVersion(version) && IsArch(arch) && Accepts(t, raw, version, arch)
    requires forall data :: Hex(t.sha(data), 64)
    ensures t.read(raw).Some? && SUMS_PATH in ContentsOf(t.read(raw).value, TopDir(version, arch))
    ensures var c := ContentsOf(t.read(raw).value, TopDir(version, arch));
      ParseSums(c[SUMS_PATH]) == map r | r in c && r != SUMS_PATH :: t.sha(c[r])
  {
    hide MembersOk, ContentsOk, Contains, IsVersion, IsArch, TarBytes, FactsFor, GoodKeys, ContentsOf, ReadsUstar,
         ParseSums, SumLines;
    AcceptedIsCanonical(t, raw, version, arch);
    var c := ContentsOf(t.read(raw).value, TopDir(version, arch));
    RequiredPresent(c);
    var sums := map r | r in c :: t.sha(c[r]);
    var paths := Order.Sorted(c.Keys - {SUMS_PATH});
    Order.SortedLists(c.Keys - {SUMS_PATH});
    forall p | p in paths ensures p in sums && ' ' !in sums[p] && '\n' !in sums[p] && '\n' !in p {
      NoNewline(c, p);
      assert Hex(t.sha(c[p]), 64);
    }
    SumLinesReadBack(sums, paths);
  }

  /** No file of a release has a line break in its path, however it is spelled. */
  lemma NoNewline(c: Contents, r: string)
    requires GoodKeys(c) && r in c
    ensures '\n' !in r
  {
    if r in REQUIRED {
      RequiredHasNoNewline(r);
    } else {
      LicenseHasNoNewline(r);
    }
  }

  lemma RequiredHasNoNewline(r: string)
    requires r in REQUIRED
    ensures '\n' !in r
  {}

  lemma LicenseHasNoNewline(r: string)
    requires IsLicense(r)
    ensures '\n' !in r
  {
    hide Components, Plain;
    var plain := Normal(r);
    assert plain == LICENSE_DIR + "/" + plain[|LICENSE_DIR| + 1..];
    LicenseNames(plain[|LICENSE_DIR| + 1..]);
    assert '\n' !in plain;
    if '\n' in r { NormalKeepsNewline(r); }
  }

  lemma NormalKeepsNewline(r: string)
    requires '\n' in r
    ensures '\n' in Normal(r)
  {
    var x := InComponent(r);
    KeptOf(Components(r));
    InJoined(Kept(Components(r)), x);
  }

  lemma {:induction false} InComponent(s: string) returns (x: string)
    requires '\n' in s
    ensures x in Components(s) && '\n' in x
  {
    var rest := Components(s[1..]);
    if s[0] == '\n' {
      x := [s[0]] + rest[0];
      assert Components(s)[0] == x;
    } else {
      assert s == [s[0]] + s[1..];
      var y := InComponent(s[1..]);
      if s[0] != '/' && y == rest[0] {
        x := [s[0]] + rest[0];
        assert Components(s)[0] == x;
      } else {
        x := y;
        var k :| 0 <= k < |rest| && rest[k] == y;
        assert s[0] == '/' ==> Components(s)[k + 1] == y;
        assert s[0] != '/' ==> k > 0 && Components(s)[k] == y;
      }
    }
  }

  lemma {:induction false} InJoined(cs: seq<string>, x: string)
    requires x in cs && '\n' in x
    ensures '\n' in Joined(cs)
  {
    if |cs| > 1 && x != cs[0] {
      assert x in cs[1..];
      InJoined(cs[1..], x);
    }
  }
}
