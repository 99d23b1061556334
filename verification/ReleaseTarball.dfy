/**
  `pack` and `verify` of the bridge release tarball, on the uncompressed stream. SHA-256, the JSON
  codec, the tar reader and the checks of the build metadata are parameters.
 */
module ReleaseTarball {
  import opened Options
  import opened Ustar
  import opened ReleaseLayout
  import opened PosixPaths
  import Order = SortedStrings

  type Contents = map<string, Bytes>

  const WEB_UI_MARKER: Bytes := "Objective Development Software GmbH"

  // ---------------------------------------------------------------- the canonical stream

  function FullName(top: string, rel: string): string { top + "/" + rel }

  /** The path below the top directory; the top directory itself is "". */
  function RelOf(top: string, name: string): string {
    if name == top || |name| <= |top| then "" else name[|top| + 1..]
  }

  function Names(top: string, contents: Contents): set<string> {
    {top} + (set d | d in DIRS :: FullName(top, d)) + (set r | r in contents :: FullName(top, r))
  }

  function EntryFor(top: string, contents: Contents, name: string): Entry {
    var rel := RelOf(top, name);
    if name != top && rel in contents then Entry(name, Some(contents[rel]), ModeFor(rel))
    else Entry(name, None, DIR_MODE)
  }

  ghost function TarEntries(top: string, contents: Contents): (es: seq<Entry>)
    ensures |es| == |Order.Sorted(Names(top, contents))|
    ensures forall i :: 0 <= i < |es| ==> es[i] == EntryFor(top, contents, Order.Sorted(Names(top, contents))[i])
  {
    var names := Order.Sorted(Names(top, contents));
    seq(|names|, i requires 0 <= i < |names| => EntryFor(top, contents, names[i]))
  }

  /** `tar_bytes`; `None` where `tarfile` raises because a name or size does not fit ustar. */
  ghost function TarBytes(top: string, contents: Contents, mtime: nat): Option<Bytes> {
    var es := TarEntries(top, contents);
    if AllEncodable(es, mtime) then Some(Stream(es, mtime)) else None
  }

  /** The writer's loop over the sorted names; `tarfile` raises at the first member that does not fit. */
  method WriteTar(top: string, contents: Contents, mtime: nat) returns (raw: Option<Bytes>)
    ensures raw == TarBytes(top, contents, mtime)
  {
    hide Encodable, Blocks, EntryFor, Names, Body;
    var names := Order.SortSet(Names(top, contents));
    ghost var es := TarEntries(top, contents);
    var body: Bytes := [];
    assert body == Body(es[..0], mtime) by { EmptyBody(mtime); }
    for n := 0 to |names|
      invariant AllEncodable(es[..n], mtime) && body == Body(es[..n], mtime)
    {
      var e := EntryFor(top, contents, names[n]);
      assert e == es[n];
      if !Encodable(e, mtime) { return None; }
      BodyAppends(es[..n], e, mtime);
      assert es[..n + 1] == es[..n] + [e];
      body := body + Blocks(e, mtime);
    }
    assert es[..|names|] == es;
    raw := Some(body + Fill(RoundUp(|body| + 2 * BLOCK, RECORD) - |body|));
  }

  lemma EmptyBody(mtime: nat)
    ensures Body([], mtime) == []
  {}

  // ---------------------------------------------------------------- manifest and checksums

  /** The `build`, `upstream` and `runtime` sections, as their JSON text. */
  datatype Meta = Meta(text: string)

  datatype Source = Source(commit: string, tag: Option<string>, dirty: bool, epoch: int)

  datatype Install = Install(binary: string, unit: string, unitName: string, unitScope: string)

  const INSTALL: Install := Install("/" + BIN_PATH, "/" + UNIT_PATH, "snitchwatch-bridge.service", "user")

  datatype Fact = Fact(path: string, mode: nat, size: nat, sha: string)

  datatype Manifest = Manifest(schema: int, name: string, version: string, arch: string, source: Source, meta: Meta,
                               install: Install, files: seq<Fact>)

  /** What is outside the model: the hash, the JSON codec, the metadata checks and the tar reader. */
  datatype Tools = Tools(sha: Bytes -> string, encode: Manifest -> Bytes, decode: Bytes -> Option<Manifest>,
                         metaOk: Meta -> bool, read: Bytes -> Option<seq<Member>>)

  /** The JSON codec reads back what it wrote. */
  ghost predicate CodecRoundTrips(t: Tools) { forall m :: t.decode(t.encode(m)) == Some(m) }

  /** The reader reads written streams back. What it makes of any other input is left open. */
  ghost predicate ReadsUstar(t: Tools) {
    forall es, mtime | AllEncodable(es, mtime) :: t.read(Stream(es, mtime)) == Some(ReadBackAll(es, mtime))
  }

  ghost function FactsFor(t: Tools, files: Contents): seq<Fact> {
    var paths := Order.Sorted(files.Keys);
    Order.SortedLists(files.Keys);
    seq(|paths|, i requires 0 <= i < |paths| =>
      (assert paths[i] in paths; Fact(paths[i], ModeFor(paths[i]), |files[paths[i]]|, t.sha(files[paths[i]]))))
  }

  ghost function BuildManifest(t: Tools, version: string, arch: string, source: Source, meta: Meta,
                               files: Contents): Manifest {
    Manifest(1, NAME, version, arch, source, meta, INSTALL, FactsFor(t, files))
  }

  /** `<sha256>  <path>` per line, for the given paths in order. */
  function SumLines(sums: map<string, string>, paths: seq<string>): Bytes {
    if paths == [] then ""
    else SumLines(sums, paths[..|paths| - 1])
         + (if paths[|paths| - 1] in sums then sums[paths[|paths| - 1]] else "") + "  " + paths[|paths| - 1] + "\n"
  }

  ghost function SumsText(t: Tools, contents: Contents): Bytes {
    SumLines(map r | r in contents :: t.sha(contents[r]), Order.Sorted(contents.Keys - {SUMS_PATH}))
  }

  predicate IsHex(s: string, length: nat) {
    |s| == length && forall i :: 0 <= i < |s| ==> Digit(s[i]) || 'a' <= s[i] <= 'f'
  }

  /** Shared by `validate_pack_args` and `check_source`. */
  predicate SourceOk(s: Source, version: string) {
    && IsHex(s.commit, 40) && (s.tag.Some? ==> s.tag.value == "v" + version && !s.dirty)
    && 0 <= s.epoch <= MAX_MTIME
  }

  // ---------------------------------------------------------------- pack

  /** `collect_stage`; only a walk of a directory gives `files`, so their paths are normal ones. */
  predicate StageOk(files: Contents) {
    && BIN_PATH in files && UNIT_PATH in files
    && (forall r :: r in files ==> r in {BIN_PATH, UNIT_PATH} || IsLicense(r))
    && exists r :: r in files && IsLicense(r)
  }

  /** The staged files plus the two generated ones. */
  ghost function Packed(t: Tools, version: string, arch: string, source: Source, meta: Meta,
                        files: Contents): Contents {
    var listed := files[MANIFEST_PATH := t.encode(BuildManifest(t, version, arch, source, meta, files))];
    listed[SUMS_PATH := SumsText(t, listed)]
  }

  /** `cmd_pack` up to compression: `None` for every refusal. */
  ghost function Pack(t: Tools, version: string, arch: string, source: Source, meta: Meta,
                      files: Contents): Option<Bytes> {
    if IsVersion(version) && IsArch(arch) && SourceOk(source, version) && t.metaOk(meta) && StageOk(files)
    then TarBytes(TopDir(version, arch), Packed(t, version, arch, source, meta, files), source.epoch)
    else None
  }

  // ---------------------------------------------------------------- verify

  /** A path component `..`. */
  predicate DotDot(name: string) { ".." in Components(name) }

  /** `check_member`. */
  predicate MemberOk(m: Member, top: string) {
    && !(m.name != "" && m.name[0] == '/') && !DotDot(m.name)
    && (m.name == top || (|m.name| > |top| && m.name[..|top| + 1] == top + "/"))
    && m.kind in {REGULAR, DIRECTORY}
    && m.uid == 0 && m.gid == 0 && m.uname == "root" && m.gname == "root"
  }

  ghost predicate MembersOk(ms: seq<Member>, top: string) {
    && (forall i :: 0 <= i < |ms| ==> MemberOk(ms[i], top))
    && forall i, j :: 0 <= i < j < |ms| ==> ms[i].name != ms[j].name
  }

  /** `check_members`: no complaint exactly when every member is in order and no name repeats. */
  method CheckMembers(ms: seq<Member>, top: string) returns (ok: bool)
    ensures ok <==> MembersOk(ms, top)
  {
    hide MemberOk;
    ok := true;
    var seen: set<string> := {};
    for n := 0 to |ms|
      invariant seen == set i | 0 <= i < n :: ms[i].name
      invariant ok <==> MembersOk(ms[..n], top)
    {
      MembersOkStep(ms, n, top);
      if !MemberOk(ms[n], top) { ok := false; }
      if ms[n].name in seen { ok := false; }
      seen := seen + {ms[n].name};
    }
    assert ms[..|ms|] == ms;
  }

  lemma MembersOkStep(ms: seq<Member>, n: nat, top: string)
    requires n < |ms|
    ensures MembersOk(ms[..n + 1], top) <==>
      MembersOk(ms[..n], top) && MemberOk(ms[n], top) && forall i :: 0 <= i < n ==> ms[i].name != ms[n].name
  {}

  /** Members by relative path; of two with the same path the later one stays. */
  function ByRel(ms: seq<Member>, top: string): map<string, Member> {
    if ms == [] then map[]
    else ByRel(ms[..|ms| - 1], top)[RelOf(top, ms[|ms| - 1].name) := ms[|ms| - 1]]
  }

  function ContentsOf(ms: seq<Member>, top: string): Contents {
    if ms == [] then map[]
    else
      var rest, last := ContentsOf(ms[..|ms| - 1], top), ms[|ms| - 1];
      if last.kind == REGULAR then rest[RelOf(top, last.name) := last.data] else rest
  }

  /** `read_tar`'s loop, with the dictionary `check_contents` builds from the same members. */
  method ReadFiles(ms: seq<Member>, top: string) returns (contents: Contents, found: map<string, Member>)
    ensures contents == ContentsOf(ms, top) && found == ByRel(ms, top)
  {
    contents, found := map[], map[];
    for n := 0 to |ms|
      invariant contents == ContentsOf(ms[..n], top) && found == ByRel(ms[..n], top)
    {
      assert ms[..n + 1][..n] == ms[..n];
      var rel := RelOf(top, ms[n].name);
      found := found[rel := ms[n]];
      if ms[n].kind == REGULAR { contents := contents[rel := ms[n].data]; }
    }
    assert ms[..|ms|] == ms;
  }

  ghost predicate LayoutOk(found: map<string, Member>) {
    var dirs := set r | r in found && found[r].kind == DIRECTORY;
    var files := found.Keys - dirs;
    && dirs == {""} + DIRS && REQUIRED <= files
    && (forall r :: r in files - REQUIRED ==> IsLicense(r)) && (exists r :: r in files && IsLicense(r))
    && forall r :: r in found ==> found[r].mode == if found[r].kind == DIRECTORY then DIR_MODE else ModeFor(r)
  }

  /** What the tarball's own members say: path, header mode, size and hash. */
  function ActualFacts(t: Tools, found: map<string, Member>, contents: Contents): map<string, Fact> {
    map r | r in contents && r in found :: Fact(r, found[r].mode, |contents[r]|, t.sha(contents[r]))
  }

  ghost predicate ManifestFilesOk(files: seq<Fact>, actual: map<string, Fact>) {
    && |files| == |Order.Sorted(actual.Keys - GENERATED)|
    && (forall i :: 0 <= i < |files| ==> files[i].path == Order.Sorted(actual.Keys - GENERATED)[i])
    && forall i :: 0 <= i < |files| ==> files[i].path in actual && files[i] == actual[files[i].path]
  }

  ghost predicate ManifestOk(t: Tools, m: Manifest, version: string, arch: string) {
    && m.schema == 1 && m.name == NAME && m.version == version && m.arch == arch && m.install == INSTALL
    && SourceOk(m.source, version) && t.metaOk(m.meta)
  }

  predicate StartsAt(s: Bytes, marker: Bytes, i: int) { 0 <= i <= |s| - |marker| && s[i..i + |marker|] == marker }

  predicate Contains(s: Bytes, marker: Bytes) { exists i :: 0 <= i <= |s| && StartsAt(s, marker, i) }

  /** `check_contents`, with `read_tar`'s two results. */
  ghost predicate ContentsOk(t: Tools, raw: Bytes, ms: seq<Member>, contents: Contents, version: string, arch: string) {
    var top := TopDir(version, arch);
    var found := ByRel(ms, top);
    && LayoutOk(found) && MANIFEST_PATH in contents && SUMS_PATH in contents && BIN_PATH in contents
    && var m := t.decode(contents[MANIFEST_PATH]);
       var actual := ActualFacts(t, found, contents);
       && m.Some? && t.encode(m.value) == contents[MANIFEST_PATH]
       && ManifestOk(t, m.value, version, arch)
       && ManifestFilesOk(m.value.files, actual)
       && contents[SUMS_PATH] == SumLines(map r | r in actual :: actual[r].sha, Order.Sorted(actual.Keys - {SUMS_PATH}))
       && (forall i :: 0 <= i < |ms| ==> ms[i].mtime == m.value.source.epoch)
       && TarBytes(top, contents, m.value.source.epoch) == Some(raw)
       && !Contains(contents[BIN_PATH], WEB_UI_MARKER)
  }

  /** `verify_tarball` on the decompressed stream. */
  ghost predicate Accepts(t: Tools, raw: Bytes, version: string, arch: string) {
    var top := TopDir(version, arch);
    var ms := t.read(raw);
    && ms.Some? && MembersOk(ms.value, top)
    && ContentsOk(t, raw, ms.value, ContentsOf(ms.value, top), version, arch)
  }
}
