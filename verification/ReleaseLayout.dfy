/** The release tarball's fixed layout, its names and what `--version` and `--arch` may be. */
module ReleaseLayout {
  import opened Options
  import opened PosixPaths

  const NAME: string := "snitchwatch-bridge"
  const BIN_DIR: string := "usr" + "/" + "bin"
  const LIB_DIR: string := "usr" + "/" + "lib"
  const SYSTEMD_DIR: string := LIB_DIR + "/" + "systemd"
  const UNIT_DIR: string := SYSTEMD_DIR + "/" + "user"
  const SHARE_DIR: string := "usr" + "/" + "share"
  const LICENSES_DIR: string := SHARE_DIR + "/" + "licenses"
  const LICENSE_DIR: string := LICENSES_DIR + "/" + NAME
  const DATA_DIR: string := SHARE_DIR + "/" + NAME
  const BIN_PATH: string := BIN_DIR + "/" + "snitchwatch-bridge-cli"
  const UNIT_PATH: string := UNIT_DIR + "/" + "snitchwatch-bridge.service"
  const MANIFEST_PATH: string := DATA_DIR + "/" + "MANIFEST.json"
  const SUMS_PATH: string := DATA_DIR + "/" + "SHA256SUMS"

  const GENERATED: set<string> := {MANIFEST_PATH, SUMS_PATH}
  const REQUIRED: set<string> := {BIN_PATH, UNIT_PATH, MANIFEST_PATH, SUMS_PATH}

  const DIRS: set<string> := {
    "usr", BIN_DIR, LIB_DIR, SYSTEMD_DIR, UNIT_DIR, SHARE_DIR, LICENSES_DIR, LICENSE_DIR, DATA_DIR}

  predicate Digit(c: char) { '0' <= c <= '9' }
  predicate Alnum(c: char) { Digit(c) || 'a' <= c <= 'z' || 'A' <= c <= 'Z' }

  /** A license file name: an alphanumeric, then alphanumerics, dots, underscores and dashes. */
  predicate LicenseName(s: string) {
    s != "" && Alnum(s[0]) && forall i :: 0 <= i < |s| ==> Alnum(s[i]) || s[i] in {'.', '_', '-'}
  }

  /** `is_license`: a license file directly in the license directory, once the path is normalised. */
  predicate IsLicense(rel: string) { rel != "" && rel[0] != '/' && PlainLicense(Normal(rel)) }

  /** The same, spelled without empty or `.` components, as every path of a directory walk is. */
  predicate PlainLicense(rel: string) {
    var n := |LICENSE_DIR| + 1;
    |rel| > n && rel[..n] == LICENSE_DIR + "/" && LicenseName(rel[n..])
  }

  function ModeFor(rel: string): nat { if rel == BIN_PATH then 0x1ED else 0x1A4 }

  const DIR_MODE: nat := 0x1ED

  // ---------------------------------------------------------------- versions and names

  /** The end of the run of digits that starts at `i`. */
  function DigitsFrom(s: string, i: nat): (end: nat)
    requires i <= |s|
    ensures i <= end <= |s| && forall k :: i <= k < end ==> Digit(s[k])
    decreases |s| - i
  {
    if i < |s| && Digit(s[i]) then DigitsFrom(s, i + 1) else i
  }

  predicate VersionChar(c: char) { Alnum(c) || c in {'.', '+', '-'} }

  /** Three dotted numbers, optionally followed by `-` or `+` and a suffix. */
  predicate IsVersion(s: string) {
    var a := DigitsFrom(s, 0);
    && 0 < a < |s| && s[a] == '.'
    && var b := DigitsFrom(s, a + 1);
       && a + 1 < b < |s| && s[b] == '.'
       && var c := DigitsFrom(s, b + 1);
          && b + 1 < c
          && (c == |s| || (s[c] in {'-', '+'} && c + 1 < |s| && forall k :: c < k < |s| ==> VersionChar(s[k])))
  }

  predicate ArchChar(c: char) { Digit(c) || 'a' <= c <= 'z' || c == '_' }

  predicate IsArch(s: string) { s != "" && forall k :: 0 <= k < |s| ==> ArchChar(s[k]) }

  predicate AllDigits(s: string) { s != "" && forall k :: 0 <= k < |s| ==> '0' <= s[k] <= '9' }

  /** What may follow the numbers of a version: nothing, or a dash or plus and at least one more character. */
  predicate IsTail(s: string) {
    s == "" || (s[0] in {'-', '+'} && |s| > 1 && forall k :: 1 <= k < |s| ==> VersionChar(s[k]))
  }

  lemma {:induction false} DigitsUpTo(s: string, i: nat, end: nat)
    requires i <= end <= |s| && (forall k :: i <= k < end ==> Digit(s[k])) && (end < |s| ==> !Digit(s[end]))
    ensures DigitsFrom(s, i) == end
    decreases end - i
  {
    if i < end { DigitsUpTo(s, i + 1, end); }
  }

  /** The versions: three dotted numbers and a tail. */
  lemma VersionsAre(a: string, b: string, c: string, tail: string)
    requires AllDigits(a) && AllDigits(b) && AllDigits(c) && IsTail(tail)
    ensures IsVersion(a + "." + b + "." + c + tail)
  {
    var s := a + "." + b + "." + c + tail;
    var i, j := |a| + 1, |a| + |b| + 2;
    assert s[|a|] == '.' && s[j - 1] == '.';
    forall k | 0 <= k < |a| ensures Digit(s[k]) { assert s[k] == a[k]; }
    forall k | i <= k < j - 1 ensures Digit(s[k]) { assert s[k] == b[k - i]; }
    forall k | j <= k < j + |c| ensures Digit(s[k]) { assert s[k] == c[k - j]; }
    forall k | j + |c| <= k < |s| ensures s[k] == tail[k - j - |c|] {}
    DigitsUpTo(s, 0, |a|);
    DigitsUpTo(s, i, j - 1);
    DigitsUpTo(s, j, j + |c|);
  }

  lemma VersionHasParts(s: string) returns (a: string, b: string, c: string, tail: string)
    requires IsVersion(s)
    ensures AllDigits(a) && AllDigits(b) && AllDigits(c) && IsTail(tail) && s == a + "." + b + "." + c + tail
  {
    var i := DigitsFrom(s, 0);
    var j := DigitsFrom(s, i + 1);
    var k := DigitsFrom(s, j + 1);
    hide DigitsFrom;
    a, b, c, tail := s[..i], s[i + 1..j], s[j + 1..k], s[k..];
    DigitRun(s, 0, i);
    DigitRun(s, i + 1, j);
    DigitRun(s, j + 1, k);
    forall n | 1 <= n < |tail| ensures VersionChar(tail[n]) { assert tail[n] == s[k + n]; }
    CutInFive(s, i, j, k);
  }

  lemma DigitRun(s: string, i: nat, j: nat)
    requires i < j <= |s| && forall k :: i <= k < j ==> Digit(s[k])
    ensures AllDigits(s[i..j])
  {}

  lemma CutInFive(s: string, i: nat, j: nat, k: nat)
    requires i < j < k <= |s| && s[i] == '.' && s[j] == '.'
    ensures s == s[..i] + "." + s[i + 1..j] + "." + s[j + 1..k] + s[k..]
  {}

  function TopDir(version: string, arch: string): string { NAME + "-" + version + "-" + arch }

  const SUFFIX: string := ".tar.gz"

  function LastDash(s: string): (k: int)
    ensures -1 <= k < |s| && (k >= 0 ==> s[k] == '-') && forall j :: k < j < |s| ==> s[j] != '-'
  {
    if s == "" then -1 else if s[|s| - 1] == '-' then |s| - 1 else LastDash(s[..|s| - 1])
  }

  /** `parse_tarball_name`: the architecture has no dash, so the last dash ends the version. */
  function ParseTarballName(file: string): Option<(string, string)> {
    var head := NAME + "-";
    if |file| < |head| + |SUFFIX| || file[..|head|] != head || file[|file| - |SUFFIX|..] != SUFFIX then None
    else
      var middle := file[|head|..|file| - |SUFFIX|];
      var k := LastDash(middle);
      if k < 0 then None
      else
        var version, arch := middle[..k], middle[k + 1..];
        if IsVersion(version) && IsArch(arch) then Some((version, arch)) else None
  }

  /** The name `pack` writes parses back to its version and architecture, dashes in the version included. */
  lemma TarballNameRoundTrip(version: string, arch: string)
    requires IsVersion(version) && IsArch(arch)
    ensures ParseTarballName(TopDir(version, arch) + SUFFIX) == Some((version, arch))
  {
    hide IsVersion, IsArch, LastDash;
    var head, middle := NAME + "-", version + "-" + arch;
    assert TopDir(version, arch) + SUFFIX == head + middle + SUFFIX;
    Affixed(head, middle, SUFFIX);
    DashBeforeArch(version, arch);
    assert middle[..|version|] == version && middle[|version| + 1..] == arch;
  }

  lemma Affixed(head: string, middle: string, tail: string)
    ensures var all := head + middle + tail;
      && |all| == |head| + |middle| + |tail| && all[..|head|] == head && all[|all| - |tail|..] == tail
      && all[|head|..|all| - |tail|] == middle
  {}

  lemma DashBeforeArch(version: string, arch: string)
    requires IsArch(arch)
    ensures LastDash(version + "-" + arch) == |version|
  {
    var middle := version + "-" + arch;
    assert middle[|version|] == '-';
    forall j | |version| < j < |middle| ensures middle[j] != '-' {
      assert ArchChar(arch[j - |version| - 1]);
    }
  }

  /** Whatever parses is named exactly so. */
  lemma ParsedNameIsCanonical(file: string)
    requires ParseTarballName(file).Some?
    ensures var (version, arch) := ParseTarballName(file).value; file == TopDir(version, arch) + SUFFIX
  {}

  // ---------------------------------------------------------------- facts about the layout

  lemma DirsArePlain()
    ensures Plain("usr") && Plain(BIN_DIR) && Plain(LIB_DIR) && Plain(SYSTEMD_DIR) && Plain(UNIT_DIR)
    ensures Plain(SHARE_DIR) && Plain(LICENSES_DIR) && Plain(LICENSE_DIR) && Plain(DATA_DIR)
  {
    UsrIsPlain();
    hide Plain;
    PlainBelow("usr", "bin");
    PlainBelow("usr", "lib");
    PlainBelow(LIB_DIR, "systemd");
    PlainBelow(SYSTEMD_DIR, "user");
    PlainBelow("usr", "share");
    PlainBelow(SHARE_DIR, "licenses");
    PlainBelow(LICENSES_DIR, NAME);
    PlainBelow(SHARE_DIR, NAME);
  }

  lemma UsrIsPlain()
    ensures Plain("usr")
  {}

  lemma DirFacts(d: string)
    requires d in DIRS
    ensures Plain(d) && d != "" && d[|d| - 1] != '/' && d !in REQUIRED && |d| <= |LICENSE_DIR|
  {
    hide Plain;
    DirsArePlain();
  }

  /** The fixed files are plain paths, none of them a license. */
  lemma RequiredFacts(f: string)
    requires f in REQUIRED
    ensures Plain(f) && !IsLicense(f)
  {
    hide Plain, IsLicense;
    if f == BIN_PATH { BinFacts(); } else if f == UNIT_PATH { UnitFacts(); } else { GeneratedFacts(f); }
  }

  lemma BinFacts()
    ensures Plain(BIN_PATH) && |BIN_PATH| == 30 && !IsLicense(BIN_PATH)
  {
    hide Plain, Normal;
    DirsArePlain();
    PlainBelow(BIN_DIR, "snitchwatch-bridge-cli");
    PlainIsNormal(BIN_PATH);
  }

  lemma UnitFacts()
    ensures Plain(UNIT_PATH) && |UNIT_PATH| == 47 && !IsLicense(UNIT_PATH)
  {
    hide Plain, Normal;
    DirsArePlain();
    PlainBelow(UNIT_DIR, "snitchwatch-bridge.service");
    PlainIsNormal(UNIT_PATH);
    LicensesShare(UNIT_PATH);
    assert UNIT_PATH[4] == 'l';
  }

  lemma GeneratedFacts(f: string)
    requires f in GENERATED
    ensures Plain(f) && !IsLicense(f)
  {
    hide Plain, Normal;
    DirsArePlain();
    if f == MANIFEST_PATH {
      PlainBelow(DATA_DIR, "MANIFEST.json");
    } else {
      PlainBelow(DATA_DIR, "SHA256SUMS");
    }
    PlainIsNormal(f);
    LicensesShare(f);
    assert f[10] == 's';
  }

  lemma LicensesShare(f: string)
    ensures PlainLicense(f) ==> |f| > |LICENSE_DIR| && f[4] == 's' && f[10] == 'l'
  {}

  lemma PlainLicenseFacts(f: string)
    requires PlainLicense(f)
    ensures Plain(f) && IsLicense(f) && |f| > |LICENSE_DIR|
  {
    hide Plain, Normal;
    var base := f[|LICENSE_DIR| + 1..];
    assert f == LICENSE_DIR + "/" + base;
    forall i | 0 <= i < |base| ensures base[i] != '/' { assert Alnum(base[i]) || base[i] in {'.', '_', '-'}; }
    DirsArePlain();
    PlainBelow(LICENSE_DIR, base);
    PlainIsNormal(f);
  }

  lemma FixedDirs()
    ensures UNIT_DIR == "usr/lib/systemd/user"
  {
    assert LIB_DIR == "usr/lib";
    assert SYSTEMD_DIR == "usr/lib/systemd";
  }

  lemma FixedShare()
    ensures DATA_DIR == "usr/share/snitchwatch-bridge"
  {
    assert SHARE_DIR == "usr/share";
  }

  /** Where the binary and the unit are installed, spelled out. */
  lemma BinIsThere()
    ensures BIN_PATH == "usr/bin/snitchwatch-bridge-cli"
  {
    assert BIN_DIR == "usr/bin";
  }

  lemma UnitIsThere()
    ensures UNIT_PATH == "usr/lib/systemd/user/snitchwatch-bridge.service"
  {
    FixedDirs();
    assert UNIT_PATH == UNIT_DIR + "/snitchwatch-bridge.service";
  }

  lemma TablesAreThere()
    ensures MANIFEST_PATH == "usr/share/snitchwatch-bridge/MANIFEST.json"
    ensures SUMS_PATH == "usr/share/snitchwatch-bridge/SHA256SUMS"
  {
    FixedShare();
    assert MANIFEST_PATH == DATA_DIR + "/MANIFEST.json" && SUMS_PATH == DATA_DIR + "/SHA256SUMS";
  }

  /** What a license may be called. */
  lemma LicenseNames(s: string)
    ensures LicenseName(s) <==>
      s != "" && s[0] !in {'.', '_', '-'} && forall c :: c in s ==>
        '0' <= c <= '9' || 'a' <= c <= 'z' || 'A' <= c <= 'Z' || c == '.' || c == '_' || c == '-'
  {
    if LicenseName(s) {
      forall c | c in s ensures Alnum(c) || c in {'.', '_', '-'} { var i :| 0 <= i < |s| && s[i] == c; }
    }
    forall i | 0 <= i < |s| ensures s[i] in s {}
  }

  /** No file of a release climbs out, is absolute, or is one of the directories. */
  lemma FileFacts(f: string)
    requires f in REQUIRED || IsLicense(f)
    ensures ".." !in Components(f) && f !in DIRS && f != "" && f[0] != '/'
  {
    hide Plain, Normal, PlainLicense;
    if f in REQUIRED {
      RequiredFacts(f);
      PlainIsNormal(f);
    } else {
      PlainLicenseFacts(Normal(f));
      NormalKeepsDotDot(f);
    }
    if f in DIRS {
      DirFacts(f);
      PlainIsNormal(f);
    }
  }

  /** `is_license` takes a path that no directory walk yields. */
  lemma DoubledSlashIsLicense(name: string)
    requires LicenseName(name)
    ensures IsLicense(LICENSE_DIR + "//" + name) && !PlainLicense(LICENSE_DIR + "//" + name)
  {
    hide Plain, Normal;
    var odd, plain := LICENSE_DIR + "//" + name, LICENSE_DIR + "/" + name;
    DoubledSlash(LICENSE_DIR, name);
    assert plain[38..] == name && plain[..38] == LICENSE_DIR + "/";
    PlainLicenseFacts(plain);
    PlainIsNormal(plain);
    assert odd[38] == '/' && odd[38..][0] == '/';
  }
}
