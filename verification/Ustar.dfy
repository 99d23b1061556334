/**
  The uncompressed tar stream: the "ustar Interchange Format" of POSIX.1, as `tarfile` writes it
  for regular files and directories owned by root, and as it reads it back. A byte is a character
  below 256.
 */
module Ustar {
  import opened Options

  type Bytes = string

  const NUL: char := '\0'
  const BLOCK: nat := 512
  const RECORD: nat := 10240
  const NAME_LIMIT: nat := 100
  const PREFIX_LIMIT: nat := 155
  const REGULAR: char := '0'
  const DIRECTORY: char := '5'
  const MAX_MTIME: nat := 8589934591

  predicate IsBytes(s: Bytes) { forall i :: 0 <= i < |s| ==> s[i] as int < 256 }

  // ---------------------------------------------------------------- text and number fields

  function Fill(n: nat): Bytes { seq(n, _ => NUL) }

  /** A text field: the text, then NULs. */
  function Text(s: Bytes, width: nat): Bytes
    requires |s| <= width
  {
    s + Fill(width - |s|)
  }

  /** A text field up to its first NUL. */
  function CutAtNul(field: Bytes): Bytes {
    if field == [] || field[0] == NUL then [] else [field[0]] + CutAtNul(field[1..])
  }

  lemma {:induction false} TextRoundTrip(s: Bytes, width: nat)
    requires |s| <= width && NUL !in s
    ensures CutAtNul(Text(s, width)) == s
  {
    if s == [] {
      assert Text(s, width) == Fill(width);
    } else {
      assert Text(s, width)[1..] == Text(s[1..], width - 1);
      TextRoundTrip(s[1..], width - 1);
    }
  }

  function Pow8(n: nat): nat { if n == 0 then 1 else 8 * Pow8(n - 1) }

  function Octal(n: nat, digits: nat): Bytes {
    if digits == 0 then [] else Octal(n / 8, digits - 1) + [('0' as int + n % 8) as char]
  }

  predicate IsOctal(s: Bytes) { forall i :: 0 <= i < |s| ==> '0' <= s[i] <= '7' }

  function OctalValue(s: Bytes): nat
    requires IsOctal(s)
  {
    if s == [] then 0 else 8 * OctalValue(s[..|s| - 1]) + (s[|s| - 1] as int - '0' as int)
  }

  lemma {:induction false} OctalRoundTrip(n: nat, digits: nat)
    requires n < Pow8(digits)
    ensures |Octal(n, digits)| == digits && IsOctal(Octal(n, digits)) && OctalValue(Octal(n, digits)) == n
  {
    if digits > 0 {
      OctalRoundTrip(n / 8, digits - 1);
      var s := Octal(n, digits);
      assert s[..|s| - 1] == Octal(n / 8, digits - 1);
    }
  }

  /** A number field: octal digits and one NUL. */
  function Number(n: nat, width: nat): Bytes
    requires width > 0
  {
    Octal(n, width - 1) + [NUL]
  }

  function TrimSpaces(s: Bytes): Bytes {
    if s != [] && s[0] == ' ' then TrimSpaces(s[1..])
    else if s != [] && s[|s| - 1] == ' ' then TrimSpaces(s[..|s| - 1])
    else s
  }

  /** A number field read back: blank reads as 0, anything but octal digits is invalid. */
  function ReadNumber(field: Bytes): Option<nat> {
    var t := TrimSpaces(CutAtNul(field));
    if IsOctal(t) then Some(OctalValue(t)) else None
  }

  lemma OctalNeedsNoTrim(s: Bytes)
    requires IsOctal(s)
    ensures TrimSpaces(s) == s && NUL !in s
  {}

  lemma NumberRoundTrip(n: nat, width: nat, tail: Bytes)
    requires width > 0 && n < Pow8(width - 1)
    ensures |Number(n, width)| == width && ReadNumber(Number(n, width) + tail) == Some(n)
  {
    hide Octal, CutAtNul, TrimSpaces, IsOctal, Pow8;
    var digits := Octal(n, width - 1);
    OctalRoundTrip(n, width - 1);
    OctalNeedsNoTrim(digits);
    CutBefore(digits, tail);
    assert Number(n, width) + tail == digits + [NUL] + tail;
  }

  lemma {:induction false} CutBefore(s: Bytes, tail: Bytes)
    requires NUL !in s
    ensures CutAtNul(s + [NUL] + tail) == s
  {
    if s != [] {
      var all := s + [NUL] + tail;
      assert all[1..] == s[1..] + [NUL] + tail;
      CutBefore(s[1..], tail);
    }
  }

  // ---------------------------------------------------------------- headers

  /** The fields from the `i`-th on, one after the other. */
  function Join(fields: seq<Bytes>, i: nat): Bytes
    decreases |fields| - i
  {
    if i >= |fields| then [] else fields[i] + Join(fields, i + 1)
  }

  function Total(widths: seq<nat>, i: nat): nat
    decreases |widths| - i
  {
    if i >= |widths| then 0 else widths[i] + Total(widths, i + 1)
  }

  /** Cut a block into fields of the given widths, from the `i`-th on. */
  function Split(block: Bytes, widths: seq<nat>, i: nat): seq<Bytes>
    requires Total(widths, i) <= |block|
    decreases |widths| - i
  {
    if i >= |widths| then [] else [block[..widths[i]]] + Split(block[widths[i]..], widths, i + 1)
  }

  ghost predicate Fits(fields: seq<Bytes>, widths: seq<nat>) {
    |fields| == |widths| && forall i :: 0 <= i < |fields| ==> |fields[i]| == widths[i]
  }

  lemma {:induction false} SplitRoundTrip(fields: seq<Bytes>, widths: seq<nat>, i: nat)
    requires Fits(fields, widths) && i <= |fields|
    ensures |Join(fields, i)| == Total(widths, i) && Split(Join(fields, i), widths, i) == fields[i..]
    decreases |fields| - i
  {
    if i < |fields| {
      var all, rest := Join(fields, i), Join(fields, i + 1);
      SplitRoundTrip(fields, widths, i + 1);
      assert all[..widths[i]] == fields[i] && all[widths[i]..] == rest;
      assert fields[i..] == [fields[i]] + fields[i + 1..];
    }
  }

  /**
    name, mode, uid, gid, size, mtime, chksum, typeflag, linkname, magic+version, uname, gname,
    devmajor, devminor, prefix, unused
   */
  const WIDTHS: seq<nat> := [100, 8, 8, 8, 12, 12, 8, 1, 100, 8, 32, 32, 8, 8, 155, 12]
  const MAGIC: Bytes := "ustar\000"
  const BLANK: Bytes := "        "

  lemma WidthsFillABlock()
    ensures Total(WIDTHS, 0) == BLOCK
  {
    assert Total(WIDTHS, 14) == 167;
    assert Total(WIDTHS, 12) == 183;
    assert Total(WIDTHS, 10) == 247;
    assert Total(WIDTHS, 8) == 355;
    assert Total(WIDTHS, 6) == 364;
    assert Total(WIDTHS, 4) == 388;
    assert Total(WIDTHS, 2) == 404;
  }

  // ---------------------------------------------------------------- names

  /** The first slash that leaves a prefix and a name within their limits. */
  function FirstSplit(name: Bytes, k: nat): Option<(Bytes, Bytes)>
    decreases |name| - k
  {
    if k >= |name| then None
    else if name[k] == '/' && k <= PREFIX_LIMIT && |name| - k - 1 <= NAME_LIMIT then Some((name[..k], name[k + 1..]))
    else FirstSplit(name, k + 1)
  }

  /** (prefix, name) as the header stores them; `None`: the name is too long for ustar. */
  function SplitName(name: Bytes): Option<(Bytes, Bytes)> {
    if |name| <= NAME_LIMIT then Some(([], name)) else FirstSplit(name, 0)
  }

  lemma {:induction false} FirstSplitFits(name: Bytes, k: nat)
    requires FirstSplit(name, k).Some?
    ensures var (p, n) := FirstSplit(name, k).value;
      && |p| <= PREFIX_LIMIT && |n| <= NAME_LIMIT && |p| >= k && |p| + 1 + |n| == |name|
      && name == p + ['/'] + n
      && (forall j :: k <= j < |p| && name[j] == '/' ==> |name| - j - 1 > NAME_LIMIT || j > PREFIX_LIMIT)
    decreases |name| - k
  {
    if !(name[k] == '/' && k <= PREFIX_LIMIT && |name| - k - 1 <= NAME_LIMIT) { FirstSplitFits(name, k + 1); }
  }

  function StripSlashes(s: Bytes): Bytes {
    if s != [] && s[|s| - 1] == '/' then StripSlashes(s[..|s| - 1]) else s
  }

  /** The name as the reader reconstructs it from the two header fields. */
  function ReadName(prefix: Bytes, name: Bytes, kind: char): Bytes {
    var n := if kind == DIRECTORY then StripSlashes(name) else name;
    if prefix == [] then n else prefix + ['/'] + n
  }

  // ---------------------------------------------------------------- members

  /** What `tar_bytes` adds: a directory has no data. */
  datatype Entry = Entry(name: Bytes, data: Option<Bytes>, mode: nat)

  /** A member as read. */
  datatype Member = Member(name: Bytes, kind: char, mode: nat, uid: nat, gid: nat, mtime: nat,
                           uname: Bytes, gname: Bytes, data: Bytes)

  datatype Head = Head(name: Bytes, kind: char, mode: nat, uid: nat, gid: nat, size: nat, mtime: nat,
                       uname: Bytes, gname: Bytes)

  function KindOf(e: Entry): char { if e.data.None? then DIRECTORY else REGULAR }
  function DataOf(e: Entry): Bytes { if e.data.None? then [] else e.data.value }
  function WrittenName(e: Entry): Bytes { if e.data.None? then e.name + ['/'] else e.name }

  predicate IsText(s: Bytes) { NUL !in s && IsBytes(s) }

  /** What `tarfile` can write as ustar; anything else raises. */
  predicate Encodable(e: Entry, mtime: nat) {
    && IsText(e.name) && SplitName(WrittenName(e)).Some?
    && |DataOf(e)| < Pow8(11) && e.mode < Pow8(7) && mtime < Pow8(11)
  }

  function Fields(prefix: Bytes, name: Bytes, kind: char, mode: nat, size: nat, mtime: nat, checksum: Bytes): seq<Bytes>
    requires |prefix| <= PREFIX_LIMIT && |name| <= NAME_LIMIT
  {
    [Text(name, 100), Number(mode, 8), Number(0, 8), Number(0, 8), Number(size, 12), Number(mtime, 12), checksum,
     [kind], Fill(100), MAGIC, Text("root", 32), Text("root", 32), Fill(8), Fill(8), Text(prefix, 155), Fill(12)]
  }

  function Sum(s: Bytes): nat {
    if s == [] then 0 else Sum(s[..|s| - 1]) + s[|s| - 1] as int
  }

  function Checksum(n: nat): Bytes { Number(n, 7) + [' '] }

  function Header(e: Entry, mtime: nat): Bytes
    requires Encodable(e, mtime)
  {
    var w := WrittenName(e);
    var (p, n) := SplitName(w).value;
    SplitFits(w);
    var blank := Fields(p, n, KindOf(e), e.mode, |DataOf(e)|, mtime, BLANK);
    Join(blank[6 := Checksum(Sum(Join(blank, 0)))], 0)
  }

  lemma SplitFits(name: Bytes)
    requires SplitName(name).Some?
    ensures var (p, n) := SplitName(name).value;
      |p| <= PREFIX_LIMIT && |n| <= NAME_LIMIT && ((p == [] && n == name) || name == p + ['/'] + n)
  {
    if |name| > NAME_LIMIT { FirstSplitFits(name, 0); }
  }

  /** The header of a block, or `None` when a number or the checksum is wrong. */
  function ReadHeader(block: Bytes): Option<Head>
    requires |block| == BLOCK
  {
    WidthsFillABlock();
    var fs := Split(block, WIDTHS, 0);
    SplitLength(block, WIDTHS, 0);
    var mode, uid, gid, size, mtime, check :=
      ReadNumber(fs[1]), ReadNumber(fs[2]), ReadNumber(fs[3]), ReadNumber(fs[4]), ReadNumber(fs[5]), ReadNumber(fs[6]);
    if mode.None? || uid.None? || gid.None? || size.None? || mtime.None? || |fs[7]| != 1
       || check != Some(Sum(Join(fs[6 := BLANK], 0))) then None
    else Some(Head(ReadName(CutAtNul(fs[14]), CutAtNul(fs[0]), fs[7][0]), fs[7][0], mode.value, uid.value, gid.value,
                   size.value, mtime.value, CutAtNul(fs[10]), CutAtNul(fs[11])))
  }

  lemma {:induction false} SplitLength(block: Bytes, widths: seq<nat>, i: nat)
    requires Total(widths, i) <= |block| && i <= |widths|
    ensures |Split(block, widths, i)| == |widths| - i
    decreases |widths| - i
  {
    if i < |widths| { SplitLength(block[widths[i]..], widths, i + 1); }
  }

  // ---------------------------------------------------------------- header round trip

  lemma {:induction false} SumBound(s: Bytes)
    requires IsBytes(s)
    ensures Sum(s) <= 255 * |s|
  {
    if s != [] { SumBound(s[..|s| - 1]); }
  }

  lemma {:induction false} JoinBytes(fields: seq<Bytes>, i: nat)
    requires forall j :: 0 <= j < |fields| ==> IsBytes(fields[j])
    ensures IsBytes(Join(fields, i))
    decreases |fields| - i
  {
    if i < |fields| { JoinBytes(fields, i + 1); }
  }

  lemma Powers()
    ensures Pow8(6) == 262144 && Pow8(7) == 2097152 && Pow8(11) == 8589934592
  {}

  lemma {:induction false} OctalShape(n: nat, digits: nat)
    ensures |Octal(n, digits)| == digits && IsOctal(Octal(n, digits)) && IsBytes(Octal(n, digits))
  {
    if digits > 0 { OctalShape(n / 8, digits - 1); }
  }

  lemma FieldsFit(prefix: Bytes, name: Bytes, kind: char, mode: nat, size: nat, mtime: nat, checksum: Bytes)
    requires |prefix| <= PREFIX_LIMIT && |name| <= NAME_LIMIT && |checksum| == 8
    requires IsBytes(prefix) && IsBytes(name) && IsBytes(checksum) && kind as int < 256
    ensures var fs := Fields(prefix, name, kind, mode, size, mtime, checksum);
      Fits(fs, WIDTHS) && forall j :: 0 <= j < |fs| ==> IsBytes(fs[j])
  {
    OctalShape(mode, 7);
    OctalShape(0, 7);
    OctalShape(size, 11);
    OctalShape(mtime, 11);
  }

  lemma PiecesAreText(e: Entry, mtime: nat)
    requires Encodable(e, mtime)
    ensures var (p, n) := SplitName(WrittenName(e)).value; IsText(p) && IsText(n)
  {
    var w := WrittenName(e);
    var (p, n) := SplitName(w).value;
    SplitFits(w);
    assert IsText(w);
    if p != [] || n != w {
      forall i | 0 <= i < |p| ensures p[i] == w[i] {}
      forall i | 0 <= i < |n| ensures n[i] == w[|p| + 1 + i] {}
      assert forall c :: c in p ==> c in w;
      assert forall c :: c in n ==> c in w;
    }
  }

  /** A header built from blank fields with the right checksum reads back as those fields. */
  lemma BuiltHeaderReads(p: Bytes, n: Bytes, kind: char, mode: nat, size: nat, mtime: nat)
    requires |p| <= PREFIX_LIMIT && |n| <= NAME_LIMIT && IsText(p) && IsText(n) && kind as int < 256
    requires mode < Pow8(7) && size < Pow8(11) && mtime < Pow8(11)
    ensures var blank := Fields(p, n, kind, mode, size, mtime, BLANK);
      var block := Join(blank[6 := Checksum(Sum(Join(blank, 0)))], 0);
      && |block| == BLOCK && block != Fill(BLOCK)
      && ReadHeader(block) == Some(Head(ReadName(p, n, kind), kind, mode, 0, 0, size, mtime, "root", "root"))
  {
    hide CutAtNul, ReadNumber, Sum, Join, Split, Pow8, ReadName, IsText, Octal;
    var blank := Fields(p, n, kind, mode, size, mtime, BLANK);
    var sum := Sum(Join(blank, 0));
    ChecksumFits(p, n, kind, mode, size, mtime);
    ChecksumReads(sum);
    var fs := blank[6 := Checksum(sum)];
    assert fs == Fields(p, n, kind, mode, size, mtime, Checksum(sum));
    TextIsBytes(p);
    TextIsBytes(n);
    FieldsFit(p, n, kind, mode, size, mtime, Checksum(sum));
    WidthsFillABlock();
    SplitRoundTrip(fs, WIDTHS, 0);
    assert fs[0..] == fs && fs[6 := BLANK] == blank;
    FieldsRead(p, n, kind, mode, size, mtime, Checksum(sum));
    ModeDigit(mode);
    NotBlank(fs);
  }

  lemma TextIsBytes(s: Bytes)
    requires IsText(s)
    ensures IsBytes(s)
  {}

  lemma ModeDigit(mode: nat)
    ensures Number(mode, 8) != [] && Number(mode, 8)[0] != NUL
  {
    OctalShape(mode, 7);
  }

  lemma ChecksumFits(p: Bytes, n: Bytes, kind: char, mode: nat, size: nat, mtime: nat)
    requires |p| <= PREFIX_LIMIT && |n| <= NAME_LIMIT && IsText(p) && IsText(n) && kind as int < 256
    ensures Sum(Join(Fields(p, n, kind, mode, size, mtime, BLANK), 0)) < Pow8(6)
  {
    var blank := Fields(p, n, kind, mode, size, mtime, BLANK);
    FieldsFit(p, n, kind, mode, size, mtime, BLANK);
    SplitRoundTrip(blank, WIDTHS, 0);
    WidthsFillABlock();
    JoinBytes(blank, 0);
    SumBound(Join(blank, 0));
    Powers();
  }

  lemma HeaderRoundTrip(e: Entry, mtime: nat)
    requires Encodable(e, mtime)
    ensures |Header(e, mtime)| == BLOCK && Header(e, mtime) != Fill(BLOCK)
    ensures var (p, n) := SplitName(WrittenName(e)).value;
      ReadHeader(Header(e, mtime)) ==
        Some(Head(ReadName(p, n, KindOf(e)), KindOf(e), e.mode, 0, 0, |DataOf(e)|, mtime, "root", "root"))
  {
    var (p, n) := SplitName(WrittenName(e)).value;
    SplitFits(WrittenName(e));
    PiecesAreText(e, mtime);
    hide Fields, Sum, Join, Checksum, Pow8, SplitName, ReadHeader, ReadName, IsText;
    BuiltHeaderReads(p, n, KindOf(e), e.mode, |DataOf(e)|, mtime);
  }

  lemma ChecksumReads(n: nat)
    requires n < Pow8(6)
    ensures |Checksum(n)| == 8 && IsBytes(Checksum(n)) && ReadNumber(Checksum(n)) == Some(n)
  {
    NumberRoundTrip(n, 7, " ");
    OctalShape(n, 6);
  }

  lemma FieldsRead(prefix: Bytes, name: Bytes, kind: char, mode: nat, size: nat, mtime: nat, checksum: Bytes)
    requires |prefix| <= PREFIX_LIMIT && |name| <= NAME_LIMIT && IsText(prefix) && IsText(name)
    requires mode < Pow8(7) && size < Pow8(11) && mtime < Pow8(11)
    ensures var fs := Fields(prefix, name, kind, mode, size, mtime, checksum);
      && CutAtNul(fs[0]) == name && CutAtNul(fs[14]) == prefix
      && CutAtNul(fs[10]) == "root" && CutAtNul(fs[11]) == "root"
      && ReadNumber(fs[1]) == Some(mode) && ReadNumber(fs[2]) == Some(0) && ReadNumber(fs[3]) == Some(0)
      && ReadNumber(fs[4]) == Some(size) && ReadNumber(fs[5]) == Some(mtime)
  {
    hide CutAtNul, ReadNumber, Pow8, Text, Number;
    TextRoundTrip(name, 100);
    TextRoundTrip(prefix, 155);
    TextRoundTrip("root", 32);
    NumberReads(mode, 8);
    NumberReads(size, 12);
    NumberReads(mtime, 12);
    PowPositive(7);
    NumberReads(0, 8);
  }

  lemma PowPositive(n: nat)
    ensures Pow8(n) > 0
  {}

  lemma NumberReads(n: nat, width: nat)
    requires width > 0 && n < Pow8(width - 1)
    ensures ReadNumber(Number(n, width)) == Some(n)
  {
    NumberRoundTrip(n, width, []);
    assert Number(n, width) + [] == Number(n, width);
  }

  /** A header block is never all NULs: its mode field starts with a digit. */
  lemma NotBlank(fs: seq<Bytes>)
    requires Fits(fs, WIDTHS) && fs[1] != [] && fs[1][0] != NUL
    ensures Join(fs, 0) != Fill(BLOCK)
  {
    var rest := Join(fs, 1);
    assert Join(fs, 0) == fs[0] + rest && rest == fs[1] + Join(fs, 2);
    assert Join(fs, 0)[100] == fs[1][0];
  }

  // ---------------------------------------------------------------- streams

  function RoundUp(n: nat, unit: nat): nat
    requires unit > 0
  {
    (n + unit - 1) / unit * unit
  }

  /** One member: its header, its data and NULs up to a whole block. */
  function Blocks(e: Entry, mtime: nat): Bytes
    requires Encodable(e, mtime)
  {
    Header(e, mtime) + DataOf(e) + Fill(RoundUp(|DataOf(e)|, BLOCK) - |DataOf(e)|)
  }

  predicate AllEncodable(es: seq<Entry>, mtime: nat) {
    forall i :: 0 <= i < |es| ==> Encodable(es[i], mtime)
  }

  function Body(es: seq<Entry>, mtime: nat): Bytes
    requires AllEncodable(es, mtime)
  {
    if es == [] then [] else Blocks(es[0], mtime) + Body(es[1..], mtime)
  }

  lemma {:induction false} BodyAppends(es: seq<Entry>, e: Entry, mtime: nat)
    requires AllEncodable(es, mtime) && Encodable(e, mtime)
    ensures AllEncodable(es + [e], mtime) && Body(es + [e], mtime) == Body(es, mtime) + Blocks(e, mtime)
  {
    hide Encodable, Blocks;
    if es == [] {
      assert [e][1..] == [] && es + [e] == [e];
    } else {
      assert (es + [e])[1..] == es[1..] + [e] && (es + [e])[0] == es[0];
      BodyAppends(es[1..], e, mtime);
    }
  }

  /** The members, two NUL blocks, and NULs up to a whole record. */
  function Stream(es: seq<Entry>, mtime: nat): Bytes
    requires AllEncodable(es, mtime)
  {
    var body := Body(es, mtime);
    body + Fill(RoundUp(|body| + 2 * BLOCK, RECORD) - |body|)
  }

  /** Kinds without data: links, devices, directories and FIFOs. */
  predicate HasData(kind: char) { !('1' <= kind <= '6') }

  /**
    The reader: members up to the first NUL block. A bad or truncated header ends the archive
    silently, except at its very start; missing data is an error.
   */
  function ReadTar(raw: Bytes, first: bool): Option<seq<Member>>
    decreases |raw|
  {
    if |raw| < BLOCK then (if first then None else Some([]))
    else if raw[..BLOCK] == Fill(BLOCK) then Some([])
    else
      var head := ReadHeader(raw[..BLOCK]);
      if head.None? then (if first then None else Some([]))
      else
        var h := head.value;
        var size := if HasData(h.kind) then h.size else 0;
        if BLOCK + RoundUp(size, BLOCK) > |raw| then None
        else
          var rest := ReadTar(raw[BLOCK + RoundUp(size, BLOCK)..], false);
          if rest.None? then None
          else
            var data := raw[BLOCK..BLOCK + size];
            Some([Member(h.name, h.kind, h.mode, h.uid, h.gid, h.mtime, h.uname, h.gname, data)] + rest.value)
  }

  /** The member an entry reads back as. */
  function ReadBack(e: Entry, mtime: nat): Member
    requires Encodable(e, mtime)
  {
    var (p, n) := SplitName(WrittenName(e)).value;
    Member(ReadName(p, n, KindOf(e)), KindOf(e), e.mode, 0, 0, mtime, "root", "root", DataOf(e))
  }

  function ReadBackAll(es: seq<Entry>, mtime: nat): seq<Member>
    requires AllEncodable(es, mtime)
  {
    seq(|es|, i requires 0 <= i < |es| => ReadBack(es[i], mtime))
  }

  lemma ReadOne(e: Entry, mtime: nat, rest: Bytes, first: bool)
    requires Encodable(e, mtime)
    ensures ReadTar(rest, false).Some? ==>
      ReadTar(Blocks(e, mtime) + rest, first) == Some([ReadBack(e, mtime)] + ReadTar(rest, false).value)
  {
    hide Header, ReadHeader, Encodable, ReadName, SplitName;
    var raw := Blocks(e, mtime) + rest;
    var data := DataOf(e);
    HeaderRoundTrip(e, mtime);
    assert raw[..BLOCK] == Header(e, mtime);
    assert raw[BLOCK..BLOCK + |data|] == data;
    assert raw[BLOCK + RoundUp(|data|, BLOCK)..] == rest;
  }

  lemma ReadEnd(fill: nat, first: bool)
    requires fill >= BLOCK
    ensures ReadTar(Fill(fill), first) == Some([])
  {}

  lemma EncodableTail(es: seq<Entry>, mtime: nat)
    requires AllEncodable(es, mtime) && es != []
    ensures Encodable(es[0], mtime) && AllEncodable(es[1..], mtime)
  {}

  lemma RoundUpCovers(n: nat, unit: nat)
    requires unit > 0
    ensures RoundUp(n, unit) >= n
  {}

  lemma {:induction false} BodyRoundTrip(es: seq<Entry>, mtime: nat, fill: nat, first: bool)
    requires AllEncodable(es, mtime) && fill >= BLOCK
    ensures ReadTar(Body(es, mtime) + Fill(fill), first) == Some(ReadBackAll(es, mtime))
    decreases |es|
  {
    hide Encodable, Blocks, ReadBack, ReadTar, AllEncodable;
    if es == [] {
      assert Body(es, mtime) + Fill(fill) == Fill(fill);
      ReadEnd(fill, first);
      assert ReadBackAll(es, mtime) == [];
    } else {
      EncodableTail(es, mtime);
      var rest := Body(es[1..], mtime) + Fill(fill);
      BodyRoundTrip(es[1..], mtime, fill, false);
      ReadOne(es[0], mtime, rest, first);
      assert Body(es, mtime) + Fill(fill) == Blocks(es[0], mtime) + rest;
      assert ReadBackAll(es, mtime) == [ReadBack(es[0], mtime)] + ReadBackAll(es[1..], mtime);
    }
  }

  /** Reading a written stream gives back every member, in order, with its data. */
  lemma StreamRoundTrip(es: seq<Entry>, mtime: nat)
    requires AllEncodable(es, mtime)
    ensures ReadTar(Stream(es, mtime), true) == Some(ReadBackAll(es, mtime))
  {
    hide AllEncodable, Body, ReadTar, RoundUp, ReadBackAll;
    var body := Body(es, mtime);
    RoundUpCovers(|body| + 2 * BLOCK, RECORD);
    BodyRoundTrip(es, mtime, RoundUp(|body| + 2 * BLOCK, RECORD) - |body|, true);
  }

  // ---------------------------------------------------------------- names read back

  lemma StripOne(s: Bytes)
    requires s == [] || s[|s| - 1] != '/'
    ensures StripSlashes(s + ['/']) == s
  {}

  /** A file keeps its name; so does a directory, unless the header stores its whole path as prefix. */
  lemma NameReadsBack(e: Entry, mtime: nat)
    requires Encodable(e, mtime) && e.name != [] && e.name[0] != '/' && e.name[|e.name| - 1] != '/'
    ensures ReadBack(e, mtime).name == e.name
            || (e.data.None? && ReadBack(e, mtime).name == e.name + ['/']
                && SplitName(e.name + ['/']) == Some((e.name, [])))
  {
    var w := WrittenName(e);
    var (p, n) := SplitName(w).value;
    SplitFits(w);
    if |w| > NAME_LIMIT { FirstSplitFits(w, 0); assert p != []; }
    if e.data.None? {
      if p == [] {
        StripOne(e.name);
      } else if n == [] {
        assert w[..|w| - 1] == e.name && p == e.name;
      } else {
        var m := n[..|n| - 1];
        assert n[|n| - 1] == w[|w| - 1] == '/';
        assert n == m + ['/'];
        if m != [] { assert m[|m| - 1] == e.name[|e.name| - 1]; }
        StripOne(m);
        assert e.name == w[..|w| - 1] == p + ['/'] + m;
      }
    }
  }
}
