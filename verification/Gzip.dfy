/**
  One gzip member, after section 2.2 of RFC 1952. The deflate codec and the CRC are parameters; the
  header, the trailer and the bounded single-member reader are modelled byte by byte.
 */
module Gzip {
  import opened Options
  import opened Ustar

  const MAX_UNCOMPRESSED: nat := 268435456

  datatype Codec = Codec(deflate: Bytes -> Bytes, inflate: Bytes -> Option<(Bytes, Bytes)>, crc: Bytes -> nat)

  /** Deflate data marks its own end: decoding it leaves whatever follows. */
  ghost predicate SelfDelimiting(c: Codec) { forall data, rest :: c.inflate(c.deflate(data) + rest) == Some((data,
                                 rest)) }

  /** A decoder that has finished does not look at later bytes. */
  ghost predicate Streams(c: Codec) {
    forall s, tail :: c.inflate(s).Some? ==>
      c.inflate(s + tail) == Some((c.inflate(s).value.0, c.inflate(s).value.1 + tail))
  }

  ghost predicate CrcIs32Bit(c: Codec) { forall data :: c.crc(data) < 0x1_0000_0000 }

  // ---------------------------------------------------------------- little-endian numbers

  function Pow256(k: nat): nat { if k == 0 then 1 else 256 * Pow256(k - 1) }

  function Little(n: nat, k: nat): Bytes { if k == 0 then [] else [(n % 256) as char] + Little(n / 256, k - 1) }

  function LittleValue(s: Bytes): nat { if s == [] then 0 else s[0] as int + 256 * LittleValue(s[1..]) }

  lemma {:induction false} LittleRoundTrip(n: nat, k: nat)
    requires n < Pow256(k)
    ensures |Little(n, k)| == k && LittleValue(Little(n, k)) == n
  {
    if k > 0 {
      LittleRoundTrip(n / 256, k - 1);
      assert Little(n, k)[1..] == Little(n / 256, k - 1);
    }
  }

  lemma Word(n: nat)
    requires n < 0x1_0000_0000
    ensures |Little(n, 4)| == 4 && LittleValue(Little(n, 4)) == n
  {
    assert Pow256(1) == 256 && Pow256(2) == 0x1_0000 && Pow256(3) == 0x100_0000;
    LittleRoundTrip(n, 4);
  }

  // ---------------------------------------------------------------- writing

  /** No name, no modification time, best compression, unknown system. */
  const HEADER: Bytes := "\U{1f}\U{8b}\U{08}" + [NUL] + [NUL, NUL, NUL, NUL] + "\U{02}\U{ff}"

  function Trailer(c: Codec, data: Bytes): Bytes { Little(c.crc(data), 4) + Little(|data| % 0x1_0000_0000, 4) }

  /** `gzip_bytes`. */
  function Zip(c: Codec, data: Bytes): Bytes { HEADER + c.deflate(data) + Trailer(c, data) }

  // ---------------------------------------------------------------- reading

  predicate Flag(flags: int, bit: nat) requires bit > 0 { flags / bit % 2 == 1 }

  function SkipExtra(s: Bytes, i: nat): (r: Option<nat>)
    ensures r.Some? ==> i < r.value <= |s|
  {
    if i + 2 > |s| then None
    else
      var end := i + 2 + LittleValue(s[i..i + 2]);
      if end > |s| then None else Some(end)
  }

  /** Past the NUL that ends a name or a comment. */
  function SkipText(s: Bytes, i: nat): (r: Option<nat>)
    ensures r.Some? ==> i < r.value <= |s|
    decreases |s| - i
  {
    if i >= |s| then None else if s[i] == NUL then Some(i + 1) else SkipText(s, i + 1)
  }

  function SkipHeaderCrc(c: Codec, s: Bytes, i: nat): (r: Option<nat>)
    ensures r.Some? ==> i < r.value <= |s|
  {
    if i + 2 <= |s| && LittleValue(s[i..i + 2]) == c.crc(s[..i]) % 0x1_0000 then Some(i + 2) else None
  }

  /** The end of the header: the fixed part, then the parts its flags announce. */
  function HeaderEnd(c: Codec, s: Bytes): (r: Option<nat>)
    ensures r.Some? ==> 10 <= r.value <= |s|
  {
    if |s| < 10 || s[..3] != HEADER[..3] || s[3] as int >= 0x20 then None
    else
      var flags := s[3] as int;
      var extra := if Flag(flags, 4) then SkipExtra(s, 10) else Some(10);
      if extra.None? then None
      else
        var name := if Flag(flags, 8) then SkipText(s, extra.value) else extra;
        if name.None? then None
        else
          var comment := if Flag(flags, 16) then SkipText(s, name.value) else name;
          if comment.None? then None
          else if Flag(flags, 2) then SkipHeaderCrc(c, s, comment.value) else comment
  }

  /** One whole member: its data and the bytes after it; `None` for bad or truncated input. */
  function ReadMember(c: Codec, s: Bytes): Option<(Bytes, Bytes)> {
    var start := HeaderEnd(c, s);
    if start.None? then None else ReadBody(c, s[start.value..])
  }

  function ReadBody(c: Codec, s: Bytes): Option<(Bytes, Bytes)> {
    var body := c.inflate(s);
    if body.None? then None
    else
      var (data, rest) := body.value;
      if |rest| < 8 || LittleValue(rest[..4]) != c.crc(data) then None
      else if LittleValue(rest[4..8]) != |data| % 0x1_0000_0000 then None
      else Some((data, rest[8..]))
  }

  /** `gunzip_bounded`: exactly one member, within the size cap, and nothing after it. */
  function Unzip(c: Codec, blob: Bytes): Option<Bytes> {
    var member := ReadMember(c, blob);
    if member.Some? && |member.value.0| <= MAX_UNCOMPRESSED && member.value.1 == [] then Some(member.value.0) else None
  }

  // ---------------------------------------------------------------- the format, byte by byte

  /** The written header: the two magic bytes, deflate, no flags, no time, best compression, unknown system. */
  lemma HeaderBytes()
    ensures |HEADER| == 10 && HEADER[0] as int == 0x1f && HEADER[1] as int == 0x8b && HEADER[2] as int == 8
    ensures forall i :: 3 <= i < 8 ==> HEADER[i] as int == 0
    ensures HEADER[8] as int == 2 && HEADER[9] as int == 255
  {}

  /** Four bytes as a number, the least significant first. */
  function WordAt(s: Bytes, i: nat): int
    requires i + 4 <= |s|
  {
    s[i] as int + 0x100 * s[i + 1] as int + 0x1_0000 * s[i + 2] as int + 0x100_0000 * s[i + 3] as int
  }

  lemma WordsAre(s: Bytes, i: nat)
    requires i + 4 <= |s|
    ensures LittleValue(s[i..i + 4]) == WordAt(s, i)
  {
    var w := s[i..i + 4];
    assert w[1..][1..] == w[2..] && w[2..][1..] == w[3..] && w[3..][1..] == [];
    assert LittleValue(w[3..]) == w[3] as int;
    assert LittleValue(w[2..]) == w[2] as int + 256 * LittleValue(w[3..]);
    assert LittleValue(w[1..]) == w[1] as int + 256 * LittleValue(w[2..]);
    assert LittleValue(w) == w[0] as int + 256 * LittleValue(w[1..]);
  }

  /**
    A member is read exactly when deflate data follows its header and is followed by its own CRC and
    by its own length modulo 2 to the 32, each least significant byte first. What is left is the rest.
   */
  lemma MemberIs(c: Codec, s: Bytes, data: Bytes, rest: Bytes)
    ensures ReadMember(c, s) == Some((data, rest)) <==>
      exists tail :: HeaderEnd(c, s).Some? && c.inflate(s[HeaderEnd(c, s).value..]) == Some((data, tail))
        && EndsMember(c, data, tail, rest)
  {
    hide HeaderEnd, LittleValue;
    if HeaderEnd(c, s).Some? && c.inflate(s[HeaderEnd(c, s).value..]).Some? {
      var tail := c.inflate(s[HeaderEnd(c, s).value..]).value.1;
      if |tail| >= 8 {
        WordsAre(tail, 0);
        WordsAre(tail, 4);
        assert tail[0..4] == tail[..4];
      }
    }
  }

  ghost predicate EndsMember(c: Codec, data: Bytes, tail: Bytes, rest: Bytes) {
    && |tail| >= 8 && WordAt(tail, 0) == c.crc(data) && WordAt(tail, 4) == |data| % 0x1_0000_0000 && rest == tail[8..]
  }

  /** A header with its optional fields, as section 2.3 of RFC 1952 orders them. */
  datatype Optional = Optional(extra: Option<Bytes>, name: Option<Bytes>, comment: Option<Bytes>, crc: bool)

  ghost predicate OptionalOk(o: Optional) {
    && (o.extra.Some? ==> |o.extra.value| < 0x1_0000) && (o.name.Some? ==> NUL !in o.name.value)
    && (o.comment.Some? ==> NUL !in o.comment.value)
  }

  function FlagsOf(o: Optional): int {
    (if o.crc then 2 else 0) + (if o.extra.Some? then 4 else 0) + (if o.name.Some? then 8 else 0)
    + (if o.comment.Some? then 16 else 0)
  }

  /** Fixed part, extra field with its length, name and comment with their NULs; `middle` is time, flags and system. */
  function HeaderUpToCrc(o: Optional, middle: Bytes): Bytes {
    "\U{1f}\U{8b}\U{08}" + [FlagsOf(o) as char] + middle
    + (if o.extra.Some? then Little(|o.extra.value|, 2) + o.extra.value else "")
    + (if o.name.Some? then o.name.value + [NUL] else "")
    + (if o.comment.Some? then o.comment.value + [NUL] else "")
  }

  function FullHeader(c: Codec, o: Optional, middle: Bytes): Bytes {
    var h := HeaderUpToCrc(o, middle);
    if o.crc then h + Little(c.crc(h) % 0x1_0000, 2) else h
  }

  lemma SkipsExtra(before: Bytes, extra: Bytes, after: Bytes)
    requires |extra| < 0x1_0000
    ensures |Little(|extra|, 2)| == 2
    ensures SkipExtra(before + (Little(|extra|, 2) + extra) + after, |before|) == Some(|before| + 2 + |extra|)
  {
    assert Pow256(1) == 256 && Pow256(2) == 0x1_0000;
    LittleRoundTrip(|extra|, 2);
    var s := before + (Little(|extra|, 2) + extra) + after;
    assert s[|before|..|before| + 2] == Little(|extra|, 2);
  }

  lemma {:induction false} SkipsText(before: Bytes, text: Bytes, after: Bytes)
    requires NUL !in text
    ensures SkipText(before + (text + [NUL]) + after, |before|) == Some(|before| + |text| + 1)
    decreases |text|
  {
    var s := before + (text + [NUL]) + after;
    if text != [] {
      assert s == (before + [text[0]]) + (text[1..] + [NUL]) + after;
      assert s[|before|] == text[0];
      SkipsText(before + [text[0]], text[1..], after);
    } else {
      assert s[|before|] == NUL;
    }
  }

  lemma FlagBits(o: Optional)
    ensures 0 <= FlagsOf(o) < 0x20
    ensures Flag(FlagsOf(o), 2) == o.crc && Flag(FlagsOf(o), 4) == o.extra.Some?
    ensures Flag(FlagsOf(o), 8) == o.name.Some? && Flag(FlagsOf(o), 16) == o.comment.Some?
  {}

  function ExtraOf(o: Optional): Bytes { if o.extra.Some? then Little(|o.extra.value|, 2) + o.extra.value else "" }
  function TextOf(text: Option<Bytes>): Bytes { if text.Some? then text.value + [NUL] else "" }
  function CrcOf(c: Codec, o: Optional, h: Bytes): Bytes { if o.crc then Little(c.crc(h) % 0x1_0000, 2) else "" }

  lemma AfterExtra(before: Bytes, o: Optional, after: Bytes)
    requires OptionalOk(o)
    ensures (if o.extra.Some? then SkipExtra(before + ExtraOf(o) + after, |before|) else Some(|before|))
            == Some(|before + ExtraOf(o)|)
  {
    hide SkipExtra, Little;
    if o.extra.Some? { SkipsExtra(before, o.extra.value, after); }
  }

  lemma AfterText(before: Bytes, text: Option<Bytes>, after: Bytes)
    requires text.Some? ==> NUL !in text.value
    ensures (if text.Some? then SkipText(before + TextOf(text) + after, |before|) else Some(|before|))
            == Some(|before + TextOf(text)|)
  {
    hide SkipText;
    if text.Some? { SkipsText(before, text.value, after); }
  }

  lemma AfterCrc(c: Codec, o: Optional, h: Bytes, rest: Bytes)
    ensures (if o.crc then SkipHeaderCrc(c, h + CrcOf(c, o, h) + rest, |h|)
      else Some(|h|)) == Some(|h + CrcOf(c, o, h)|)
  {
    hide SkipHeaderCrc, Little;
    if o.crc { SkipsCrc(c, h, rest); }
  }

  lemma EndFollows(c: Codec, s: Bytes, flags: int, e1: nat, e2: nat, e3: nat, e4: nat)
    requires |s| >= 10 && s[..3] == HEADER[..3] && s[3] as int == flags < 0x20
    requires (if Flag(flags, 4) then SkipExtra(s, 10) else Some(10)) == Some(e1)
    requires (if Flag(flags, 8) then SkipText(s, e1) else Some(e1)) == Some(e2)
    requires (if Flag(flags, 16) then SkipText(s, e2) else Some(e2)) == Some(e3)
    requires (if Flag(flags, 2) then SkipHeaderCrc(c, s, e3) else Some(e3)) == Some(e4)
    ensures HeaderEnd(c, s) == Some(e4)
  {
    hide SkipExtra, SkipText, SkipHeaderCrc, Flag;
  }

  lemma Regroup(a: Bytes, b: Bytes, c: Bytes, d: Bytes, e: Bytes)
    ensures a + b + c + d + e == a + b + (c + d + e) == (a + b) + c + (d + e)
  {}

  /** The header ends after exactly its optional fields, whatever follows. */
  lemma HeaderEndsThere(c: Codec, o: Optional, middle: Bytes, rest: Bytes)
    requires OptionalOk(o) && |middle| == 6
    ensures HeaderEnd(c, FullHeader(c, o, middle) + rest) == Some(|FullHeader(c, o, middle)|)
  {
    var fixed := "\U{1f}\U{8b}\U{08}" + [FlagsOf(o) as char] + middle;
    var h := HeaderUpToCrc(o, middle);
    assert h == fixed + ExtraOf(o) + TextOf(o.name) + TextOf(o.comment)
      && FullHeader(c, o, middle) == h + CrcOf(c, o, h);
    FixedPart(o, middle, h + CrcOf(c, o, h) + rest);
    hide HeaderEnd, HeaderUpToCrc, FullHeader, ExtraOf, TextOf, CrcOf;
    EndOfFields(c, o, fixed, rest);
  }

  lemma FixedPart(o: Optional, middle: Bytes, s: Bytes)
    requires |middle| == 6 && |s| >= 10 && s[..10] == "\U{1f}\U{8b}\U{08}" + [FlagsOf(o) as char] + middle
    ensures s[..3] == HEADER[..3] && s[3] as int == FlagsOf(o) < 0x20
  {
    assert s[..3] == s[..10][..3] && s[3] == s[..10][3];
  }

  lemma EndOfFields(c: Codec, o: Optional, fixed: Bytes, rest: Bytes)
    requires OptionalOk(o) && |fixed| == 10 && fixed[..3] == HEADER[..3] && fixed[3] as int == FlagsOf(o) < 0x20
    ensures var h := fixed + ExtraOf(o) + TextOf(o.name) + TextOf(o.comment);
      HeaderEnd(c, h + CrcOf(c, o, h) + rest) == Some(|h + CrcOf(c, o, h)|)
  {
    hide HeaderEnd, SkipExtra, SkipText, SkipHeaderCrc, Little, FlagsOf, Flag, OptionalOk, ExtraOf, TextOf, CrcOf;
    FlagBits(o);
    OptionalTexts(o);
    var extra, name, comment := ExtraOf(o), TextOf(o.name), TextOf(o.comment);
    var h := fixed + extra + name + comment;
    var crc := CrcOf(c, o, h);
    var s := h + crc + rest;
    Regroup(fixed, extra, name, comment, crc + rest);
    Regroup(fixed + extra, name, comment, crc, rest);
    assert s == fixed + extra + (name + comment + (crc + rest));
    assert s == (fixed + extra) + name + (comment + (crc + rest));
    assert s == (fixed + extra + name) + comment + (crc + rest);
    AfterExtra(fixed, o, name + comment + (crc + rest));
    AfterText(fixed + extra, o.name, comment + (crc + rest));
    AfterText(fixed + extra + name, o.comment, crc + rest);
    AfterCrc(c, o, h, rest);
    assert s[..3] == fixed[..3] && s[3] == fixed[3];
    EndFollows(c, s, FlagsOf(o), |fixed + extra|, |fixed + extra + name|, |h|, |h + crc|);
  }

  lemma OptionalTexts(o: Optional)
    requires OptionalOk(o)
    ensures (o.name.Some? ==> NUL !in o.name.value) && (o.comment.Some? ==> NUL !in o.comment.value)
  {}

  lemma SkipsCrc(c: Codec, h: Bytes, rest: Bytes)
    ensures var crc := Little(c.crc(h) % 0x1_0000, 2);
      |crc| == 2 && SkipHeaderCrc(c, h + crc + rest, |h|) == Some(|h| + 2)
  {
    assert Pow256(1) == 256 && Pow256(2) == 0x1_0000;
    var crc := Little(c.crc(h) % 0x1_0000, 2);
    LittleRoundTrip(c.crc(h) % 0x1_0000, 2);
    var s := h + crc + rest;
    assert s[|h|..|h| + 2] == crc && s[..|h|] == h;
  }

  // ---------------------------------------------------------------- theorems

  lemma TrailerReads(c: Codec, data: Bytes)
    requires CrcIs32Bit(c)
    ensures var t := Trailer(c, data);
      |t| == 8 && LittleValue(t[..4]) == c.crc(data) && LittleValue(t[4..8]) == |data| % 0x1_0000_0000
  {
    hide Little, LittleValue;
    Word(c.crc(data));
    Word(|data| % 0x1_0000_0000);
    var t := Trailer(c, data);
    assert t[..4] == Little(c.crc(data), 4) && t[4..8] == Little(|data| % 0x1_0000_0000, 4);
  }

  /** What is written is one member, read back whole. */
  lemma MemberRoundTrip(c: Codec, data: Bytes)
    requires SelfDelimiting(c) && CrcIs32Bit(c)
    ensures ReadMember(c, Zip(c, data)) == Some((data, []))
  {
    hide Trailer, LittleValue;
    var s := Zip(c, data);
    assert |HEADER| == 10 && s[..10] == HEADER;
    assert s[..3] == HEADER[..3] && s[3] == NUL;
    assert s[10..] == c.deflate(data) + Trailer(c, data);
    TrailerReads(c, data);
  }

  lemma {:induction false} TextStays(s: Bytes, i: nat, tail: Bytes)
    requires SkipText(s, i).Some?
    ensures SkipText(s + tail, i) == SkipText(s, i)
    decreases |s| - i
  {
    if s[i] != NUL { TextStays(s, i + 1, tail); }
  }

  lemma ExtraStays(s: Bytes, i: nat, tail: Bytes)
    requires SkipExtra(s, i).Some?
    ensures SkipExtra(s + tail, i) == SkipExtra(s, i)
  {
    assert (s + tail)[i..i + 2] == s[i..i + 2];
  }

  lemma HeaderCrcStays(c: Codec, s: Bytes, i: nat, tail: Bytes)
    requires SkipHeaderCrc(c, s, i).Some?
    ensures SkipHeaderCrc(c, s + tail, i) == SkipHeaderCrc(c, s, i)
  {
    assert (s + tail)[i..i + 2] == s[i..i + 2] && (s + tail)[..i] == s[..i];
  }

  lemma HeaderStays(c: Codec, s: Bytes, tail: Bytes)
    requires HeaderEnd(c, s).Some?
    ensures HeaderEnd(c, s + tail) == HeaderEnd(c, s)
  {
    hide SkipExtra, SkipText, SkipHeaderCrc;
    var flags := s[3] as int;
    assert (s + tail)[..3] == s[..3];
    var extra := if Flag(flags, 4) then SkipExtra(s, 10) else Some(10);
    if Flag(flags, 4) { ExtraStays(s, 10, tail); }
    var name := if Flag(flags, 8) then SkipText(s, extra.value) else extra;
    if Flag(flags, 8) { TextStays(s, extra.value, tail); }
    var comment := if Flag(flags, 16) then SkipText(s, name.value) else name;
    if Flag(flags, 16) { TextStays(s, name.value, tail); }
    if Flag(flags, 2) { HeaderCrcStays(c, s, comment.value, tail); }
  }

  /** Appending to a member, whatever optional header fields it has, only adds trailing bytes. */
  lemma AppendedStaysBehind(c: Codec, s: Bytes, tail: Bytes)
    requires Streams(c) && ReadMember(c, s).Some?
    ensures ReadMember(c, s + tail) == Some((ReadMember(c, s).value.0, ReadMember(c, s).value.1 + tail))
  {
    hide HeaderEnd;
    HeaderStays(c, s, tail);
    var start := HeaderEnd(c, s).value;
    assert (s + tail)[start..] == s[start..] + tail;
    BodyStays(c, s[start..], tail);
  }

  lemma BodyStays(c: Codec, s: Bytes, tail: Bytes)
    requires Streams(c) && ReadBody(c, s).Some?
    ensures ReadBody(c, s + tail) == Some((ReadBody(c, s).value.0, ReadBody(c, s).value.1 + tail))
  {
    hide LittleValue;
    var (data, rest) := c.inflate(s).value;
    assert c.inflate(s + tail) == Some((data, rest + tail));
    assert (rest + tail)[..4] == rest[..4] && (rest + tail)[4..8] == rest[4..8]
      && (rest + tail)[8..] == rest[8..] + tail;
  }

  /** The bounded reader undoes the writer exactly up to the size cap. */
  lemma UnzipUndoesZip(c: Codec, data: Bytes)
    requires SelfDelimiting(c) && CrcIs32Bit(c)
    ensures Unzip(c, Zip(c, data)) == if |data| <= MAX_UNCOMPRESSED then Some(data) else None
  {
    hide ReadMember, Zip;
    MemberRoundTrip(c, data);
  }

  /** A second member, or any other data, after an accepted one is refused. */
  lemma NothingMayFollow(c: Codec, blob: Bytes, tail: Bytes)
    requires Streams(c) && Unzip(c, blob).Some? && tail != []
    ensures Unzip(c, blob + tail).None?
  {
    hide ReadMember;
    AppendedStaysBehind(c, blob, tail);
  }
}
