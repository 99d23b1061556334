/** The written bytes, offset by offset, as the "ustar Interchange Format" of POSIX.1 lays them out. */
module UstarLayout {
  import opened Options
  import opened Ustar

  lemma OctalStep(n: nat, digits: nat)
    ensures Octal(n, digits + 1) == Octal(n / 8, digits) + [('0' as int + n % 8) as char]
  {}

  lemma OctalZero()
    ensures Octal(0, 4) == "0000"
  {}

  /** Octal digits, the most significant first: the two modes of a release. */
  lemma OctalModes()
    ensures Octal(493, 7) == "0000755" && Octal(420, 7) == "0000644"
  {
    hide Octal;
    OctalZero();
    OctalStep(493, 6);
    OctalStep(61, 5);
    OctalStep(7, 4);
    OctalStep(420, 6);
    OctalStep(52, 5);
    OctalStep(6, 4);
    assert ('0' as int + 7) as char == '7' && ('0' as int + 5) as char == '5';
    assert ('0' as int + 6) as char == '6' && ('0' as int + 4) as char == '4';
  }

  // ---------------------------------------------------------------- header

  lemma SliceShifts(x: Bytes, rest: Bytes, at: nat, width: nat)
    requires at + width <= |rest|
    ensures (x + rest)[|x| + at..|x| + at + width] == rest[at..at + width]
  {}

  /** The bytes of field `j` in the fields from the `i`-th on. */
  ghost predicate StandsAt(fields: seq<Bytes>, i: nat, j: nat, at: int) {
    && j < |fields| && 0 <= at && at + |fields[j]| <= |Join(fields, i)|
    && Join(fields, i)[at..at + |fields[j]|] == fields[j]
  }

  lemma StandsFirst(fields: seq<Bytes>, i: nat)
    requires i < |fields|
    ensures StandsAt(fields, i, i, 0)
  {
    var rest := Join(fields, i + 1);
    assert Join(fields, i) == fields[i] + rest;
  }

  lemma StandsLater(fields: seq<Bytes>, i: nat, j: nat, at: int)
    requires i < |fields| && StandsAt(fields, i + 1, j, at)
    ensures StandsAt(fields, i, j, |fields[i]| + at)
  {
    var rest := Join(fields, i + 1);
    assert Join(fields, i) == fields[i] + rest;
    hide Join;
    SliceShifts(fields[i], rest, at, |fields[j]|);
  }

  lemma {:induction false} JoinAt(fields: seq<Bytes>, widths: seq<nat>, i: nat, j: nat)
    requires Fits(fields, widths) && i <= j < |fields|
    ensures StandsAt(fields, i, j, Total(widths, i) - Total(widths, j))
    decreases j - i
  {
    hide Join, StandsAt;
    if i < j {
      JoinAt(fields, widths, i + 1, j);
      StandsLater(fields, i, j, Total(widths, i + 1) - Total(widths, j));
      assert Total(widths, i) == widths[i] + Total(widths, i + 1);
    } else {
      StandsFirst(fields, i);
    }
  }

  lemma LengthOf(fields: seq<Bytes>, widths: seq<nat>, i: nat)
    requires Fits(fields, widths) && i <= |fields|
    ensures |Join(fields, i)| == Total(widths, i)
  {
    SplitRoundTrip(fields, widths, i);
  }

  /** The offset of every field, in the order of the widths. */
  const OFFSETS: seq<nat> := [0, 100, 108, 116, 124, 136, 148, 156, 157, 257, 265, 297, 329, 337, 345, 500]

  lemma OffsetsAre(j: nat)
    requires j < 16
    ensures |WIDTHS| == 16 && Total(WIDTHS, 0) - Total(WIDTHS, j) == OFFSETS[j]
  {
    WidthsFillABlock();
    assert Total(WIDTHS, 15) == 12 && Total(WIDTHS, 14) == 167 && Total(WIDTHS, 13) == 175;
    assert Total(WIDTHS, 12) == 183 && Total(WIDTHS, 11) == 215 && Total(WIDTHS, 10) == 247;
    assert Total(WIDTHS, 9) == 255 && Total(WIDTHS, 8) == 355 && Total(WIDTHS, 7) == 356;
    assert Total(WIDTHS, 6) == 364 && Total(WIDTHS, 5) == 376 && Total(WIDTHS, 4) == 388;
    assert Total(WIDTHS, 3) == 396 && Total(WIDTHS, 2) == 404 && Total(WIDTHS, 1) == 412;
  }

  lemma FieldAt(fields: seq<Bytes>, j: nat)
    requires Fits(fields, WIDTHS) && j < 16
    ensures |WIDTHS| == 16 && |Join(fields, 0)| == BLOCK && OFFSETS[j] + WIDTHS[j] <= BLOCK
    ensures Join(fields, 0)[OFFSETS[j]..OFFSETS[j] + WIDTHS[j]] == fields[j]
  {
    hide Join, Total;
    OffsetsAre(j);
    JoinAt(fields, WIDTHS, 0, j);
    LengthOf(fields, WIDTHS, 0);
    WidthsFillABlock();
  }

  /** What a header is built from: the split name and the numbers. */
  datatype Parts = Parts(prefix: Bytes, name: Bytes, kind: char, mode: nat, size: nat, mtime: nat)

  predicate PartsOk(x: Parts) {
    && |x.prefix| <= PREFIX_LIMIT && |x.name| <= NAME_LIMIT && IsText(x.prefix) && IsText(x.name) && x.kind as int < 256
  }

  function FieldsWith(x: Parts, checksum: Bytes): seq<Bytes>
    requires PartsOk(x)
  {
    Fields(x.prefix, x.name, x.kind, x.mode, x.size, x.mtime, checksum)
  }

  function CheckOf(x: Parts): Bytes
    requires PartsOk(x)
  {
    Checksum(Sum(Join(FieldsWith(x, BLANK), 0)))
  }

  function PartsOf(e: Entry, mtime: nat): Parts
    requires Encodable(e, mtime)
  {
    var (p, n) := SplitName(WrittenName(e)).value;
    Parts(p, n, KindOf(e), e.mode, |DataOf(e)|, mtime)
  }

  lemma HeaderIsBuilt(e: Entry, mtime: nat)
    requires Encodable(e, mtime)
    ensures PartsOk(PartsOf(e, mtime)) && |FieldsWith(PartsOf(e, mtime), BLANK)| == 16
    ensures Header(e, mtime) == Join(FieldsWith(PartsOf(e, mtime), BLANK)[6 := CheckOf(PartsOf(e, mtime))], 0)
  {
    SplitFits(WrittenName(e));
    PiecesAreText(e, mtime);
    hide Join, Sum, Checksum, SplitName;
  }

  lemma BuiltFits(x: Parts)
    requires PartsOk(x)
    ensures |CheckOf(x)| == 8 && Fits(FieldsWith(x, BLANK), WIDTHS) && Fits(FieldsWith(x, CheckOf(x)), WIDTHS)
    ensures FieldsWith(x, BLANK)[6 := CheckOf(x)] == FieldsWith(x, CheckOf(x))
    ensures FieldsWith(x, CheckOf(x))[6] == CheckOf(x)
  {
    hide Join, Sum, Checksum, Number, Text, Fits;
    TextIsBytes(x.prefix);
    TextIsBytes(x.name);
    ChecksumFits(x.prefix, x.name, x.kind, x.mode, x.size, x.mtime);
    ChecksumReads(Sum(Join(FieldsWith(x, BLANK), 0)));
    FieldsFit(x.prefix, x.name, x.kind, x.mode, x.size, x.mtime, BLANK);
    FieldsFit(x.prefix, x.name, x.kind, x.mode, x.size, x.mtime, CheckOf(x));
  }

  lemma HeaderBytes(e: Entry, mtime: nat)
    requires Encodable(e, mtime)
    ensures var x := PartsOf(e, mtime);
      && PartsOk(x) && Fits(FieldsWith(x, CheckOf(x)), WIDTHS) && |FieldsWith(x, CheckOf(x))| == 16
      && Header(e, mtime) == Join(FieldsWith(x, CheckOf(x)), 0) && |Header(e, mtime)| == 512
  {
    hide Join, Fields, Encodable, Header, CheckOf, Fits;
    HeaderIsBuilt(e, mtime);
    BuiltFits(PartsOf(e, mtime));
    FieldAt(FieldsWith(PartsOf(e, mtime), CheckOf(PartsOf(e, mtime))), 0);
    FitsLength(FieldsWith(PartsOf(e, mtime), CheckOf(PartsOf(e, mtime))));
  }

  lemma FitsLength(fs: seq<Bytes>)
    requires Fits(fs, WIDTHS)
    ensures |fs| == 16
  {}

  /** Where every field of a written header stands, and what stands there. */
  lemma HeaderLayout(e: Entry, mtime: nat)
    requires Encodable(e, mtime)
    ensures SplitName(WrittenName(e)).Some? && |Header(e, mtime)| == 512
    ensures var h := Header(e, mtime); var (prefix, name) := SplitName(WrittenName(e)).value;
      && |name| <= 100 && h[0..100] == name + Fill(100 - |name|)
      && h[100..108] == Octal(e.mode, 7) + [NUL]
      && h[108..116] == h[116..124] == Octal(0, 7) + [NUL]
      && h[124..136] == Octal(|DataOf(e)|, 11) + [NUL]
      && h[136..148] == Octal(mtime, 11) + [NUL]
      && h[156] == (if e.data.None? then '5' else '0')
      && h[257..265] == "ustar" + [NUL] + "00"
      && h[265..297] == h[297..329] == "root" + Fill(28)
      && |prefix| <= 155 && h[345..500] == prefix + Fill(155 - |prefix|)
  {
    HeaderBytes(e, mtime);
    assert PartsOf(e, mtime).prefix == SplitName(WrittenName(e)).value.0;
    hide Join, Encodable, Header, CheckOf, Fits, SplitName;
    PartsLayout(PartsOf(e, mtime), Header(e, mtime));
  }

  lemma PartsLayout(x: Parts, h: Bytes)
    requires PartsOk(x) && Fits(FieldsWith(x, CheckOf(x)), WIDTHS) && |h| == 512
    requires h == Join(FieldsWith(x, CheckOf(x)), 0)
    ensures h[0..100] == x.name + Fill(100 - |x.name|) && h[345..500] == x.prefix + Fill(155 - |x.prefix|)
    ensures h[100..108] == Octal(x.mode, 7) + [NUL] && h[108..116] == h[116..124] == Octal(0, 7) + [NUL]
    ensures h[124..136] == Octal(x.size, 11) + [NUL] && h[136..148] == Octal(x.mtime, 11) + [NUL]
    ensures h[156] == x.kind && h[257..265] == "ustar" + [NUL] + "00"
    ensures h[265..297] == h[297..329] == "root" + Fill(28)
  {
    hide Join, CheckOf, Fits, Octal, Fill, IsText;
    var fs := FieldsWith(x, CheckOf(x));
    HeaderSlices(fs, h);
    assert MAGIC == "ustar" + [NUL] + "00";
    SliceOne(h, 156, x.kind);
  }

  lemma HeaderSlices(fs: seq<Bytes>, h: Bytes)
    requires Fits(fs, WIDTHS) && h == Join(fs, 0) && |fs| == 16 && |h| == 512
    ensures h[0..100] == fs[0] && h[100..108] == fs[1] && h[108..116] == fs[2] && h[116..124] == fs[3]
    ensures h[124..136] == fs[4] && h[136..148] == fs[5] && h[148..156] == fs[6] && h[156..157] == fs[7]
    ensures h[257..265] == fs[9] && h[265..297] == fs[10] && h[297..329] == fs[11] && h[345..500] == fs[14]
  {
    hide Join, Fits;
    forall j: nat | j < 16 ensures OFFSETS[j] + WIDTHS[j] <= 512 && h[OFFSETS[j]..OFFSETS[j] + WIDTHS[j]] == fs[j] {
      FieldAt(fs, j);
    }
    SameSlices(h, fs);
  }

  /**
    The checksum: six octal digits, NUL and a space, of the sum of all bytes with the checksum
    itself read as spaces.
   */
  lemma HeaderChecksum(e: Entry, mtime: nat)
    requires Encodable(e, mtime)
    ensures |Header(e, mtime)| == 512
    ensures var h := Header(e, mtime); var blank := h[..148] + "        " + h[156..];
      h[148..156] == Octal(Sum(blank), 6) + [NUL, ' ']
  {
    hide Join, Encodable, Header, CheckOf, Fits, Sum, Octal, Fields, PartsOf;
    HeaderBytes(e, mtime);
    PartsChecksum(PartsOf(e, mtime), Header(e, mtime));
  }

  lemma PartsChecksum(x: Parts, h: Bytes)
    requires PartsOk(x) && |h| == 512 && h == Join(FieldsWith(x, CheckOf(x)), 0)
    ensures h[148..156] == Octal(Sum(h[..148] + "        " + h[156..]), 6) + [NUL, ' ']
  {
    assert CheckOf(x) == Octal(Sum(Join(FieldsWith(x, BLANK), 0)), 6) + [NUL, ' '];
    hide Join, Sum, Octal, Fields, Fits, Number, Text, IsText, Checksum, CheckOf;
    var fs := FieldsWith(x, CheckOf(x));
    BuiltFits(x);
    FitsLength(fs);
    FitsLength(FieldsWith(x, BLANK));
    HeaderSlices(fs, h);
    SixthIsBlank(x);
    assert fs[6 := BLANK] == FieldsWith(x, BLANK);
    BlankedJoin(fs, BLANK);
    assert BLANK == "        ";
    assert Join(FieldsWith(x, BLANK), 0) == h[..148] + "        " + h[156..];
  }

  lemma SixthIsBlank(x: Parts)
    requires PartsOk(x)
    ensures |FieldsWith(x, BLANK)| == 16 && FieldsWith(x, BLANK)[6] == BLANK
  {
    hide Text, Number;
  }

  /** Replacing one field replaces its bytes. */
  lemma BlankedJoin(fs: seq<Bytes>, field: Bytes)
    requires Fits(fs, WIDTHS) && |fs| == 16 && |field| == 8
    ensures |Join(fs, 0)| == 512 && Join(fs[6 := field], 0) == Join(fs, 0)[..148] + field + Join(fs, 0)[156..]
  {
    FieldAt(fs, 0);
    OffsetsAre(6);
    OffsetsAre(7);
    WidthsFillABlock();
    JoinReplaced(fs, WIDTHS, 0, 6, field);
  }

  lemma Glue(x: Bytes, rest: Bytes, at: nat, width: nat, field: Bytes)
    requires at + width <= |rest|
    ensures var all := x + rest;
      x + (rest[..at] + field + rest[at + width..]) == all[..|x| + at] + field + all[|x| + at + width..]
  {}

  /** Replacing field `j` replaces the bytes at `at`, in the fields from the `i`-th on. */
  ghost predicate ReplacedAt(fs: seq<Bytes>, i: nat, j: nat, field: Bytes, at: int) {
    && j < |fs| && 0 <= at && at + |fs[j]| <= |Join(fs, i)|
    && Join(fs[j := field], i) == Join(fs, i)[..at] + field + Join(fs, i)[at + |fs[j]|..]
  }

  lemma ReplacedFirst(fs: seq<Bytes>, j: nat, field: Bytes)
    requires j < |fs|
    ensures ReplacedAt(fs, j, j, field, 0)
  {
    JoinAfter(fs, j, field);
    var rest := Join(fs, j + 1);
    assert Join(fs, j) == fs[j] + rest && Join(fs[j := field], j) == field + rest;
  }

  lemma ReplacedLater(fs: seq<Bytes>, i: nat, j: nat, field: Bytes, at: int)
    requires i < j < |fs| && ReplacedAt(fs, i + 1, j, field, at)
    ensures ReplacedAt(fs, i, j, field, |fs[i]| + at)
  {
    var rest := Join(fs, i + 1);
    assert Join(fs, i) == fs[i] + rest && Join(fs[j := field], i) == fs[i] + Join(fs[j := field], i + 1);
    hide Join;
    Glue(fs[i], rest, at, |fs[j]|, field);
  }

  lemma {:induction false} JoinReplaced(fs: seq<Bytes>, widths: seq<nat>, i: nat, j: nat, field: Bytes)
    requires i <= j < |fs| && Fits(fs, widths)
    ensures ReplacedAt(fs, i, j, field, Total(widths, i) - Total(widths, j))
    decreases j - i
  {
    hide Join, ReplacedAt;
    if i < j {
      JoinReplaced(fs, widths, i + 1, j, field);
      ReplacedLater(fs, i, j, field, Total(widths, i + 1) - Total(widths, j));
      assert Total(widths, i) == widths[i] + Total(widths, i + 1);
    } else {
      ReplacedFirst(fs, j, field);
    }
  }

  lemma JoinAfter(fs: seq<Bytes>, j: nat, field: Bytes)
    requires j < |fs|
    ensures Join(fs[j := field], j + 1) == Join(fs, j + 1)
  {
    SameTail(fs, fs[j := field], j + 1);
  }

  lemma {:induction false} SameTail(a: seq<Bytes>, b: seq<Bytes>, i: nat)
    requires |a| == |b| && i <= |a| && forall k :: i <= k < |a| ==> a[k] == b[k]
    ensures Join(a, i) == Join(b, i)
    decreases |a| - i
  {
    if i < |a| { SameTail(a, b, i + 1); }
  }

  /** The sum of all bytes. */
  lemma {:induction false} SumOfParts(a: Bytes, b: Bytes)
    ensures Sum(a + b) == Sum(a) + Sum(b)
    ensures forall c :: Sum([c]) == c as int
  {
    forall c ensures Sum([c]) == c as int { assert [c][..0] == []; }
    if b == [] {
      assert a + b == a;
    } else {
      var n := |b| - 1;
      SumOfParts(a, b[..n]);
      assert (a + b)[..|a + b| - 1] == a + b[..n];
    }
  }

  // ---------------------------------------------------------------- names and streams

  /** A name is refused exactly when it is too long and no slash leaves a prefix and a name within their limits. */
  lemma NameRefused(name: Bytes)
    ensures SplitName(name).None? <==>
      |name| > 100 && forall k :: 0 <= k < |name| && name[k] == '/' ==> k > 155 || |name| - k - 1 > 100
  {
    if |name| > 100 { FirstSplitRefused(name, 0); }
  }

  lemma {:induction false} FirstSplitRefused(name: Bytes, i: nat)
    ensures FirstSplit(name, i).None? <==>
      forall k :: i <= k < |name| && name[k] == '/' ==> k > 155 || |name| - k - 1 > 100
    decreases |name| - i
  {
    if i < |name| { FirstSplitRefused(name, i + 1); }
  }

  /** A stream: the members, then at least two zero blocks, filled with zeros to the next whole record of 20 blocks. */
  lemma StreamShape(es: seq<Entry>, mtime: nat)
    requires AllEncodable(es, mtime)
    ensures var body := Body(es, mtime); var raw := Stream(es, mtime);
      && |raw| % 10240 == 0 && |body| + 1024 <= |raw| < |body| + 1024 + 10240
      && raw[..|body|] == body && forall i :: |body| <= i < |raw| ==> raw[i] == NUL
  {
    hide Body;
    var n := |Body(es, mtime)| + 1024;
    assert (n + 10239) / 10240 * 10240 % 10240 == 0;
  }

  /** A member: its header, its data, and zeros to the next whole block. */
  lemma MemberShape(e: Entry, mtime: nat)
    requires Encodable(e, mtime)
    ensures var b := Blocks(e, mtime); var data := DataOf(e);
      && |Header(e, mtime)| == 512 && |b| % 512 == 0 && 512 + |data| <= |b| < 512 + |data| + 512
      && b[..512] == Header(e, mtime) && b[512..512 + |data|] == data
      && forall i :: 512 + |data| <= i < |b| ==> b[i] == NUL
  {
    hide Header, Encodable, RoundUp, DataOf, Fits, FieldsWith, PartsOf, PartsOk;
    HeaderBytes(e, mtime);
    WholeBlocks(|DataOf(e)|);
    var h, data, b := Header(e, mtime), DataOf(e), Blocks(e, mtime);
    var pad := Fill(RoundUp(|data|, BLOCK) - |data|);
    assert b == h + data + pad && |b| == 512 + RoundUp(|data|, BLOCK);
    forall i | 512 + |data| <= i < |b| ensures b[i] == NUL { assert b[i] == pad[i - 512 - |data|]; }
  }

  lemma WholeBlocks(n: nat)
    ensures RoundUp(n, BLOCK) % 512 == 0 && n <= RoundUp(n, BLOCK) < n + 512
  {}

  lemma SliceOne(s: Bytes, i: nat, c: char)
    requires i < |s| && s[i..i + 1] == [c]
    ensures s[i] == c
  {}

  lemma SameSlices(h: Bytes, fs: seq<Bytes>)
    requires |h| == 512 && |fs| == 16
    requires forall j: nat | j < 16 :: OFFSETS[j] + WIDTHS[j] <= 512 && h[OFFSETS[j]..OFFSETS[j] + WIDTHS[j]] == fs[j]
    ensures h[0..100] == fs[0] && h[100..108] == fs[1] && h[108..116] == fs[2] && h[116..124] == fs[3]
    ensures h[124..136] == fs[4] && h[136..148] == fs[5] && h[148..156] == fs[6] && h[156..157] == fs[7]
    ensures h[257..265] == fs[9] && h[265..297] == fs[10] && h[297..329] == fs[11] && h[345..500] == fs[14]
  {
    forall j: nat | j < 16 ensures h[OFFSETS[j]..OFFSETS[j] + WIDTHS[j]] == fs[j] {}
    assert OFFSETS[0] == 0 && OFFSETS[1] == 100 && OFFSETS[2] == 108 && OFFSETS[3] == 116;
    assert OFFSETS[4] == 124 && OFFSETS[5] == 136 && OFFSETS[6] == 148 && OFFSETS[7] == 156;
    assert OFFSETS[9] == 257 && OFFSETS[10] == 265 && OFFSETS[11] == 297 && OFFSETS[14] == 345;
  }
}
