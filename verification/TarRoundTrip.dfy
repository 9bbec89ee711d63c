/** What the reader sees of what the writer wrote. */
module TarRoundTrip {
  import opened Wrappers
  import opened TarFormat

  ghost predicate NulFree(s: seq<byte>) {
    forall i | 0 <= i < |s| :: s[i] != 0
  }

  lemma StripField(s: seq<byte>, k: nat)
    requires NulFree(s)
    ensures Strip(s + Zeros(k)) == s
  {
    if s == [] {
      assert s + Zeros(k) == Zeros(k);
    } else {
      assert (s + Zeros(k))[1..] == s[1..] + Zeros(k);
      StripField(s[1..], k);
    }
  }

  lemma {:induction false} DigitsAll(s: seq<byte>)
    requires forall i | 0 <= i < |s| :: 48 <= s[i] < 56
    ensures Digits(s) == s
  {
    if s != [] {
      DigitsAll(s[1..]);
      assert s == [s[0]] + s[1..];
    }
  }

  lemma PaddedOctal(n: nat, width: nat)
    requires |Octal(n)| <= width
    ensures var digits := PadStart(Octal(n), width);
            |digits| == width && (forall i | 0 <= i < width :: 48 <= digits[i] < 56) && Value(digits) == n
  {
    hide Value, Octal;
    OctalValue(n);
    ZerosValue(width - |Octal(n)|, Octal(n));
    assert |Octal(n)| == width ==> seq(0, _ => 48) + Octal(n) == Octal(n);
  }

  lemma ParseDigits(digits: seq<byte>)
    requires |digits| > 0 && forall i | 0 <= i < |digits| :: 48 <= digits[i] < 56
    ensures TrimEnd(TrimStart(digits)) == digits && ParseOctal(digits) == Some(Value(digits))
  {
    DigitsAll(digits);
  }

  lemma AsciiDigits(digits: seq<byte>)
    requires forall i | 0 <= i < |digits| :: 48 <= digits[i] < 56
    ensures Ascii(digits + [0]) == digits + Zeros(1)
  {}

  lemma FieldIsDigits(n: nat)
    requires OctalField(n, 12).Some?
    ensures |Octal(n)| <= 11 && OctalField(n, 12).value == PadStart(Octal(n), 11) + [0]
  {}

  /** The size field prints and parses back. */
  lemma SizeReadsBack(n: nat)
    requires OctalField(n, 12).Some?
    ensures ParseOctal(TrimEnd(TrimStart(Strip(Ascii(OctalField(n, 12).value))))) == Some(n)
  {
    hide *;
    FieldIsDigits(n);
    PaddedOctal(n, 11);
    var digits := PadStart(Octal(n), 11);
    AsciiDigits(digits);
    DigitsNulFree(digits);
    StripField(digits, 1);
    ParseDigits(digits);
  }

  lemma DigitsNulFree(digits: seq<byte>)
    requires forall i | 0 <= i < |digits| :: 48 <= digits[i] < 56
    ensures NulFree(digits)
  {}

  /** One field of a zeroed block, with the zeros behind it. */
  lemma OneField(fields: seq<Field>, k: nat, end: nat)
    requires Laid(fields, BLOCK) && k < |fields|
    requires fields[k].off + |fields[k].bytes| <= end <= (if k + 1 < |fields| then fields[k + 1].off else BLOCK)
    ensures PatchAll(Zeros(BLOCK), fields)[fields[k].off..end] == fields[k].bytes + Zeros(end - fields[k].off - |fields[k].bytes|)
  {
    FieldReads(Zeros(BLOCK), fields, k, end);
    hide PatchAll;
    var mid := fields[k].off + |fields[k].bytes|;
    assert Zeros(BLOCK)[mid..end] == Zeros(end - mid);
  }

  lemma FieldPlaces(p: Path, kind: Kind, size: seq<byte>)
    requires |p.name| <= NAME_SIZE && |p.prefix| <= PREFIX_SIZE && |size| == 12
    ensures var f := Fields(p, kind, size);
            && f[0] == Field(0, p.name) && f[1].off == 100 && f[4] == Field(124, size) && f[5].off == 136
            && f[7] == Field(156, [Flag(kind)]) && f[8].off == 257 && f[10] == Field(345, p.prefix)
  {}

  /** No later field overlaps the name, the size, the type flag or the prefix. */
  lemma UnsummedFields(p: Path, kind: Kind, size: seq<byte>)
    requires |p.name| <= NAME_SIZE && |p.prefix| <= PREFIX_SIZE && |size| == 12
    ensures var u := Unsummed(p, kind, size);
            && u[..100] == p.name + Zeros(100 - |p.name|)
            && u[345..500] == p.prefix + Zeros(155 - |p.prefix|)
            && u[124..136] == size
            && u[156..157] == [Flag(kind)]
  {
    FieldPlaces(p, kind, size);
    hide Fields, PatchAll, Laid;
    var f := Fields(p, kind, size);
    OneField(f, 0, 100);
    OneField(f, 4, 136);
    OneField(f, 7, 157);
    OneField(f, 10, 500);
  }

  /** Writing the checksum field leaves the others. */
  lemma Survives(u: seq<byte>, field: seq<byte>)
    requires |u| == BLOCK && |field| == 8
    ensures var h := Patch(u, 148, field);
            h[..100] == u[..100] && h[345..500] == u[345..500] && h[124..136] == u[124..136] && h[156] == u[156]
  {}

  lemma FieldsDisjoint(e: Entry)
    requires Header(e).Some?
    ensures SplitTarPath(e.name).Some? && OctalField(Size(e), 12).Some?
    ensures var h := Header(e).value;
            var p := SplitTarPath(e.name).value;
            && |p.name| <= NAME_SIZE && |p.prefix| <= PREFIX_SIZE
            && h[..100] == p.name + Zeros(100 - |p.name|)
            && h[345..500] == p.prefix + Zeros(155 - |p.prefix|)
            && h[124..136] == OctalField(Size(e), 12).value
            && h[156] == Flag(e.kind)
  {
    SplitJoins(e.name);
    var p := SplitTarPath(e.name).value;
    var size := OctalField(Size(e), 12).value;
    var u := Unsummed(p, e.kind, size);
    ChecksumFits(u);
    UnsummedFields(p, e.kind, size);
    Survives(u, ChecksumField(Sum(u)));
    assert u[156] == u[156..157][0];
  }

  lemma FixedPlaces(p: Path, kind: Kind, size: seq<byte>)
    requires |p.name| <= NAME_SIZE && |p.prefix| <= PREFIX_SIZE && |size| == 12
    ensures var f := Fields(p, kind, size);
            && f[1] == Field(100, Mode(kind)) && f[2] == Field(108, ZeroField(8)) && f[3] == Field(116, ZeroField(8)) && f[4].off == 124
            && f[5] == Field(136, ZeroField(12)) && f[7] == Field(156, [Flag(kind)]) && f[6] == Field(148, SPACES)
            && f[8] == Field(257, USTAR) && f[9] == Field(263, VERSION) && f[10].off == 345
  {}

  lemma ModeReads(kind: Kind)
    ensures forall i | 0 <= i < 7 :: 48 <= Mode(kind)[i] < 56
    ensures Value(Mode(kind)[..7]) == if kind.Directory? then MODE_DIRECTORY else MODE_FILE
  {
    var n := if kind.Directory? then MODE_DIRECTORY else MODE_FILE;
    OctalWidth(n, 7);
    assert Power8(7) == 2097152;
    hide Value, Octal, PadStart;
    PaddedOctal(n, 7);
    assert Mode(kind)[..7] == PadStart(Octal(n), 7);
  }

  lemma ChecksumReads(h: seq<byte>)
    requires |h| == BLOCK
    ensures forall i | 0 <= i < 6 :: 48 <= ChecksumField(Sum(h))[i] < 56
    ensures Value(ChecksumField(Sum(h))[..6]) == Sum(h) && ChecksumField(Sum(h))[6..] == [0, 32]
  {
    hide Value, Octal, Sum;
    var n := Sum(h);
    ChecksumFits(h);
    assert |Octal(n)| <= 6;
    PaddedOctal(n, 6);
    hide PadStart;
    assert ChecksumField(n)[..6] == PadStart(Octal(n), 6);
  }

  /** Overwriting a field twice, back to what it was. */
  lemma PatchBack(u: seq<byte>, off: nat, v: seq<byte>, w: seq<byte>)
    requires off + |v| <= |u| && |v| == |w| && u[off..off + |w|] == w
    ensures Patch(Patch(u, off, v), off, w) == u
  {
    assert u == u[..off] + w + u[off + |w|..];
  }

  predicate OctalDigits(s: seq<byte>) {
    forall i | 0 <= i < |s| :: 48 <= s[i] < 56
  }

  const ZEROS7: seq<byte> := [0x30, 0x30, 0x30, 0x30, 0x30, 0x30, 0x30, 0]
  const ZEROS11: seq<byte> := [0x30, 0x30, 0x30, 0x30, 0x30, 0x30, 0x30, 0x30, 0x30, 0x30, 0x30, 0]

  /** Magic and version, type and mode, no owner and no time are in place, and the checksum is
      the sum of the header's bytes with the checksum field taken as spaces. */
  predicate Ustar(h: seq<byte>, kind: Kind)
    requires |h| == BLOCK
  {
    && h[257..263] == [0x75, 0x73, 0x74, 0x61, 0x72, 0] && h[263..265] == [0x30, 0x30]
    && h[156] == (if kind.Directory? then 0x35 else 0x30)
    && OctalDigits(h[100..107]) && Value(h[100..107]) == 6 * 64 + (if kind.Directory? then 64 + 5 * 8 + 5 else 4 * 8 + 4) && h[107] == 0
    && h[108..116] == h[116..124] == ZEROS7 && h[136..148] == ZEROS11
    && OctalDigits(h[148..154]) && Value(h[148..154]) == Sum(Patch(h, 148, seq(8, _ => 0x20))) && h[154..156] == [0, 0x20]
  }

  lemma ZeroFields()
    ensures ZeroField(8) == ZEROS7 && ZeroField(12) == ZEROS11
  {
    assert Octal(0) == [48];
  }

  /** The fields between which name, size and prefix stand, before the checksum. */
  predicate Placed(u: seq<byte>, kind: Kind)
    requires |u| == BLOCK
  {
    && u[100..108] == Mode(kind) && u[108..116] == u[116..124] == ZEROS7 && u[136..148] == ZEROS11
    && u[148..156] == SPACES && u[156] == Flag(kind) && u[257..263] == USTAR && u[263..265] == VERSION
  }

  lemma ModeConforms(kind: Kind)
    ensures OctalDigits(Mode(kind)[..7]) && Mode(kind)[7] == 0
    ensures Value(Mode(kind)[..7]) == 6 * 64 + if kind.Directory? then 64 + 5 * 8 + 5 else 4 * 8 + 4
  {
    ModeReads(kind);
    ModeEnds(kind);
    hide Mode, Value;
  }

  lemma ChecksumConforms(u: seq<byte>)
    requires |u| == BLOCK
    ensures |ChecksumField(Sum(u))| == 8
    ensures OctalDigits(ChecksumField(Sum(u))[..6]) && Value(ChecksumField(Sum(u))[..6]) == Sum(u) && ChecksumField(Sum(u))[6..] == [0, 0x20]
  {
    ChecksumFits(u);
    ChecksumReads(u);
    hide ChecksumField, Sum, Value;
  }

  /** A header with these fields in place and its checksum written. */
  lemma FieldsConform(u: seq<byte>, kind: Kind)
    requires |u| == BLOCK && Placed(u, kind)
    requires |ChecksumField(Sum(u))| == 8
    ensures Ustar(Patch(u, 148, ChecksumField(Sum(u))), kind)
  {
    hide ChecksumField, Sum, Patch, Mode, Value, Octal, OctalDigits;
    ChecksumConforms(u);
    ModeConforms(kind);
    assert SPACES == seq(8, _ => 0x20);
    Conforms(u, ChecksumField(Sum(u)), Mode(kind));
    KeepsAround(u, ChecksumField(Sum(u)));
  }

  lemma ModeEnds(kind: Kind)
    ensures Mode(kind)[7] == 0
  {}

  /** The checksum leaves what stands before and behind it. */
  lemma KeepsAround(u: seq<byte>, field: seq<byte>)
    requires |u| == BLOCK && |field| == 8
    ensures var h := Patch(u, 148, field);
            && h[107] == u[107] && h[108..116] == u[108..116] && h[116..124] == u[116..124] && h[136..148] == u[136..148] && h[156] == u[156]
            && h[154..156] == field[6..]
  {}

  lemma FieldsArePlaced(p: Path, kind: Kind, size: seq<byte>)
    requires |p.name| <= NAME_SIZE && |p.prefix| <= PREFIX_SIZE && |size| == 12
    ensures Placed(Unsummed(p, kind, size), kind)
  {
    var u, f := Unsummed(p, kind, size), Fields(p, kind, size);
    FixedPlaces(p, kind, size);
    ZeroFields();
    hide Fields, PatchAll, Laid, Mode, Octal, Flag, ZeroField, PadStart;
    OneField(f, 1, 108);
    OneField(f, 2, 116);
    OneField(f, 3, 124);
    OneField(f, 5, 148);
    OneField(f, 6, 156);
    OneField(f, 7, 157);
    OneField(f, 8, 263);
    OneField(f, 9, 265);
    assert u[156] == u[156..157][0];
  }

  /** Every header is a ustar header. */
  lemma HeaderConforms(e: Entry)
    requires Header(e).Some?
    ensures Ustar(Header(e).value, e.kind)
  {
    SplitJoins(e.name);
    var p, size := SplitTarPath(e.name).value, OctalField(Size(e), 12).value;
    var u := Unsummed(p, e.kind, size);
    FieldsArePlaced(p, e.kind, size);
    ChecksumFits(u);
    hide Unsummed, Placed, Ustar, Sum, ChecksumField, OctalField;
    FieldsConform(u, e.kind);
  }

  lemma Conforms(u: seq<byte>, field: seq<byte>, mode: seq<byte>)
    requires |u| == BLOCK && |field| == 8 && |mode| == 8
    requires u[100..108] == mode && u[148..156] == SPACES && u[257..263] == USTAR && u[263..265] == VERSION
    ensures var h := Patch(u, 148, field);
            && h[100..107] == mode[..7] && h[257..263] == USTAR && h[263..265] == VERSION
            && (forall i | 100 <= i < 107 :: h[i] == mode[i - 100])
            && h[148..156] == field && h[148..154] == field[..6] && Patch(h, 148, SPACES) == u
            && forall i | 148 <= i < 154 :: h[i] == field[i - 148]
  {
    PatchSlices(u, 148, field);
    PatchBack(u, 148, field, SPACES);
  }

  lemma PartsNulFree(name: seq<byte>)
    requires SplitTarPath(name).Some? && NulFree(name)
    ensures NulFree(SplitTarPath(name).value.name) && NulFree(SplitTarPath(name).value.prefix)
  {
    var p := SplitTarPath(name).value;
    if |name| > NAME_SIZE {
      SplitFromSplits(name, |name| - 1);
    }
    forall i | 0 <= i < |p.name| ensures p.name[i] != 0 { assert p.name[i] == name[|name| - |p.name| + i]; }
    forall i | 0 <= i < |p.prefix| ensures p.prefix[i] != 0 { assert p.prefix[i] == name[i]; }
  }

  /** A joined name is the entry point only if the name itself is. */
  lemma EntrypointJoins(name: seq<byte>)
    requires SplitTarPath(name).Some?
    ensures Join(SplitTarPath(name).value) == ENTRYPOINT <==> name == ENTRYPOINT
  {
    SplitJoins(name);
  }

  lemma NameReads(h: seq<byte>, p: Path)
    requires |h| == BLOCK && NulFree(p.name) && NulFree(p.prefix) && |p.name| <= NAME_SIZE && |p.prefix| <= PREFIX_SIZE
    requires h[..100] == p.name + Zeros(100 - |p.name|) && h[345..500] == p.prefix + Zeros(155 - |p.prefix|)
    ensures ReadName(h) == Join(p)
  {
    hide Strip;
    StripField(p.name, 100 - |p.name|);
    StripField(p.prefix, 155 - |p.prefix|);
  }

  lemma SizeReads(h: seq<byte>, n: nat)
    requires |h| == BLOCK && OctalField(n, 12).Some? && h[124..136] == OctalField(n, 12).value
    ensures ReadSize(h) == Some(n)
  {
    SizeReadsBack(n);
    hide OctalField, Strip, TrimStart, TrimEnd, ParseOctal, Ascii;
  }

  lemma KindReads(h: seq<byte>, kind: Kind)
    requires |h| == BLOCK && h[156] == Flag(kind)
    ensures (ReadsAsFile(h) <==> kind.File?) && !AllZero(h)
  {}

  /** The reader sees the entry's joined name, its size and its kind. */
  lemma HeaderReads(e: Entry)
    requires Header(e).Some? && NulFree(e.name)
    ensures var h := Header(e).value;
            && ReadName(h) == Join(SplitTarPath(e.name).value)
            && ReadSize(h) == Some(Size(e))
            && (ReadsAsFile(h) <==> e.kind.File?)
            && !AllZero(h)
            && (ReadName(h) == ENTRYPOINT <==> e.name == ENTRYPOINT)
  {
    FieldsDisjoint(e);
    hide *;
    var h := Header(e).value;
    PartsNulFree(e.name);
    NameReads(h, SplitTarPath(e.name).value);
    SizeReads(h, Size(e));
    KindReads(h, e.kind);
    EntrypointJoins(e.name);
  }

  lemma WholeBlocks(n: nat)
    ensures n + Padding(n) == Blocks(n)
  {}

  /** The reader steps exactly over one entry. */
  lemma EntryLength(e: Entry)
    requires EntryBytes(e).Some?
    ensures |EntryBytes(e).value| == BLOCK + Blocks(Size(e))
  {
    WholeBlocks(Size(e));
    hide Header, Blocks;
  }

  function Files(entries: seq<Entry>): nat {
    if entries == [] then 0 else (if entries[0].kind.File? then 1 else 0) + Files(entries[1..])
  }

  ghost predicate HasEntrypoint(entries: seq<Entry>) {
    exists e :: e in entries && e.kind.File? && e.name == ENTRYPOINT
  }

  lemma EntrypointCons(entries: seq<Entry>)
    requires entries != []
    ensures HasEntrypoint(entries) <==> (entries[0].kind.File? && entries[0].name == ENTRYPOINT) || HasEntrypoint(entries[1..])
  {}

  /** One turn of the reader's loop at the start of an entry. */
  lemma WalkOne(tar: seq<byte>, offset: nat, e: Entry, rest: seq<byte>, count: nat, found: bool)
    requires EntryBytes(e).Some? && NulFree(e.name)
    requires offset <= |tar| && tar[offset..] == EntryBytes(e).value + rest
    ensures var next := offset + |EntryBytes(e).value|;
            && next <= |tar| && tar[next..] == rest
            && Walk(tar, offset, count, found) ==
                 Walk(tar, next, if e.kind.File? then count + 1 else count, found || (e.kind.File? && e.name == ENTRYPOINT))
  {
    hide Header, ReadName, ReadSize, ReadsAsFile, AllZero;
    EntryLength(e);
    HeaderReads(e);
    assert tar[offset..][..BLOCK] == Header(e).value;
    assert tar[offset..offset + BLOCK] == tar[offset..][..BLOCK];
    assert tar[offset + |EntryBytes(e).value|..] == tar[offset..][|EntryBytes(e).value|..];
  }

  lemma {:induction false} WalkEntries(tar: seq<byte>, offset: nat, entries: seq<Entry>, count: nat, found: bool)
    requires TarBody(entries).Some? && forall e | e in entries :: NulFree(e.name)
    requires offset <= |tar| && tar[offset..] == TarBody(entries).value + Zeros(2 * BLOCK)
    ensures Walk(tar, offset, count, found) ==
              if count + Files(entries) == 0 then NoFiles else Inspected(count + Files(entries), found || HasEntrypoint(entries))
    decreases |entries|
  {
    hide Header, EntryBytes, ReadName, ReadSize, ReadsAsFile;
    if entries == [] {
      assert tar[offset..offset + BLOCK] == tar[offset..][..BLOCK] == Zeros(2 * BLOCK)[..BLOCK];
    } else {
      var e := entries[0];
      var rest := TarBody(entries[1..]).value + Zeros(2 * BLOCK);
      assert tar[offset..] == EntryBytes(e).value + rest;
      WalkOne(tar, offset, e, rest, count, found);
      WalkEntries(tar, offset + |EntryBytes(e).value|, entries[1..], if e.kind.File? then count + 1 else count,
                  found || (e.kind.File? && e.name == ENTRYPOINT));
      EntrypointCons(entries);
    }
  }

  /** For every list of entries the writer accepts, the reader walks exactly the entry
      boundaries and reports the number of file entries and whether one is index.html. */
  lemma TarRoundTrips(entries: seq<Entry>)
    requires Tar(entries).Some? && forall e | e in entries :: NulFree(e.name)
    ensures Walk(Tar(entries).value, 0, 0, false) ==
              if Files(entries) == 0 then NoFiles else Inspected(Files(entries), HasEntrypoint(entries))
  {
    var tar := Tar(entries).value;
    assert tar[0..] == tar;
    WalkEntries(tar, 0, entries, 0, false);
  }

  /** What the writer accepts: names that split, and sizes below 8^11. */
  lemma AcceptedExactly(entries: seq<Entry>)
    ensures Tar(entries).Some? <==> forall e | e in entries :: SplitTarPath(e.name).Some? && Size(e) < Power8(11)
  {
    if entries != [] {
      AcceptedExactly(entries[1..]);
      OctalWidth(Size(entries[0]), 11);
    }
  }
}
