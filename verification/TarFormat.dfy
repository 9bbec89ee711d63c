/** The ustar writer of the desktop UI bundle and the reader of the manifest builder, as
    functions on bytes (IEEE Std 1003.1, pax, "ustar Interchange Format").  Names are their
    UTF-8 bytes; a separator is one byte, so splitting bytes is splitting the string. */
module TarFormat {
  import opened Wrappers

  const BLOCK: nat := 512
  const SLASH: byte := 47
  const NAME_SIZE: nat := 100
  const PREFIX_SIZE: nat := 155

  datatype Kind = Directory | File
  datatype Entry = Entry(name: seq<byte>, kind: Kind, contents: Option<seq<byte>>)

  function Size(e: Entry): nat {
    if e.contents.Some? then |e.contents.value| else 0
  }

  function Zeros(n: nat): (z: seq<byte>)
    ensures |z| == n && forall i | 0 <= i < n :: z[i] == 0
  {
    seq(n, _ => 0)
  }

  /** h with v written at off. */
  function Patch(h: seq<byte>, off: nat, v: seq<byte>): (p: seq<byte>)
    requires off + |v| <= |h|
    ensures |p| == |h|
  {
    h[..off] + v + h[off + |v|..]
  }

  lemma PatchSlices(h: seq<byte>, off: nat, v: seq<byte>)
    requires off + |v| <= |h|
    ensures Patch(h, off, v)[off..off + |v|] == v
    ensures forall lo, hi | 0 <= lo <= hi <= |h| && (hi <= off || off + |v| <= lo) :: Patch(h, off, v)[lo..hi] == h[lo..hi]
  {}

  datatype Field = Field(off: nat, bytes: seq<byte>)

  /** The fields lie within n bytes, in order and without overlap. */
  predicate Laid(fields: seq<Field>, n: nat) {
    && (forall i | 0 <= i < |fields| :: fields[i].off + |fields[i].bytes| <= n)
    && (forall i, j | 0 <= i < j < |fields| :: fields[i].off + |fields[i].bytes| <= fields[j].off)
  }

  /** h with all fields written, in order. */
  function PatchAll(h: seq<byte>, fields: seq<Field>): (p: seq<byte>)
    requires Laid(fields, |h|)
    ensures |p| == |h|
  {
    if fields == [] then h
    else
      var last := fields[|fields| - 1];
      Patch(PatchAll(h, fields[..|fields| - 1]), last.off, last.bytes)
  }

  ghost predicate Outside(fields: seq<Field>, lo: nat, hi: nat) {
    forall i | 0 <= i < |fields| :: hi <= fields[i].off || fields[i].off + |fields[i].bytes| <= lo
  }

  /** What no field covers is left alone. */
  lemma {:induction false} PatchAllOutside(h: seq<byte>, fields: seq<Field>, lo: nat, hi: nat)
    requires Laid(fields, |h|) && lo <= hi <= |h| && Outside(fields, lo, hi)
    ensures PatchAll(h, fields)[lo..hi] == h[lo..hi]
    decreases |fields|
  {
    if fields != [] {
      var init, last := fields[..|fields| - 1], fields[|fields| - 1];
      PatchAllOutside(h, init, lo, hi);
      PatchSlices(PatchAll(h, init), last.off, last.bytes);
    }
  }

  /** Each field reads back. */
  lemma {:induction false} PatchAllField(h: seq<byte>, fields: seq<Field>, k: nat)
    requires Laid(fields, |h|) && k < |fields|
    ensures PatchAll(h, fields)[fields[k].off..fields[k].off + |fields[k].bytes|] == fields[k].bytes
    decreases |fields|
  {
    var init, last := fields[..|fields| - 1], fields[|fields| - 1];
    PatchSlices(PatchAll(h, init), last.off, last.bytes);
    if k < |fields| - 1 {
      PatchAllField(h, init, k);
    }
  }

  lemma GapOutside(fields: seq<Field>, n: nat, k: nat, end: nat)
    requires Laid(fields, n) && k < |fields|
    requires fields[k].off + |fields[k].bytes| <= end <= (if k + 1 < |fields| then fields[k + 1].off else n)
    ensures Outside(fields, fields[k].off + |fields[k].bytes|, end) && end <= n
  {}

  lemma Slices(p: seq<byte>, lo: nat, mid: nat, hi: nat)
    requires lo <= mid <= hi <= |p|
    ensures p[lo..hi] == p[lo..mid] + p[mid..hi]
  {}

  /** Field k reads back, and so does the gap behind it. */
  lemma FieldReads(h: seq<byte>, fields: seq<Field>, k: nat, end: nat)
    requires Laid(fields, |h|) && k < |fields|
    requires fields[k].off + |fields[k].bytes| <= end <= (if k + 1 < |fields| then fields[k + 1].off else |h|)
    ensures PatchAll(h, fields)[fields[k].off..end] == fields[k].bytes + h[fields[k].off + |fields[k].bytes|..end]
  {
    GapOutside(fields, |h|, k, end);
    hide *;
    PatchAllField(h, fields, k);
    PatchAllOutside(h, fields, fields[k].off + |fields[k].bytes|, end);
    Slices(PatchAll(h, fields), fields[k].off, fields[k].off + |fields[k].bytes|, end);
  }

  // ---- Numbers ----

  /** The octal text of a number, as ASCII. */
  function Octal(n: nat): (s: seq<byte>)
    ensures |s| > 0 && forall i | 0 <= i < |s| :: 48 <= s[i] < 56
  {
    if n < 8 then [48 + n] else Octal(n / 8) + [48 + n % 8]
  }

  function PadStart(s: seq<byte>, width: nat): seq<byte> {
    if |s| < width then seq(width - |s|, _ => 48) + s else s
  }

  /** The value of a run of octal digits. */
  function Value(s: seq<byte>): nat
    requires forall i | 0 <= i < |s| :: 48 <= s[i] < 56
  {
    if s == [] then 0 else Value(s[..|s| - 1]) * 8 + (s[|s| - 1] - 48)
  }

  lemma {:induction false} OctalValue(n: nat)
    ensures Value(Octal(n)) == n
  {
    if n >= 8 {
      OctalValue(n / 8);
      assert (Octal(n / 8) + [48 + n % 8])[..|Octal(n)| - 1] == Octal(n / 8);
    }
  }

  lemma {:induction false} ZerosValue(k: nat, s: seq<byte>)
    requires forall i | 0 <= i < |s| :: 48 <= s[i] < 56
    ensures Value(seq(k, _ => 48) + s) == Value(s)
    decreases |s| + k
  {
    var z: seq<byte> := seq(k, _ => 48);
    if s != [] {
      assert (z + s)[..|z + s| - 1] == z + s[..|s| - 1];
      ZerosValue(k, s[..|s| - 1]);
    } else if k > 0 {
      assert z + s == z && z[..k - 1] == seq(k - 1, _ => 48) + [];
      ZerosValue(k - 1, []);
    }
  }

  function Power8(k: nat): nat {
    if k == 0 then 1 else 8 * Power8(k - 1)
  }

  /** k digits hold exactly the numbers below 8^k. */
  lemma {:induction false} OctalWidth(n: nat, k: nat)
    requires k > 0
    ensures |Octal(n)| <= k <==> n < Power8(k)
  {
    if k > 1 && n >= 8 {
      OctalWidth(n / 8, k - 1);
      assert n < 8 * Power8(k - 1) <==> n / 8 < Power8(k - 1);
    } else if k > 1 {
      PowerPositive(k - 1);
    }
  }

  lemma PowerPositive(k: nat)
    ensures Power8(k) >= 1
  {}

  /** writeOctal's text: None when the value does not fit. */
  function OctalField(n: nat, length: nat): (f: Option<seq<byte>>)
    requires length > 0
    ensures f.Some? ==> |f.value| == length
  {
    var encoded := PadStart(Octal(n), length - 1) + [0];
    if |encoded| > length then None else Some(encoded)
  }

  // ---- Paths ----

  datatype Path = Path(name: seq<byte>, prefix: seq<byte>)

  /** The last separator at or before index i that leaves both parts short enough. */
  function SplitFrom(name: seq<byte>, i: int): Option<Path>
    requires -1 <= i < |name|
    decreases i + 1
  {
    if i < 0 then None
    else if name[i] == SLASH && i <= PREFIX_SIZE && |name| - i - 1 <= NAME_SIZE then Some(Path(name[i + 1..], name[..i]))
    else SplitFrom(name, i - 1)
  }

  function SplitTarPath(name: seq<byte>): Option<Path> {
    if |name| <= NAME_SIZE then Some(Path(name, [])) else SplitFrom(name, |name| - 1)
  }

  /** How the reader puts a name together. */
  function Join(p: Path): seq<byte> {
    if p.prefix != [] then p.prefix + [SLASH] + p.name else p.name
  }

  lemma {:induction false} SplitFromSplits(name: seq<byte>, i: int)
    requires -1 <= i < |name| && SplitFrom(name, i).Some?
    ensures var p := SplitFrom(name, i).value;
            && name == p.prefix + [SLASH] + p.name
            && |p.name| <= NAME_SIZE && |p.prefix| <= PREFIX_SIZE && |p.prefix| <= i
            && (forall j | |p.prefix| < j <= i && name[j] == SLASH :: j > PREFIX_SIZE || |name| - j - 1 > NAME_SIZE)
    decreases i + 1
  {
    if !(name[i] == SLASH && i <= PREFIX_SIZE && |name| - i - 1 <= NAME_SIZE) {
      SplitFromSplits(name, i - 1);
    } else {
      assert name == name[..i] + [name[i]] + name[i + 1..];
    }
  }

  /** A split path joins to the original, except for one shape of absolute name: a leading
      slash, one hundred more bytes, and no other slash. */
  lemma SplitJoins(name: seq<byte>)
    requires SplitTarPath(name).Some?
    ensures var p := SplitTarPath(name).value;
            && |p.name| <= NAME_SIZE && |p.prefix| <= PREFIX_SIZE
            && (Join(p) == name <==> !(|name| == 101 && name[0] == SLASH && forall j | 1 <= j < 101 :: name[j] != SLASH))
            && (Join(p) != name ==> |Join(p)| == 100)
  {
    var p := SplitTarPath(name).value;
    if |name| > NAME_SIZE {
      SplitFromSplits(name, |name| - 1);
      if p.prefix == [] {
        assert name == [SLASH] + p.name;
        assert |name| == 101 && name[1..] == p.name;
        assert Join(p) != name;
      } else if |name| == 101 {
        assert name[|p.prefix|] == SLASH;
      }
    }
  }

  /** A slash and one hundred letters: the slash is lost. */
  lemma SlashLost(name: seq<byte>)
    requires name == [SLASH] + seq(100, _ => 97)
    ensures SplitTarPath(name) == Some(Path(name[1..], [])) && Join(Path(name[1..], [])) != name
  {
    LastSlash(name, |name| - 1);
  }

  lemma {:induction false} LastSlash(name: seq<byte>, i: nat)
    requires |name| == 101 && i < 101 && name[0] == SLASH && forall j | 1 <= j < 101 :: name[j] != SLASH
    ensures SplitFrom(name, i) == Some(Path(name[1..], []))
    decreases i
  {
    if i > 0 {
      LastSlash(name, i - 1);
    }
  }

  // ---- Writing ----

  function Sum(h: seq<byte>): nat {
    if h == [] then 0 else Sum(h[..|h| - 1]) + h[|h| - 1]
  }

  lemma SumBound(h: seq<byte>)
    ensures Sum(h) <= 255 * |h|
  {}

  function ChecksumField(sum: nat): seq<byte> {
    PadStart(Octal(sum), 6) + [0, 32]
  }

  /** The sum of 512 bytes always fits six octal digits, so the field is always eight bytes. */
  lemma ChecksumFits(h: seq<byte>)
    requires |h| == BLOCK
    ensures |ChecksumField(Sum(h))| == 8
  {
    SumBound(h);
    assert Power8(6) == 262144;
    OctalWidth(Sum(h), 6);
  }

  const USTAR: seq<byte> := [117, 115, 116, 97, 114, 0]
  const VERSION: seq<byte> := [48, 48]
  const SPACES: seq<byte> := [32, 32, 32, 32, 32, 32, 32, 32]
  const MODE_DIRECTORY: nat := 493   // 0755
  const MODE_FILE: nat := 420        // 0644

  function Mode(kind: Kind): (f: seq<byte>)
    ensures |f| == 8
  {
    OctalWidth(MODE_DIRECTORY, 7);
    OctalWidth(MODE_FILE, 7);
    assert Power8(7) == 2097152;
    OctalField(if kind.Directory? then MODE_DIRECTORY else MODE_FILE, 8).value
  }

  function Flag(kind: Kind): byte {
    if kind.Directory? then 53 else 48
  }

  function ZeroField(length: nat): (f: seq<byte>)
    requires length >= 2
    ensures |f| == length
  {
    PadStart(Octal(0), length - 1) + [0]
  }

  /** Fields of that length each, laid out between lo and hi. */
  predicate LaidIn(fields: seq<Field>, lo: nat, hi: nat) {
    && (forall i | 0 <= i < |fields| :: lo <= fields[i].off && fields[i].off + |fields[i].bytes| <= hi)
    && Laid(fields, hi)
  }

  lemma LaidJoin(a: seq<Field>, b: seq<Field>, lo: nat, mid: nat, hi: nat)
    requires lo <= mid <= hi && LaidIn(a, lo, mid) && LaidIn(b, mid, hi)
    ensures LaidIn(a + b, lo, hi)
  {}

  /** Name, mode, user, group and size. */
  function FrontFields(name: seq<byte>, mode: seq<byte>, zero: seq<byte>, size: seq<byte>): (f: seq<Field>)
    requires |name| <= 100 && |mode| == 8 && |zero| == 8 && |size| == 12
    ensures LaidIn(f, 0, 136)
  {
    [Field(0, name), Field(100, mode), Field(108, zero), Field(116, zero), Field(124, size)]
  }

  /** Time, checksum and type; magic, version and prefix. */
  function BackFields(zero: seq<byte>, flag: byte, prefix: seq<byte>): (f: seq<Field>)
    requires |zero| == 12 && |prefix| <= 155
    ensures LaidIn(f, 136, BLOCK)
  {
    [Field(136, zero), Field(148, SPACES), Field(156, [flag]), Field(257, USTAR), Field(263, VERSION), Field(345, prefix)]
  }

  /** The fields written before the checksum is known; its own field holds spaces. */
  function Fields(path: Path, kind: Kind, size: seq<byte>): (f: seq<Field>)
    requires |path.name| <= NAME_SIZE && |path.prefix| <= PREFIX_SIZE && |size| == 12
    ensures |f| == 11 && Laid(f, BLOCK)
  {
    var front := FrontFields(path.name, Mode(kind), ZeroField(8), size);
    var back := BackFields(ZeroField(12), Flag(kind), path.prefix);
    LaidJoin(front, back, 0, 136, BLOCK);
    front + back
  }

  function Unsummed(path: Path, kind: Kind, size: seq<byte>): (h: seq<byte>)
    requires |path.name| <= NAME_SIZE && |path.prefix| <= PREFIX_SIZE && |size| == 12
    ensures |h| == BLOCK
  {
    PatchAll(Zeros(BLOCK), Fields(path, kind, size))
  }

  /** None when the path cannot be split or the size does not fit. */
  function Header(e: Entry): (h: Option<seq<byte>>)
    ensures h.Some? ==> |h.value| == BLOCK
  {
    var path := SplitTarPath(e.name);
    var size := OctalField(Size(e), 12);
    if path.None? || size.None? then None
    else
      SplitJoins(e.name);
      var h := Unsummed(path.value, e.kind, size.value);
      ChecksumFits(h);
      Some(Patch(h, 148, ChecksumField(Sum(h))))
  }

  function Padding(size: nat): nat {
    (BLOCK - size % BLOCK) % BLOCK
  }

  /** One entry's header, contents and padding. */
  function EntryBytes(e: Entry): Option<seq<byte>> {
    if Header(e).None? then None
    else Some(Header(e).value + (if e.contents.Some? then e.contents.value + Zeros(Padding(Size(e))) else []))
  }

  function TarBody(entries: seq<Entry>): Option<seq<byte>> {
    if entries == [] then Some([])
    else if EntryBytes(entries[0]).None? || TarBody(entries[1..]).None? then None
    else Some(EntryBytes(entries[0]).value + TarBody(entries[1..]).value)
  }

  function Tar(entries: seq<Entry>): Option<seq<byte>> {
    if TarBody(entries).None? then None else Some(TarBody(entries).value + Zeros(2 * BLOCK))
  }

  // ---- Reading ----

  predicate Breaks(b: byte) {
    b == 10 || b == 13
  }

  /** Cuts at the first NUL with no line break after it. */
  function Strip(s: seq<byte>): seq<byte> {
    if s == [] then []
    else if s[0] == 0 && forall i | 1 <= i < |s| :: !Breaks(s[i]) then []
    else [s[0]] + Strip(s[1..])
  }

  predicate Space(b: byte) {
    9 <= b <= 13 || b == 32
  }

  function TrimStart(s: seq<byte>): seq<byte> {
    if s != [] && Space(s[0]) then TrimStart(s[1..]) else s
  }

  function TrimEnd(s: seq<byte>): seq<byte> {
    if s != [] && Space(s[|s| - 1]) then TrimEnd(s[..|s| - 1]) else s
  }

  function Digits(s: seq<byte>): (d: seq<byte>)
    ensures forall i | 0 <= i < |d| :: 48 <= d[i] < 56
  {
    if s != [] && 48 <= s[0] < 56 then [s[0]] + Digits(s[1..]) else []
  }

  /** A trimmed text read as an octal number, the empty one as zero; None is not a number. */
  function ParseOctal(s: seq<byte>): Option<int> {
    if s == [] then Some(0)
    else if s[0] == 45 then (if Digits(s[1..]) == [] then None else Some(0 - Value(Digits(s[1..]))))
    else if s[0] == 43 then (if Digits(s[1..]) == [] then None else Some(Value(Digits(s[1..]))))
    else if Digits(s) == [] then None else Some(Value(Digits(s)))
  }

  /** The "ascii" decoding drops the high bit. */
  function Ascii(s: seq<byte>): seq<byte> {
    seq(|s|, i requires 0 <= i < |s| => s[i] % 128)
  }

  function ReadSize(h: seq<byte>): Option<nat>
    requires |h| == BLOCK
  {
    var size := ParseOctal(TrimEnd(TrimStart(Strip(Ascii(h[124..136])))));
    if size.None? || size.value < 0 then None else Some(size.value)
  }

  function ReadName(h: seq<byte>): seq<byte>
    requires |h| == BLOCK
  {
    Join(Path(Strip(h[..100]), Strip(h[345..500])))
  }

  predicate ReadsAsFile(h: seq<byte>)
    requires |h| == BLOCK
  {
    h[156] == 0 || h[156] == 48
  }

  /** "index.html" */
  const ENTRYPOINT: seq<byte> := [105, 110, 100, 101, 120, 46, 104, 116, 109, 108]

  predicate AllZero(h: seq<byte>) {
    forall i | 0 <= i < |h| :: h[i] == 0
  }

  function Blocks(size: nat): nat {
    (size + BLOCK - 1) / BLOCK * BLOCK
  }

  datatype Inspection = BadSize | NoFiles | Inspected(fileCount: nat, hasEntrypoint: bool)

  /** The reader's walk from an offset, with what it has counted so far. */
  function Walk(tar: seq<byte>, offset: nat, fileCount: nat, hasEntrypoint: bool): Inspection
    decreases |tar| - offset
  {
    if offset + BLOCK > |tar| || AllZero(tar[offset..offset + BLOCK]) then
      if fileCount == 0 then NoFiles else Inspected(fileCount, hasEntrypoint)
    else
      var h := tar[offset..offset + BLOCK];
      var size := ReadSize(h);
      if size.None? then BadSize
      else
        Walk(tar, offset + BLOCK + Blocks(size.value),
             if ReadsAsFile(h) then fileCount + 1 else fileCount,
             hasEntrypoint || (ReadsAsFile(h) && ReadName(h) == ENTRYPOINT))
  }

  // ---- How the reader reads what others may have written ----

  /** Numbers: a sign and trailing text are taken as by parseInt, no digit is no number, and
      blank is zero. */
  lemma NumbersRead()
    ensures ParseOctal([]) == Some(0) && ParseOctal([49, 55]) == Some(15) && ParseOctal([43, 49, 55]) == Some(15)
    ensures ParseOctal([45, 49, 55]) == Some(-15) && ParseOctal([49, 55, 56]) == Some(15) && ParseOctal([49, 32, 55]) == Some(1)
    ensures ParseOctal([56]).None? && ParseOctal([45]).None? && ParseOctal([43]).None? && ParseOctal([45, 56]).None? && ParseOctal([43, 56]).None?
  {
    DigitsRun([49], []);
    DigitsRun([49, 55], []);
    DigitsRun([49, 55], [56]);
    DigitsRun([49], [32, 55]);
    assert [43, 49, 55][1..] == [49, 55] == [45, 49, 55][1..];
    assert [45][1..] == [] && [43][1..] == [] && [45, 56][1..] == [56] == [43, 56][1..];
    assert [49, 55] + [56] == [49, 55, 56] && [49] + [32, 55] == [49, 32, 55] && [49] + [] == [49] && [49, 55] + [] == [49, 55];
    assert [49, 55][..1] == [49] && [49][..0] == [];
  }

  /** The digits at the front of a text. */
  lemma {:induction false} DigitsRun(digits: seq<byte>, rest: seq<byte>)
    requires forall i | 0 <= i < |digits| :: 48 <= digits[i] <= 55
    requires rest == [] || rest[0] < 48 || rest[0] > 55
    ensures Digits(digits + rest) == digits
    decreases |digits|
  {
    if digits == [] {
      assert digits + rest == rest;
    } else {
      assert (digits + rest)[1..] == digits[1..] + rest;
      DigitsRun(digits[1..], rest);
    }
  }

  /** Tab, line feed, vertical tab, form feed, carriage return and space are trimmed; line feed
      and carriage return stop the search for the end of a text. */
  lemma SpacesRead(b: byte)
    ensures Space(b) <==> b in {9, 10, 11, 12, 13, 32}
    ensures Breaks(b) <==> b in {10, 13}
  {}

  /** A text ends at its first NUL that no line break follows. */
  lemma {:induction false} StripExactly(s: seq<byte>) returns (k: nat)
    ensures k <= |s| && Strip(s) == s[..k]
    ensures k < |s| ==> s[k] == 0 && forall i | k < i < |s| :: s[i] != 10 && s[i] != 13
    ensures forall j | 0 <= j < k && s[j] == 0 :: exists i :: j < i < |s| && s[i] in {10, 13}
  {
    if s == [] || (s[0] == 0 && forall i | 1 <= i < |s| :: !Breaks(s[i])) {
      k := 0;
    } else {
      k := StripExactly(s[1..]);
      assert forall i | 1 <= i < |s| :: s[i] == s[1..][i - 1];
      forall j | 0 <= j < k + 1 && s[j] == 0
        ensures exists i :: j < i < |s| && s[i] in {10, 13}
      {
        if j > 0 {
          var i :| j - 1 < i < |s[1..]| && s[1..][i] in {10, 13};
          assert s[i + 1] in {10, 13};
        } else {
          var i :| 1 <= i < |s| && Breaks(s[i]);
        }
      }
      k := k + 1;
    }
  }

  /** Characters are seven bits; an entry is a file by a type of NUL or "0"; an empty block ends
      the archive; contents take whole blocks of 512 bytes. */
  lemma BlocksRead(h: seq<byte>, size: nat)
    requires |h| == BLOCK
    ensures forall i | 0 <= i < BLOCK :: Ascii(h)[i] < 128 && (h[i] < 128 ==> Ascii(h)[i] == h[i])
    ensures ReadsAsFile(h) <==> h[156] in {0, 0x30}
    ensures AllZero(h) <==> h == seq(512, _ => 0)
    ensures Blocks(size) % 512 == 0 && size <= Blocks(size) < size + 512
  {
    assert AllZero(h) ==> forall i | 0 <= i < 512 :: h[i] == seq(512, _ => 0)[i];
    assert h == seq(512, _ => 0) ==> forall i | 0 <= i < 512 :: h[i] == 0;
  }
}
