/** The writer and the reader as they run: a header buffer filled in place field by field, a
    loop appending chunks, and a loop moving an offset; each proved against TarFormat. */
module TarFiles {
  import opened Wrappers
  import opened TarFormat
  import opened TarRoundTrip

  /** Writes the value at the offset; false where the original throws. */
  method WriteString(header: array<byte>, offset: nat, length: nat, value: seq<byte>) returns (ok: bool)
    requires offset + length <= header.Length
    modifies header
    ensures ok == (|value| <= length)
    ensures header[..] == if ok then Patch(old(header[..]), offset, value) else old(header[..])
  {
    ok := |value| <= length;
    if !ok {
      return;
    }
    ghost var before := header[..];
    for i := 0 to |value|
      invariant header[..] == before[..offset] + value[..i] + before[offset + i..]
    {
      header[offset + i] := value[i];
    }
    assert value[..|value|] == value;
  }

  method WriteOctal(header: array<byte>, offset: nat, length: nat, value: nat) returns (ok: bool)
    requires 0 < length && offset + length <= header.Length
    modifies header
    ensures ok == OctalField(value, length).Some?
    ensures header[..] == if ok then Patch(old(header[..]), offset, OctalField(value, length).value) else old(header[..])
  {
    var encoded := PadStart(Octal(value), length - 1) + [0];
    if |encoded| > length {
      return false;
    }
    ok := WriteString(header, offset, length, encoded);
  }

  /** The last separator that leaves both parts short enough, looking from the right. */
  method SplitPath(name: seq<byte>) returns (path: Option<Path>)
    ensures path == SplitTarPath(name)
  {
    if |name| <= NAME_SIZE {
      return Some(Path(name, []));
    }
    var index := |name| - 1;
    while index >= 0
      invariant -1 <= index < |name| && SplitFrom(name, index) == SplitFrom(name, |name| - 1)
      decreases index + 1
    {
      if name[index] == SLASH {
        var prefix, suffix := name[..index], name[index + 1..];
        if |prefix| <= PREFIX_SIZE && |suffix| <= NAME_SIZE {
          return Some(Path(suffix, prefix));
        }
      }
      index := index - 1;
    }
    return None;
  }

  /** The sum of all bytes of the header. */
  method Checksum(header: array<byte>) returns (sum: nat)
    ensures sum == Sum(header[..])
  {
    sum := 0;
    for i := 0 to header.Length
      invariant sum == Sum(header[..i])
    {
      assert header[..i + 1][..i] == header[..i];
      sum := sum + header[i];
    }
    assert header[..header.Length] == header[..];
  }

  lemma LaidPrefix(fields: seq<Field>, n: nat, k: nat)
    requires Laid(fields, n) && k <= |fields|
    ensures Laid(fields[..k], n)
  {}

  /** Writing field k extends the first k fields written. */
  lemma {:induction false} OneMoreField(h: seq<byte>, fields: seq<Field>, k: nat)
    requires Laid(fields, |h|) && k < |fields|
    ensures Laid(fields[..k], |h|) && Laid(fields[..k + 1], |h|)
    ensures PatchAll(h, fields[..k + 1]) == Patch(PatchAll(h, fields[..k]), fields[k].off, fields[k].bytes)
  {
    hide Patch, Laid;
    LaidPrefix(fields, |h|, k);
    LaidPrefix(fields, |h|, k + 1);
    assert fields[..k + 1][..k] == fields[..k];
  }

  /** The plain fields 1 to 3 and 5 to 9, the same for every path and size. */
  method WriteFixed(header: array<byte>, kind: Kind, ghost path: Path, ghost size: seq<byte>)
    requires header.Length == BLOCK && |path.name| <= NAME_SIZE && |path.prefix| <= PREFIX_SIZE && |size| == 12
    modifies header
    ensures header[..] == Patch(Patch(Patch(old(header[..]), 100, Mode(kind)), 108, ZeroField(8)), 116, ZeroField(8))
  {
    OctalWidth(MODE_DIRECTORY, 7);
    OctalWidth(MODE_FILE, 7);
    assert Power8(7) == 2097152;
    var ok := WriteOctal(header, 100, 8, if kind.Directory? then MODE_DIRECTORY else MODE_FILE);
    ok := WriteOctal(header, 108, 8, 0);
    ok := WriteOctal(header, 116, 8, 0);
  }

  method WriteRest(header: array<byte>, kind: Kind)
    requires header.Length == BLOCK
    modifies header
    ensures header[..] == Patch(Patch(Patch(Patch(Patch(old(header[..]),
                            136, ZeroField(12)), 148, SPACES), 156, [Flag(kind)]), 257, USTAR), 263, VERSION)
  {
    var ok := WriteOctal(header, 136, 12, 0);
    ok := WriteString(header, 148, 8, SPACES);
    ok := WriteString(header, 156, 1, [Flag(kind)]);
    ok := WriteString(header, 257, 6, USTAR);
    ok := WriteString(header, 263, 2, VERSION);
  }

  lemma {:induction false} PatchAllJoin(h: seq<byte>, a: seq<Field>, b: seq<Field>)
    requires Laid(a, |h|) && Laid(b, |h|) && Laid(a + b, |h|)
    ensures PatchAll(h, a + b) == PatchAll(PatchAll(h, a), b)
    decreases |b|
  {
    hide Patch;
    if b == [] {
      assert a + b == a;
    } else {
      var k := |b| - 1;
      assert (a + b)[..|a| + k] == a + b[..k];
      PatchAllJoin(h, a, b[..k]);
    }
  }

  lemma PatchFront(h: seq<byte>, f: seq<Field>)
    requires |f| == 5 && Laid(f, |h|)
    ensures PatchAll(h, f) == Patch(Patch(Patch(Patch(Patch(h, f[0].off, f[0].bytes), f[1].off, f[1].bytes), f[2].off, f[2].bytes), f[3].off, f[3].bytes), f[4].off, f[4].bytes)
  {
    hide Patch, PatchAll;
    OneMoreField(h, f, 0);
    OneMoreField(h, f, 1);
    OneMoreField(h, f, 2);
    OneMoreField(h, f, 3);
    OneMoreField(h, f, 4);
    NoField(h);
    assert f[..5] == f && f[..0] == [];
  }

  lemma PatchBack(h: seq<byte>, f: seq<Field>)
    requires |f| == 6 && Laid(f, |h|)
    ensures PatchAll(h, f) == Patch(Patch(Patch(Patch(Patch(Patch(h, f[0].off, f[0].bytes), f[1].off, f[1].bytes), f[2].off, f[2].bytes), f[3].off, f[3].bytes), f[4].off, f[4].bytes), f[5].off, f[5].bytes)
  {
    hide Patch, PatchAll;
    OneMoreField(h, f, 5);
    assert f[..6] == f && f[..5][4] == f[4];
    PatchFront(h, f[..5]);
  }

  lemma NoField(h: seq<byte>)
    ensures PatchAll(h, []) == h
  {}

  /** All fields but the checksum, written in one expression. */
  lemma UnsummedIs(path: Path, kind: Kind, size: seq<byte>)
    requires |path.name| <= NAME_SIZE && |path.prefix| <= PREFIX_SIZE && |size| == 12
    ensures var h1 := Patch(Zeros(BLOCK), 0, path.name);
            var h4 := Patch(Patch(Patch(h1, 100, Mode(kind)), 108, ZeroField(8)), 116, ZeroField(8));
            var h5 := Patch(h4, 124, size);
            var h10 := Patch(Patch(Patch(Patch(Patch(h5, 136, ZeroField(12)), 148, SPACES), 156, [Flag(kind)]), 257, USTAR), 263, VERSION);
            Unsummed(path, kind, size) == Patch(h10, 345, path.prefix)
  {
    var h := Zeros(BLOCK);
    var front := FrontFields(path.name, Mode(kind), ZeroField(8), size);
    var back := BackFields(ZeroField(12), Flag(kind), path.prefix);
    PatchFront(h, front);
    PatchBack(PatchAll(h, front), back);
    PatchAllJoin(h, front, back);
    hide PatchAll, Patch, Zeros, Mode, Flag;
  }

  /** tarHeader: None where the source throws. */
  method TarHeader(e: Entry) returns (header: Option<array<byte>>)
    ensures header.Some? == TarFormat.Header(e).Some?
    ensures header.Some? ==> fresh(header.value) && header.value[..] == TarFormat.Header(e).value
  {
    hide Unsummed, Patch, SplitTarPath, PadStart, Octal;
    var buffer := new byte[BLOCK](_ => 0);
    assert buffer[..] == Zeros(BLOCK);
    var path := SplitPath(e.name);
    if path.None? {
      return None;
    }
    SplitJoins(e.name);
    var ok := WriteString(buffer, 0, NAME_SIZE, path.value.name);
    var size := OctalField(Size(e), 12);
    if size.None? {
      return None;
    }
    WriteFixed(buffer, e.kind, path.value, size.value);
    ok := WriteOctal(buffer, 124, 12, Size(e));
    WriteRest(buffer, e.kind);
    ok := WriteString(buffer, 345, PREFIX_SIZE, path.value.prefix);
    UnsummedIs(path.value, e.kind, size.value);
    ChecksumFits(buffer[..]);
    var sum := Checksum(buffer);
    ok := WriteString(buffer, 148, 8, ChecksumField(sum));
    return Some(buffer);
  }

  lemma {:induction false} BodySnoc(entries: seq<Entry>, e: Entry)
    ensures TarBody(entries + [e]).Some? <==> TarBody(entries).Some? && EntryBytes(e).Some?
    ensures TarBody(entries + [e]).Some? ==> TarBody(entries + [e]).value == TarBody(entries).value + EntryBytes(e).value
  {
    hide EntryBytes;
    if entries == [] {
      assert entries + [e] == [e];
    } else {
      assert (entries + [e])[1..] == entries[1..] + [e];
      BodySnoc(entries[1..], e);
      if TarBody(entries + [e]).Some? {
        var first, mid, last := EntryBytes(entries[0]).value, TarBody(entries[1..]).value, EntryBytes(e).value;
        assert first + (mid + last) == (first + mid) + last;
      }
    }
  }

  lemma {:induction false} BodyPrefix(entries: seq<Entry>, k: nat)
    requires k <= |entries| && TarBody(entries[..k]).None?
    ensures TarBody(entries).None?
  {
    hide EntryBytes;
    if k > 0 {
      assert entries[..k][1..] == entries[1..][..k - 1] && entries[..k][0] == entries[0];
      if TarBody(entries[..k][1..]).None? {
        BodyPrefix(entries[1..], k - 1);
      }
    }
  }

  /** buildTar: None where the source throws. */
  method BuildTar(entries: seq<Entry>) returns (tar: Option<seq<byte>>)
    ensures tar == Tar(entries)
  {
    hide Header;
    var bytes: seq<byte> := [];
    for i := 0 to |entries|
      invariant TarBody(entries[..i]) == Some(bytes)
    {
      var e := entries[i];
      assert entries[..i + 1] == entries[..i] + [e];
      BodySnoc(entries[..i], e);
      var header := TarHeader(e);
      if header.None? {
        BodyPrefix(entries, i + 1);
        return None;
      }
      ghost var before := bytes;
      bytes := bytes + header.value[..];
      if e.contents.Some? {
        bytes := bytes + e.contents.value;
        var padding := (BLOCK - |e.contents.value| % BLOCK) % BLOCK;
        if padding > 0 {
          bytes := bytes + Zeros(padding);
        }
      }
      assert bytes == before + EntryBytes(e).value;
    }
    assert entries[..|entries|] == entries;
    return Some(bytes + Zeros(2 * BLOCK));
  }

  /** inspectArchive, after gunzip. */
  method InspectArchive(tar: seq<byte>) returns (result: Inspection)
    ensures result == Walk(tar, 0, 0, false)
  {
    hide Walk, AllZero, ReadSize, ReadsAsFile, ReadName, Blocks;
    var offset, fileCount, hasEntrypoint := 0, 0, false;
    while offset + BLOCK <= |tar|
      invariant Walk(tar, offset, fileCount, hasEntrypoint) == Walk(tar, 0, 0, false)
      decreases |tar| - offset
    {
      WalkStep(tar, offset, fileCount, hasEntrypoint);
      var header := tar[offset..offset + BLOCK];
      if AllZero(header) {
        break;
      }
      var size := ReadSize(header);
      if size.None? {
        return BadSize;
      }
      if ReadsAsFile(header) {
        fileCount := fileCount + 1;
        if ReadName(header) == ENTRYPOINT {
          hasEntrypoint := true;
        }
      }
      offset := offset + BLOCK + Blocks(size.value);
    }
    WalkEnds(tar, offset, fileCount, hasEntrypoint);
    if fileCount == 0 {
      return NoFiles;
    }
    return Inspected(fileCount, hasEntrypoint);
  }

  lemma WalkEnds(tar: seq<byte>, offset: nat, fileCount: nat, hasEntrypoint: bool)
    requires offset + BLOCK > |tar| || AllZero(tar[offset..offset + BLOCK])
    ensures Walk(tar, offset, fileCount, hasEntrypoint) == if fileCount == 0 then NoFiles else Inspected(fileCount, hasEntrypoint)
  {}

  /** One header of the walk. */
  lemma WalkStep(tar: seq<byte>, offset: nat, fileCount: nat, hasEntrypoint: bool)
    requires offset + BLOCK <= |tar|
    ensures var h := tar[offset..offset + BLOCK];
            !AllZero(h) ==>
              Walk(tar, offset, fileCount, hasEntrypoint) ==
              if ReadSize(h).None? then BadSize
              else Walk(tar, offset + BLOCK + Blocks(ReadSize(h).value), if ReadsAsFile(h) then fileCount + 1 else fileCount,
                        hasEntrypoint || (ReadsAsFile(h) && ReadName(h) == ENTRYPOINT))
  {
    hide AllZero, ReadSize, ReadsAsFile, ReadName, Blocks;
  }

  /** Writing a bundle and inspecting it: whenever the writer accepts the entries, the reader
      finds exactly their files. */
  method BuildAndInspect(entries: seq<Entry>) returns (tar: Option<seq<byte>>, result: Inspection)
    requires forall e | e in entries :: NulFree(e.name)
    ensures tar.Some? <==> forall e | e in entries :: SplitTarPath(e.name).Some? && Size(e) < Power8(11)
    ensures tar.Some? ==> result == if Files(entries) == 0 then NoFiles else Inspected(Files(entries), HasEntrypoint(entries))
  {
    tar := BuildTar(entries);
    AcceptedExactly(entries);
    if tar.None? {
      return tar, NoFiles;
    }
    TarRoundTrips(entries);
    result := InspectArchive(tar.value);
  }
}
