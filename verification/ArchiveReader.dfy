/**
  The two independent readers of the payload format, and extraction.

  Both readers are proved against the same structural index, so their agreement is a
  consequence: they differ only in which names they accept and in who checks ranges.
 */
module ArchiveReader {
  import opened Bytes
  import opened Wrappers
  import opened ArchiveFormat
  import opened Paths
  import Crc32

  // ----- names -----

  ghost predicate AllSafe(entries: seq<FileEntry>) {
    forall i :: 0 <= i < |entries| ==> IsSafeRelativePath(entries[i].path)
  }

  // ----- the installer's reader -----

  datatype ArchiveView =
    ArchiveView(algorithm: nat, uncompressedTotal: nat, files: seq<FileEntry>, blob: seq<byte>, dataRegionBegin: nat)

  method ReadU16(p: seq<byte>, offset: nat) returns (r: Option<nat>, next: nat)
    ensures r == if offset + 2 <= |p| then Some(LittleEndianValue(p[offset..offset + 2])) else None
    ensures next == if r.Some? then offset + 2 else offset
  {
    if offset + 2 > |p| { return None, offset; }
    ghost var f := p[offset..offset + 2];
    assert f[1..][1..] == [];
    assert LittleEndianValue(f) == f[0] + 256 * LittleEndianValue(f[1..]);
    return Some((p[offset] as int) + 256 * (p[offset + 1] as int)), offset + 2;
  }

  /** Reading n little-endian bytes, accumulating each at its place. */
  method ReadUint(p: seq<byte>, offset: nat, n: nat) returns (r: Option<nat>, next: nat)
    ensures r == if offset + n <= |p| then Some(LittleEndianValue(p[offset..offset + n])) else None
    ensures next == if r.Some? then offset + n else offset
  {
    hide LittleEndianValue;
    if offset + n > |p| { return None, offset; }
    var value: nat, weight: nat := 0, 1;
    var i := 0;
    while i < n
      invariant 0 <= i <= n
      invariant LittleEndianValue(p[offset..offset + n])
             == value + weight * LittleEndianValue(p[offset + i..offset + n])
    {
      FieldStep(p, offset + i, offset + n, value, weight);
      value := value + weight * (p[offset + i] as int);
      weight := 256 * weight;
      i := i + 1;
    }
    EmptyField(p, offset + n);
    return Some(value), offset + n;
  }

  lemma EmptyField(p: seq<byte>, at: nat)
    requires at <= |p|
    ensures LittleEndianValue(p[at..at]) == 0
  {
  }

  lemma FieldStep(p: seq<byte>, at: nat, end: nat, value: nat, weight: nat)
    requires at < end <= |p|
    ensures value + weight * LittleEndianValue(p[at..end])
         == (value + weight * (p[at] as int)) + (256 * weight) * LittleEndianValue(p[at + 1..end])
  {
    var rest := LittleEndianValue(p[at + 1..end]);
    assert p[at..end][1..] == p[at + 1..end];
    assert LittleEndianValue(p[at..end]) == (p[at] as int) + 256 * rest;
    assert weight * ((p[at] as int) + 256 * rest) == weight * (p[at] as int) + (256 * weight) * rest;
  }

  /** One table entry, field by field. */
  method ReadEntry(data: seq<byte>, start: nat) returns (r: Option<FileEntry>, offset: nat)
    ensures r.Some? <==> EntryAt(data, start).Some? && IsSafeRelativePath(EntryAt(data, start).value.0.path)
    ensures r.Some? ==> EntryAt(data, start) == Some((r.value, offset))
  {
    hide LittleEndianValue;
    offset := start;
    var pathLen;
    pathLen, offset := ReadU16(data, offset);
    if pathLen.None? { return None, offset; }
    if offset + pathLen.value > |data| { return None, offset; }
    var path := data[offset..offset + pathLen.value];
    offset := offset + pathLen.value;
    ghost var tail := offset;
    if !IsSafeRelativePath(path) { return None, offset; }
    var off, csize, usize, crc;
    off, offset := ReadUint(data, offset, 8);
    if off.None? { return None, offset; }
    csize, offset := ReadUint(data, offset, 8);
    if csize.None? { return None, offset; }
    usize, offset := ReadUint(data, offset, 8);
    if usize.None? { return None, offset; }
    crc, offset := ReadUint(data, offset, 4);
    if crc.None? { return None, offset; }
    ghost var t := data[tail..tail + ENTRY_TAIL];
    SliceOfSlice(data, tail, tail + ENTRY_TAIL, 0, 8);
    SliceOfSlice(data, tail, tail + ENTRY_TAIL, 8, 16);
    SliceOfSlice(data, tail, tail + ENTRY_TAIL, 16, 24);
    SliceOfSlice(data, tail, tail + ENTRY_TAIL, 24, 28);
    assert t[..8] == t[0..8];
    return Some(FileEntry(path, off.value, csize.value, usize.value, crc.value)), offset;
  }

  /** What the installer's reader accepts: the structural index with safe names. */
  ghost predicate Parses(data: seq<byte>, view: ArchiveView) {
    match IndexOf(data)
    case None => false
    case Some(ix) =>
      AllSafe(ix.entries) && view == ArchiveView(ix.flags % 256, ix.total, ix.entries, data, ix.dataBegin)
  }

  method ParseArchive(data: seq<byte>) returns (r: Option<ArchiveView>)
    ensures r.Some? <==> IndexOf(data).Some? && AllSafe(IndexOf(data).value.entries)
    ensures r.Some? ==> Parses(data, r.value)
    ensures r.Some? ==> forall i :: 0 <= i < |r.value.files| ==> StaysBelow(r.value.files[i].path)
  {
    hide EntryAt, LittleEndianValue, StaysBelow, IsSafeRelativePath;
    if |data| < 6 + 4 + 8 + 4 { return None; }
    if data[..6] != MAGIC { return None; }
    var flags, total, count, offset := None, None, None, 6;
    flags, offset := ReadUint(data, offset, 4);
    total, offset := ReadUint(data, offset, 8);
    count, offset := ReadUint(data, offset, 4);
    var files: seq<FileEntry> := [];
    ghost var goal := TableAt(data, HEADER_LEN, count.value);
    RestStart(goal);
    for i := 0 to count.value
      invariant Rest(goal, files, TableAt(data, offset, count.value - i))
      invariant AllSafe(files)
    {
      ghost var here := TableAt(data, offset, count.value - i);
      var entry, next := ReadEntry(data, offset);
      if entry.None? {
        UnsafeOrMissing(data, offset, count.value - i, goal, files);
        return None;
      }
      RestStep(goal, files, data, offset, count.value - i);
      files := files + [entry.value];
      offset := next;
    }
    RestDone(goal, files, offset);
    AllStayBelow(files);
    return Some(ArchiveView(flags.value % 256, total.value, files, data, offset));
  }

  lemma AllStayBelow(files: seq<FileEntry>)
    requires AllSafe(files)
    ensures forall i :: 0 <= i < |files| ==> StaysBelow(files[i].path)
  {
    hide IsSafeRelativePath, StaysBelow;
    forall i | 0 <= i < |files|
      ensures StaysBelow(files[i].path)
    {
      SafeStaysBelow(files[i].path);
    }
  }

  /** The table being looked for is the entries read so far followed by the rest. */
  ghost predicate Rest(goal: Option<Table>, files: seq<FileEntry>, rest: Option<Table>) {
    match rest
    case None => goal.None?
    case Some(t) => goal == Some(Table(files + t.entries, t.end))
  }

  lemma RestStart(goal: Option<Table>)
    ensures Rest(goal, [], goal)
  {
    if goal.Some? {
      assert [] + goal.value.entries == goal.value.entries;
    }
  }

  lemma RestStep(goal: Option<Table>, files: seq<FileEntry>, data: seq<byte>, offset: nat, n: nat)
    requires n > 0 && EntryAt(data, offset).Some?
    requires Rest(goal, files, TableAt(data, offset, n))
    ensures var (e, next) := EntryAt(data, offset).value; Rest(goal, files + [e], TableAt(data, next, n - 1))
  {
    hide EntryAt;
    var (e, next) := EntryAt(data, offset).value;
    var t := TableAt(data, next, n - 1);
    if t.Some? {
      assert files + ([e] + t.value.entries) == (files + [e]) + t.value.entries;
    }
  }

  lemma RestDone(goal: Option<Table>, files: seq<FileEntry>, offset: nat)
    requires Rest(goal, files, Some(Table([], offset)))
    ensures goal == Some(Table(files, offset))
  {
    assert files + [] == files;
  }

  lemma UnsafeOrMissing(data: seq<byte>, offset: nat, n: nat, goal: Option<Table>, files: seq<FileEntry>)
    requires n > 0
    requires Rest(goal, files, TableAt(data, offset, n))
    requires EntryAt(data, offset).Some? ==> !IsSafeRelativePath(EntryAt(data, offset).value.0.path)
    ensures goal.Some? ==> !AllSafe(goal.value.entries)
  {
    hide EntryAt, IsSafeRelativePath;
    if goal.Some? {
      var t := TableAt(data, offset, n).value;
      assert goal.value.entries[|files|] == t.entries[0] == EntryAt(data, offset).value.0;
    }
  }

  // ----- the inspection script's reader -----

  datatype Inspected = Inspected(flags: nat, total: nat, files: seq<FileEntry>, dataRegionBegin: nat, compressedTotal: nat)

  ghost predicate AllDecode(utf8: Path -> bool, entries: seq<FileEntry>) {
    forall i :: 0 <= i < |entries| ==> utf8(entries[i].path)
  }

  /** Every entry's slice lies inside the blob, with no wrap-around. */
  ghost predicate AllInRange(entries: seq<FileEntry>, begin: nat, size: nat) {
    forall i :: 0 <= i < |entries| ==> begin + entries[i].offset + entries[i].compressedSize <= size
  }

  function CompressedTotal(entries: seq<FileEntry>): nat {
    if entries == [] then 0 else CompressedTotal(entries[..|entries| - 1]) + entries[|entries| - 1].compressedSize
  }

  /** The script reads the name and its fixed tail behind one length check, then checks all ranges. */
  method PyParseArchive(blob: seq<byte>, utf8: Path -> bool) returns (r: Option<Inspected>)
    ensures r.Some? <==>
            && IndexOf(blob).Some?
            && AllDecode(utf8, IndexOf(blob).value.entries)
            && AllInRange(IndexOf(blob).value.entries, IndexOf(blob).value.dataBegin, |blob|)
    ensures r.Some? ==>
              var ix := IndexOf(blob).value;
              r.value == Inspected(ix.flags, ix.total, ix.entries, ix.dataBegin, CompressedTotal(ix.entries))
  {
    hide LittleEndianValue, TableAt;
    if |blob| < 22 || blob[..6] != MAGIC { return None; }
    var flags, total, count := LittleEndianValue(blob[6..10]), LittleEndianValue(blob[10..18]), LittleEndianValue(blob[18..22]);
    var table := PyReadTable(blob, count, utf8);
    if table.None? { return None; }
    var sum := PyCheckRanges(table.value.entries, table.value.end, |blob|);
    if sum.None? { return None; }
    return Some(Inspected(flags, total, table.value.entries, table.value.end, sum.value));
  }

  method PyReadTable(blob: seq<byte>, count: nat, utf8: Path -> bool) returns (r: Option<Table>)
    ensures
      var goal := TableAt(blob, HEADER_LEN, count);
      if goal.Some? && AllDecode(utf8, goal.value.entries) then r == goal else r.None?
  {
    hide EntryAt, LittleEndianValue;
    var pos: nat := 22;
    var files: seq<FileEntry> := [];
    ghost var goal := TableAt(blob, HEADER_LEN, count);
    RestStart(goal);
    for i := 0 to count
      invariant Rest(goal, files, TableAt(blob, pos, count - i))
      invariant AllDecode(utf8, files)
    {
      var entry, next := PyReadEntry(blob, pos);
      if entry.None? || !utf8(entry.value.path) {
        BadNameOrMissing(blob, pos, count - i, goal, files, utf8);
        return None;
      }
      RestStep(goal, files, blob, pos, count - i);
      files := files + [entry.value];
      pos := next;
    }
    RestDone(goal, files, pos);
    return Some(Table(files, pos));
  }

  method PyCheckRanges(files: seq<FileEntry>, pos: nat, size: nat) returns (sum: Option<nat>)
    ensures sum.Some? <==> AllInRange(files, pos, size)
    ensures sum.Some? ==> sum.value == CompressedTotal(files)
  {
    var total := 0;
    for j := 0 to |files|
      invariant AllInRange(files[..j], pos, size)
      invariant total == CompressedTotal(files[..j])
    {
      if pos + files[j].offset + files[j].compressedSize > size { return None; }
      assert files[..j + 1][..j] == files[..j];
      total := total + files[j].compressedSize;
    }
    assert files[..|files|] == files;
    return Some(total);
  }

  method PyReadEntry(blob: seq<byte>, start: nat) returns (r: Option<FileEntry>, pos: nat)
    ensures if r.Some? then EntryAt(blob, start) == Some((r.value, pos)) else EntryAt(blob, start).None?
  {
    hide LittleEndianValue;
    pos := start;
    if pos + 2 > |blob| { return None, pos; }
    var nameSize := LittleEndianValue(blob[pos..pos + 2]);
    pos := pos + 2;
    if pos + nameSize + 28 > |blob| { return None, pos; }
    var name := blob[pos..pos + nameSize];
    pos := pos + nameSize;
    var entry := ParseTail(name, blob[pos..pos + 28]);
    return Some(entry), pos + 28;
  }

  lemma BadNameOrMissing(data: seq<byte>, offset: nat, n: nat, goal: Option<Table>, files: seq<FileEntry>,
                         utf8: Path -> bool)
    requires n > 0
    requires Rest(goal, files, TableAt(data, offset, n))
    requires EntryAt(data, offset).Some? ==> !utf8(EntryAt(data, offset).value.0.path)
    ensures goal.Some? ==> !AllDecode(utf8, goal.value.entries)
  {
    hide EntryAt;
    if goal.Some? {
      var t := TableAt(data, offset, n).value;
      assert goal.value.entries[|files|] == t.entries[0] == EntryAt(data, offset).value.0;
    }
  }

  // ----- extraction -----

  datatype ExtractError =
    | EmptyBlob
    | Unsupported
    | UnsafePath
    | StoreSizeMismatch
    | OutOfRange
    | DecompressFailed
    | CrcMismatch
    | Undefined  // the wrapped range check passed but the slice is not inside the blob

  const LZMS_LIMIT := 512 * 1024 * 1024

  /** The decompressor gives nothing for a size beyond its limit. */
  function DecompressLzms(payload: seq<byte>, size: nat, decompress: (seq<byte>, nat) -> seq<byte>): seq<byte> {
    if size > LZMS_LIMIT then [] else decompress(payload, size)
  }

  /** Extracting one entry. Sizes are 64-bit, so the range check wraps as the code's does. */
  function ExtractEntry(v: ArchiveView, e: FileEntry, decompress: (seq<byte>, nat) -> seq<byte>)
    : (r: Result<seq<byte>, ExtractError>)
  {
    ExtractAt(v, e, (v.dataRegionBegin + e.offset) % U64, decompress)
  }

  function ExtractAt(v: ArchiveView, e: FileEntry, dataOff: nat, decompress: (seq<byte>, nat) -> seq<byte>)
    : (r: Result<seq<byte>, ExtractError>)
  {
    if !IsSafeRelativePath(e.path) then Err(UnsafePath)
    else if v.algorithm == STORE && e.compressedSize != e.uncompressedSize then Err(StoreSizeMismatch)
    else if (dataOff + e.compressedSize) % U64 > |v.blob| then Err(OutOfRange)
    else if dataOff + e.compressedSize > |v.blob| then Err(Undefined)
    else
      var payload := v.blob[dataOff..dataOff + e.compressedSize];
      var plain := if v.algorithm == STORE then payload else DecompressLzms(payload, e.uncompressedSize, decompress);
      if |plain| != e.uncompressedSize then Err(DecompressFailed)
      else if CrcOf(plain) != e.crc32 then Err(CrcMismatch)
      else Ok(plain)
  }

  /** What is extracted has the size and checksum its entry declares, under a path that stays below the
      target. */
  lemma ExtractedIsSound(v: ArchiveView, e: FileEntry, decompress: (seq<byte>, nat) -> seq<byte>)
    requires ExtractEntry(v, e, decompress).Ok?
    ensures
      var data := ExtractEntry(v, e, decompress).value;
      |data| == e.uncompressedSize && CrcOf(data) == e.crc32 && StaysBelow(e.path)
  {
    hide CrcOf, IsSafeRelativePath, StaysBelow;
    SafeStaysBelow(e.path);
  }

  /** The files written, in table order, up to the first failure. */
  method ExtractArchive(v: ArchiveView, decompress: (seq<byte>, nat) -> seq<byte>)
    returns (written: seq<(Path, seq<byte>)>, error: Option<ExtractError>)
    ensures v.blob == [] ==> error == Some(EmptyBlob)
    ensures v.blob != [] && v.algorithm != STORE && v.algorithm != WINDOWS_LZMS ==> error == Some(Unsupported)
    ensures |written| <= |v.files|
    ensures forall i :: 0 <= i < |written| ==>
              && ExtractEntry(v, v.files[i], decompress) == Ok(written[i].1)
              && written[i].0 == v.files[i].path
    ensures forall i :: 0 <= i < |written| ==> StaysBelow(written[i].0)
    ensures error.None? ==> |written| == |v.files|
    ensures v.blob != [] && (v.algorithm == STORE || v.algorithm == WINDOWS_LZMS) && error.Some? ==>
              |written| < |v.files| && ExtractEntry(v, v.files[|written|], decompress) == Err(error.value)
  {
    hide ExtractEntry, CrcOf, StaysBelow;
    written := [];
    if v.blob == [] { return written, Some(EmptyBlob); }
    if v.algorithm != STORE && v.algorithm != WINDOWS_LZMS { return written, Some(Unsupported); }
    for i := 0 to |v.files|
      invariant |written| == i
      invariant forall j :: 0 <= j < i ==>
                  && ExtractEntry(v, v.files[j], decompress) == Ok(written[j].1)
                  && written[j].0 == v.files[j].path
      invariant forall j :: 0 <= j < i ==> StaysBelow(written[j].0)
    {
      var r := ExtractEntry(v, v.files[i], decompress);
      if r.Err? { return written, Some(r.error); }
      ExtractedIsSound(v, v.files[i], decompress);
      written := written + [(v.files[i].path, r.value)];
    }
    return written, None;
  }

  // ----- what the wrapped range check lets through -----

  /** What a parsed archive has: the blob fits memory, its data start lies in it, fields are 64 bits. */
  ghost predicate Loaded(v: ArchiveView, e: FileEntry) {
    |v.blob| < U64 && v.dataRegionBegin <= |v.blob| && e.offset < U64 && e.compressedSize < U64
  }

  /** The checks in front of the range check. */
  predicate Admissible(v: ArchiveView, e: FileEntry) {
    IsSafeRelativePath(e.path) && (v.algorithm == STORE ==> e.compressedSize == e.uncompressedSize)
  }

  function SliceStart(v: ArchiveView, e: FileEntry): nat {
    (v.dataRegionBegin + e.offset) % U64
  }

  /** Extraction leaves the blob if and only if the sum of start and size wraps to an end inside it. */
  lemma UndefinedIff(v: ArchiveView, e: FileEntry, decompress: (seq<byte>, nat) -> seq<byte>)
    requires Loaded(v, e)
    ensures
      var end := SliceStart(v, e) + e.compressedSize;
      ExtractEntry(v, e, decompress) == Err(Undefined)
      <==> Admissible(v, e) && end >= U64 && end - U64 <= |v.blob|
  {
    hide CrcOf, IsSafeRelativePath;
    var end := SliceStart(v, e) + e.compressedSize;
    assert end % U64 == if end >= U64 then end - U64 else end;
  }

  /** The slice lies in the data region. */
  ghost predicate InRegion(v: ArchiveView, e: FileEntry) {
    v.dataRegionBegin <= SliceStart(v, e) && SliceStart(v, e) + e.compressedSize <= |v.blob|
  }

  /** What gets past the range check is the data region's own bytes if and only if neither sum wraps;
      that is exactly when the inspection script, which does not wrap, accepts the entry. */
  lemma InRegionIff(v: ArchiveView, e: FileEntry, decompress: (seq<byte>, nat) -> seq<byte>)
    requires Loaded(v, e) && Admissible(v, e) && ExtractEntry(v, e, decompress) != Err(OutOfRange)
    ensures InRegion(v, e)
       <==> v.dataRegionBegin + e.offset < U64 && SliceStart(v, e) + e.compressedSize < U64
    ensures InRegion(v, e) <==> AllInRange([e], v.dataRegionBegin, |v.blob|)
  {
    hide CrcOf, IsSafeRelativePath;
    var start, end := SliceStart(v, e), SliceStart(v, e) + e.compressedSize;
    assert start == if v.dataRegionBegin + e.offset >= U64 then v.dataRegionBegin + e.offset - U64 else v.dataRegionBegin + e.offset;
    assert end % U64 == if end >= U64 then end - U64 else end;
    assert AllInRange([e], v.dataRegionBegin, |v.blob|) <==> v.dataRegionBegin + e.offset + e.compressedSize <= |v.blob| by {
      assert [e][0] == e;
    }
  }

  /** An archive of one stored entry named "a". */
  function OneEntry(offset: nat, size: nat, crc: nat): seq<byte> {
    HeaderBytes(STORE, 0, 1) + (TableBytes([FileEntry([0x61], offset, size, size, crc)]) + [])
  }

  function OneEntryView(offset: nat, size: nat, crc: nat): ArchiveView {
    ArchiveView(STORE, 0, [FileEntry([0x61], offset, size, size, crc)], OneEntry(offset, size, crc), 53)
  }

  lemma OneEntryParses(offset: nat, size: nat, crc: nat)
    requires offset < U64 && size < U64 && crc < U32
    ensures |OneEntry(offset, size, crc)| == 53
    ensures Parses(OneEntry(offset, size, crc), OneEntryView(offset, size, crc))
    ensures IsSafeRelativePath([0x61])
  {
    hide HeaderBytes, EntryBytes, IndexOf;
    var e := FileEntry([0x61], offset, size, size, crc);
    TableOne(e);
    IndexOfArchive(STORE, 0, [e], []);
    assert Counted([e]) == [e];
  }

  /** An archive that is read and then left: its one entry claims almost 2^64 bytes. */
  lemma LeavesTheBlob(decompress: (seq<byte>, nat) -> seq<byte>)
    ensures
      var v := OneEntryView(0, U64 - 10, 0);
      Parses(v.blob, v) && ExtractEntry(v, v.files[0], decompress) == Err(Undefined)
  {
    hide OneEntryView, ExtractEntry, Parses;
    WrappedEnd(0, U64 - 10, 0, decompress);
  }

  lemma WrappedEnd(offset: nat, size: nat, crc: nat, decompress: (seq<byte>, nat) -> seq<byte>)
    requires offset == 0 && U64 - 53 <= size < U64 && crc < U32
    ensures
      var v := OneEntryView(offset, size, crc);
      && |v.files| > 0
      && Parses(v.blob, v) && ExtractEntry(v, v.files[0], decompress) == Err(Undefined)
  {
    hide CrcOf, IsSafeRelativePath, OneEntry, ExtractEntry, Parses;
    OneEntryParses(offset, size, crc);
    var v := OneEntryView(offset, size, crc);
    UndefinedIff(v, v.files[0], decompress);
  }

  /** An archive whose one entry starts before the data region: its offset wraps to the header, and the
      magic is extracted as the file, while the script refuses it. */
  lemma ReadsTheHeader(decompress: (seq<byte>, nat) -> seq<byte>)
    ensures
      var v := OneEntryView(U64 - 53, 6, CrcOf(MAGIC));
      && |v.files| > 0
      && Parses(v.blob, v)
      && ExtractEntry(v, v.files[0], decompress) == Ok(MAGIC)
      && !AllInRange(v.files, v.dataRegionBegin, |v.blob|)
  {
    hide CrcOf, OneEntryView, ExtractEntry, Parses;
    var crc := CrcOf(MAGIC);
    OneEntryMagic(U64 - 53, 6, crc);
    WrappedStart(U64 - 53, 6, crc, MAGIC, decompress);
  }

  lemma WrappedStart(offset: nat, size: nat, crc: nat, data: seq<byte>, decompress: (seq<byte>, nat) -> seq<byte>)
    requires offset == U64 - 53 && size == |data| <= 53 && crc == CrcOf(data)
    requires |OneEntry(offset, size, crc)| >= size && OneEntry(offset, size, crc)[0..size] == data
    ensures
      var v := OneEntryView(offset, size, crc);
      && |v.files| > 0
      && Parses(v.blob, v)
      && ExtractEntry(v, v.files[0], decompress) == Ok(data)
      && !AllInRange(v.files, v.dataRegionBegin, |v.blob|)
  {
    hide CrcOf, IsSafeRelativePath, OneEntry, ExtractEntry, Parses;
    OneEntryParses(offset, size, crc);
    var v := OneEntryView(offset, size, crc);
    var e := v.files[0];
    assert SliceStart(v, e) == 0;
    StoredSlice(v, e, 0, data, decompress);
    assert v.dataRegionBegin + v.files[0].offset + v.files[0].compressedSize > |v.blob|;
  }

  lemma StoredSlice(v: ArchiveView, e: FileEntry, at: nat, data: seq<byte>, decompress: (seq<byte>, nat) -> seq<byte>)
    requires v.algorithm == STORE && at == SliceStart(v, e)
    requires at + |data| <= |v.blob| < U64 && v.blob[at..at + |data|] == data
    requires e.compressedSize == |data| && e.uncompressedSize == |data| && e.crc32 == CrcOf(data) && IsSafeRelativePath(e.path)
    ensures ExtractEntry(v, e, decompress) == Ok(data)
  {
    hide CrcOf, IsSafeRelativePath;
  }

  lemma OneEntryMagic(offset: nat, size: nat, crc: nat)
    ensures |OneEntry(offset, size, crc)| >= 6 && OneEntry(offset, size, crc)[0..6] == MAGIC
  {
    hide TableBytes;
  }

  // ----- corruption -----

  lemma {:induction false} BitsOfAt(data: seq<bv8>, j: nat)
    requires j < 8 * |data|
    ensures Crc32.BitsOf(data)[j] == Crc32.BitsOfByte(data[j / 8])[j % 8]
  {
    hide Crc32.BitsOfByte;
    if j >= 8 {
      BitsOfAt(data[1..], j - 8);
      assert (j - 8) / 8 == j / 8 - 1 && (j - 8) % 8 == j % 8;
    }
  }

  lemma FromBitsInjective(a0: bool, a1: bool, a2: bool, a3: bool, a4: bool, a5: bool, a6: bool, a7: bool,
                          b0: bool, b1: bool, b2: bool, b3: bool, b4: bool, b5: bool, b6: bool, b7: bool)
    requires FromBits(a0, a1, a2, a3, a4, a5, a6, a7) == FromBits(b0, b1, b2, b3, b4, b5, b6, b7)
    ensures a0 == b0 && a1 == b1 && a2 == b2 && a3 == b3 && a4 == b4 && a5 == b5 && a6 == b6 && a7 == b7
  {
  }

  lemma Bits8Injective(a: byte, b: byte)
    requires Bits8(a) == Bits8(b)
    ensures a == b
  {
    hide FromBits, Odd;
    var a1, b1 := a / 2, b / 2;
    var a2, b2 := a1 / 2, b1 / 2;
    var a3, b3 := a2 / 2, b2 / 2;
    var a4, b4 := a3 / 2, b3 / 2;
    var a5, b5 := a4 / 2, b4 / 2;
    var a6, b6 := a5 / 2, b5 / 2;
    var a7, b7 := a6 / 2, b6 / 2;
    FromBitsInjective(Odd(a), Odd(a1), Odd(a2), Odd(a3), Odd(a4), Odd(a5), Odd(a6), Odd(a7),
                      Odd(b), Odd(b1), Odd(b2), Odd(b3), Odd(b4), Odd(b5), Odd(b6), Odd(b7));
    SameHalves(a7, b7);
    SameHalves(a6, b6);
    SameHalves(a5, b5);
    SameHalves(a4, b4);
    SameHalves(a3, b3);
    SameHalves(a2, b2);
    SameHalves(a1, b1);
    SameHalves(a, b);
  }

  lemma SameHalves(a: nat, b: nat)
    ensures Odd(a) == Odd(b) && a / 2 == b / 2 ==> a == b
  {
  }

  lemma Nat32Value(x: bv32)
    ensures Nat32(x) as bv32 == x
  {
  }

  /** Four consecutive damaged bytes always change the checksum. */
  lemma CrcDetectsDamage(a: seq<byte>, b: seq<byte>, at: nat)
    requires |a| == |b| && a != b
    requires forall i :: 0 <= i < |a| && !(at <= i < at + 4) ==> a[i] == b[i]
    ensures CrcOf(a) != CrcOf(b)
  {
    hide Crc32.SerialCrc, Crc32.BitsOf, Crc32.BitsOfByte, Bits8, Nat32;
    var x, y := ToBits8(a), ToBits8(b);
    var k :| 0 <= k < |a| && a[k] != b[k];
    assert x[k] == Bits8(a[k]) && y[k] == Bits8(b[k]);
    if x[k] == y[k] { Bits8Injective(a[k], b[k]); }
    forall j | 0 <= j < 8 * |x| && !(8 * at <= j < 8 * at + 32)
      ensures Crc32.BitsOf(x)[j] == Crc32.BitsOf(y)[j]
    {
      BitsOfAt(x, j);
      BitsOfAt(y, j);
      assert a[j / 8] == b[j / 8];
    }
    Crc32.BurstDetected(x, y, 0, 8 * at);
    Nat32Value(Crc32.SerialCrc(x, 0));
    Nat32Value(Crc32.SerialCrc(y, 0));
  }

  /** A stored entry that extracts does not survive damage confined to four consecutive bytes of its
      slice: extraction of the damaged blob reports the checksum, whichever bytes were written. */
  lemma StoredDamageIsDetected(v: ArchiveView, e: FileEntry, decompress: (seq<byte>, nat) -> seq<byte>,
                               damaged: seq<byte>, at: nat)
    requires v.algorithm == STORE && ExtractEntry(v, e, decompress).Ok?
    requires |damaged| == |v.blob|
    requires
      var from := (v.dataRegionBegin + e.offset) % U64;
      && damaged[from..from + e.compressedSize] != v.blob[from..from + e.compressedSize]
      && forall i :: from <= i < from + e.compressedSize && !(at <= i < at + 4) ==> damaged[i] == v.blob[i]
    ensures ExtractEntry(v.(blob := damaged), e, decompress) == Err(CrcMismatch)
  {
    hide ExtractAt;
    StoredDamageAt(v, e, (v.dataRegionBegin + e.offset) % U64, decompress, damaged, at);
  }

  lemma StoredDamageAt(v: ArchiveView, e: FileEntry, from: nat, decompress: (seq<byte>, nat) -> seq<byte>,
                       damaged: seq<byte>, at: nat)
    requires v.algorithm == STORE && ExtractAt(v, e, from, decompress).Ok?
    requires |damaged| == |v.blob|
    requires damaged[from..from + e.compressedSize] != v.blob[from..from + e.compressedSize]
    requires forall i :: from <= i < from + e.compressedSize && !(at <= i < at + 4) ==> damaged[i] == v.blob[i]
    ensures ExtractAt(v.(blob := damaged), e, from, decompress) == Err(CrcMismatch)
  {
    hide CrcOf, IsSafeRelativePath;
    var a, b := v.blob[from..from + e.compressedSize], damaged[from..from + e.compressedSize];
    var start := if from <= at then at - from else 0;
    assert forall i :: 0 <= i < |a| && !(start <= i < start + 4) ==> a[i] == b[i];
    CrcDetectsDamage(a, b, start);
  }
}
