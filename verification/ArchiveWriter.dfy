/**
  The payload writer: sort, reserve the table, fill it in place while the data region
  grows, append the region. Then the round trip through the readers.
 */
module ArchiveWriter {
  import opened Bytes
  import opened Wrappers
  import opened ArchiveFormat
  import opened Paths
  import opened ArchiveReader

  datatype SourceFile = SourceFile(path: Path, data: seq<byte>)

  type Compressor = seq<byte> -> seq<byte>
  type Decompressor = (seq<byte>, nat) -> seq<byte>

  // ----- the order of the table -----

  /** Byte-wise lexicographic order. */
  predicate PathLess(a: Path, b: Path) {
    b != [] && (a == [] || a[0] < b[0] || (a[0] == b[0] && PathLess(a[1..], b[1..])))
  }

  function Insert(f: SourceFile, sorted: seq<SourceFile>): (r: seq<SourceFile>) {
    if sorted == [] || PathLess(f.path, sorted[0].path) then [f] + sorted
    else [sorted[0]] + Insert(f, sorted[1..])
  }

  /** The files in path order; equal paths keep an unspecified order in the source and here the later one first. */
  function SortByPath(files: seq<SourceFile>): (r: seq<SourceFile>) {
    if files == [] then [] else Insert(files[0], SortByPath(files[1..]))
  }

  ghost predicate Ordered(files: seq<SourceFile>) {
    forall i :: 0 <= i < |files| - 1 ==> !PathLess(files[i + 1].path, files[i].path)
  }

  lemma {:induction false} PathLessAsymmetric(a: Path, b: Path)
    requires PathLess(a, b)
    ensures !PathLess(b, a)
  {
    if a != [] && a[0] == b[0] {
      PathLessAsymmetric(a[1..], b[1..]);
    }
  }

  lemma {:induction false} InsertKeepsOrder(f: SourceFile, sorted: seq<SourceFile>)
    requires Ordered(sorted)
    ensures Ordered(Insert(f, sorted))
    ensures multiset(Insert(f, sorted)) == multiset{f} + multiset(sorted)
    ensures Insert(f, sorted)[0] == f || (sorted != [] && Insert(f, sorted)[0] == sorted[0])
  {
    hide PathLess;
    if sorted == [] {
    } else if PathLess(f.path, sorted[0].path) {
      PathLessAsymmetric(f.path, sorted[0].path);
      assert [f] + sorted == Insert(f, sorted);
    } else {
      assert sorted == [sorted[0]] + sorted[1..];
      InsertKeepsOrder(f, sorted[1..]);
      var t := Insert(f, sorted[1..]);
      assert Insert(f, sorted) == [sorted[0]] + t;
    }
  }

  /** Sorting is a permutation into path order. */
  lemma {:induction false} SortIsOrdered(files: seq<SourceFile>)
    ensures Ordered(SortByPath(files))
    ensures multiset(SortByPath(files)) == multiset(files)
  {
    if files != [] {
      hide Ordered;
      SortIsOrdered(files[1..]);
      InsertKeepsOrder(files[0], SortByPath(files[1..]));
      assert files == [files[0]] + files[1..];
    }
  }

  // ----- what the writer prints -----

  /** The bytes stored for a file. */
  function StoredBytes(f: SourceFile, algorithm: nat, compress: Compressor): seq<byte> {
    if algorithm == STORE then f.data else compress(f.data)
  }

  function Stored(files: seq<SourceFile>, algorithm: nat, compress: Compressor): (s: seq<seq<byte>>)
    ensures |s| == |files|
  {
    seq(|files|, i requires 0 <= i < |files| => StoredBytes(files[i], algorithm, compress))
  }

  /** The entry of one file whose stored bytes start at an offset of the data region. */
  function EntryFor(f: SourceFile, offset: nat, size: nat): FileEntry {
    FileEntry(f.path, offset, size, |f.data|, CrcOf(f.data))
  }

  function Entries(files: seq<SourceFile>, stored: seq<seq<byte>>): (e: seq<FileEntry>)
    requires |files| == |stored|
    ensures |e| == |files|
  {
    seq(|files|, i requires 0 <= i < |files| => EntryFor(files[i], |Concat(stored[..i])|, |stored[i]|))
  }

  function TotalSize(files: seq<SourceFile>): nat {
    if files == [] then 0 else TotalSize(files[..|files| - 1]) + |files[|files| - 1].data|
  }

  /** The archive of files that are already in order. */
  function ArchiveOf(files: seq<SourceFile>, algorithm: nat, compress: Compressor): seq<byte> {
    var stored := Stored(files, algorithm, compress);
    HeaderBytes(algorithm, TotalSize(files) % U64, |files| % U32) + (TableBytes(Entries(files, stored)) + Concat(stored))
  }

  /** What makes the writer give up. */
  ghost predicate Writable(files: seq<SourceFile>, algorithm: nat, compress: Compressor) {
    && (algorithm == STORE || algorithm == WINDOWS_LZMS)
    && (forall i :: 0 <= i < |files| ==> |files[i].path| <= 0xFFFF)
    && (forall i :: 0 <= i < |files| ==> CompressionWorks(files[i], algorithm, compress))
  }

  predicate CompressionWorks(f: SourceFile, algorithm: nat, compress: Compressor) {
    algorithm == STORE || compress(f.data) != [] || f.data == []
  }

  /** The total in the header is the length of all the files' contents, one behind the other. */
  lemma {:induction false} TotalIsLength(files: seq<SourceFile>)
    ensures TotalSize(files) == |Concat(Stored(files, STORE, data => data))|
    decreases |files|
  {
    if files != [] {
      var front, f := files[..|files| - 1], files[|files| - 1];
      TotalIsLength(front);
      var a := Stored(front, STORE, data => data);
      assert Stored(files, STORE, data => data) == a + [f.data];
      ConcatAppend(a, [f.data]);
      ConcatOne(f.data);
    }
  }

  /** The writer gives up exactly on an algorithm it does not know, a name beyond 65535 bytes, or a
      compression that returns nothing for something. */
  lemma GivesUpIff(files: seq<SourceFile>, algorithm: nat, compress: Compressor)
    ensures !Writable(files, algorithm, compress) <==>
            || algorithm !in {0, 3}
            || exists f :: f in files && (|f.path| > 65535 || (algorithm == 3 && f.data != [] && compress(f.data) == []))
  {
  }

  // ----- the writer -----

  /** `out[cursor++] = ...` for each byte of a little-endian field. */
  method WriteUint(out: array<byte>, cursor: nat, v: nat, n: nat) returns (next: nat)
    requires cursor + n <= out.Length
    modifies out
    ensures next == cursor + n
    ensures out[..next] == old(out[..cursor]) + LittleEndian(v, n)
    ensures out[next..] == old(out[next..])
  {
    var rest := v;
    next := cursor;
    ghost var before := out[..cursor];
    for i := 0 to n
      invariant next == cursor + i
      invariant out[..next] + LittleEndian(rest, n - i) == before + LittleEndian(v, n)
      invariant forall j :: next <= j < out.Length ==> out[j] == old(out[j])
    {
      ghost var printed := out[..next];
      out[next] := rest % 256;
      next := next + 1;
      assert out[..next] == printed + [rest % 256];
      assert printed + ([rest % 256] + LittleEndian(rest / 256, n - i - 1))
          == (printed + [rest % 256]) + LittleEndian(rest / 256, n - i - 1);
      rest := rest / 256;
    }
    assert out[..next] + [] == out[..next];
  }

  method WritePath(out: array<byte>, cursor: nat, path: Path) returns (next: nat)
    requires cursor + |path| <= out.Length
    modifies out
    ensures next == cursor + |path|
    ensures out[..next] == old(out[..cursor]) + path
    ensures out[next..] == old(out[next..])
  {
    next := cursor;
    ghost var before := out[..cursor];
    for i := 0 to |path|
      invariant next == cursor + i
      invariant out[..next] == before + path[..i]
      invariant forall j :: next <= j < out.Length ==> out[j] == old(out[j])
    {
      ghost var printed := out[..next];
      out[next] := path[i];
      next := next + 1;
      assert out[..next] == printed + [path[i]];
    }
    assert path[..|path|] == path;
  }

  /** One entry, field by field, at the cursor. */
  method WriteEntry(out: array<byte>, cursor: nat, e: FileEntry) returns (next: nat)
    requires cursor + |EntryBytes(e)| <= out.Length
    modifies out
    ensures next == cursor + |EntryBytes(e)|
    ensures out[..next] == old(out[..cursor]) + EntryBytes(e)
    ensures out[next..] == old(out[next..])
  {
    hide LittleEndian;
    ghost var before, behind := out[..cursor], out[cursor..];
    next := WriteUint(out, cursor, |e.path|, 2);
    assert out[next..] == behind[next - cursor..];
    next := WritePath(out, next, e.path);
    assert out[next..] == behind[next - cursor..];
    next := WriteUint(out, next, e.offset, 8);
    assert out[next..] == behind[next - cursor..];
    next := WriteUint(out, next, e.compressedSize, 8);
    assert out[next..] == behind[next - cursor..];
    next := WriteUint(out, next, e.uncompressedSize, 8);
    assert out[next..] == behind[next - cursor..];
    next := WriteUint(out, next, e.crc32, 4);
    assert out[next..] == behind[next - cursor..];
    FieldsJoin(before, e);
  }

  lemma FieldsJoin(before: seq<byte>, e: FileEntry)
    ensures before + LittleEndian(|e.path|, 2) + e.path + LittleEndian(e.offset, 8) + LittleEndian(e.compressedSize, 8)
            + LittleEndian(e.uncompressedSize, 8) + LittleEndian(e.crc32, 4)
         == before + EntryBytes(e)
  {
    hide LittleEndian;
  }

  /** The header, appended field by field. */
  method WriteHeader(algorithm: nat, total: nat, count: nat) returns (out: seq<byte>)
    ensures out == HeaderBytes(algorithm, total, count)
  {
    out := MAGIC;
    out := out + LittleEndian(algorithm % 256, 4);
    out := out + LittleEndian(total, 8);
    out := out + LittleEndian(count, 4);
  }

  /** The first pass: the size of the table, or none when a path is too long for its length field. */
  method ReserveTable(files: seq<SourceFile>, ghost entries: seq<FileEntry>) returns (size: Option<nat>)
    requires |entries| == |files|
    requires forall i :: 0 <= i < |files| ==> entries[i].path == files[i].path
    ensures size.Some? <==> forall i :: 0 <= i < |files| ==> |files[i].path| <= 0xFFFF
    ensures size.Some? ==> size.value == |TableBytes(entries)|
  {
    var bytes := 0;
    assert entries[..0] == [];
    for i := 0 to |files|
      invariant forall j :: 0 <= j < i ==> |files[j].path| <= 0xFFFF
      invariant bytes == |TableBytes(entries[..i])|
    {
      if |files[i].path| > 0xFFFF { return None; }
      TableGrows(entries, i);
      bytes := bytes + 2 + |files[i].path| + 8 + 8 + 8 + 4;
    }
    assert entries[..|entries|] == entries;
    return Some(bytes);
  }

  lemma TableGrows(entries: seq<FileEntry>, i: nat)
    requires i < |entries|
    ensures TableBytes(entries[..i + 1]) == TableBytes(entries[..i]) + EntryBytes(entries[i])
    ensures |TableBytes(entries[..i + 1])| <= |TableBytes(entries)|
  {
    hide TableBytes, EntryBytes;
    TakeNext(entries, i);
    TableAppend(entries[..i], [entries[i]]);
    TableOne(entries[i]);
    TableAppend(entries[..i + 1], entries[i + 1..]);
  }

  lemma RegionGrows(pieces: seq<seq<byte>>, i: nat)
    requires i < |pieces|
    ensures Concat(pieces[..i + 1]) == Concat(pieces[..i]) + pieces[i]
  {
    hide Concat;
    TakeNext(pieces, i);
    ConcatAppend(pieces[..i], [pieces[i]]);
    ConcatOne(pieces[i]);
  }

  /** The second pass: fill the reserved table in place and grow the data region. */
  method FillTable(files: seq<SourceFile>, algorithm: nat, compress: Compressor, out: array<byte>, begin: nat)
    returns (region: Option<seq<byte>>)
    requires
      var stored := Stored(files, algorithm, compress);
      begin + |TableBytes(Entries(files, stored))| == out.Length
    modifies out
    ensures region.Some? <==> forall i :: 0 <= i < |files| ==> CompressionWorks(files[i], algorithm, compress)
    ensures region.Some? ==>
              var stored := Stored(files, algorithm, compress);
              && region.value == Concat(stored)
              && out[..] == old(out[..begin]) + TableBytes(Entries(files, stored))
  {
    hide TableBytes, EntryBytes, CrcOf, Concat;
    ghost var stored := Stored(files, algorithm, compress);
    ghost var entries := Entries(files, stored);
    ghost var header := out[..begin];
    var data: seq<byte>, cursor := [], begin;
    EmptyStart(entries, stored);
    assert header + [] == header;
    for i := 0 to |files|
      invariant cursor == begin + |TableBytes(entries[..i])| <= out.Length
      invariant out[..cursor] == header + TableBytes(entries[..i])
      invariant data == Concat(stored[..i])
      invariant forall j :: 0 <= j < i ==> CompressionWorks(files[j], algorithm, compress)
    {
      var f := files[i];
      var bytes := if algorithm == STORE then f.data else compress(f.data);
      if algorithm != STORE && bytes == [] && f.data != [] { return None; }
      var entry := EntryFor(f, |data|, |bytes|);
      assert entry == entries[i];
      TableGrows(entries, i);
      RegionGrows(stored, i);
      data := data + bytes;
      cursor := WriteEntry(out, cursor, entry);
      assert (header + TableBytes(entries[..i])) + EntryBytes(entry) == header + TableBytes(entries[..i + 1]);
    }
    assert entries[..|files|] == entries && stored[..|files|] == stored;
    assert out[..cursor] == out[..];
    return Some(data);
  }

  lemma EmptyStart(entries: seq<FileEntry>, pieces: seq<seq<byte>>)
    ensures TableBytes(entries[..0]) == [] && Concat(pieces[..0]) == []
  {
  }

  /** Sum the sizes as a 64-bit counter does. */
  method CountBytes(files: seq<SourceFile>) returns (total: nat)
    ensures total == TotalSize(files) % U64
  {
    total := 0;
    for i := 0 to |files|
      invariant total == TotalSize(files[..i]) % U64
    {
      assert files[..i + 1][..i] == files[..i];
      total := (total + |files[i].data|) % U64;
    }
    assert files[..|files|] == files;
  }

  /** The whole writer: the archive of the sorted files, or nothing. */
  method BuildArchive(files: seq<SourceFile>, algorithm: nat, compress: Compressor)
    returns (archive: Option<seq<byte>>)
    ensures archive.Some? <==> Writable(SortByPath(files), algorithm, compress)
    ensures archive.Some? ==> archive.value == ArchiveOf(SortByPath(files), algorithm, compress)
  {
    hide TableBytes, HeaderBytes, TotalSize, Concat, Entries, Stored;
    if algorithm != STORE && algorithm != WINDOWS_LZMS { return None; }
    var sorted := SortByPath(files);
    ghost var entries := Entries(sorted, Stored(sorted, algorithm, compress));
    EntryPaths(sorted, Stored(sorted, algorithm, compress));
    var total := CountBytes(sorted);
    var header := WriteHeader(algorithm, total, |sorted| % U32);
    var tableBytes := ReserveTable(sorted, entries);
    if tableBytes.None? { return None; }
    var out := new byte[|header| + tableBytes.value](i => if 0 <= i < |header| then header[i] else 0);
    assert out[..|header|] == header;
    var region := FillTable(sorted, algorithm, compress, out, |header|);
    if region.None? { return None; }
    assert (header + TableBytes(entries)) + region.value == header + (TableBytes(entries) + region.value);
    return Some(out[..] + region.value);
  }

  lemma EntryPaths(files: seq<SourceFile>, stored: seq<seq<byte>>)
    requires |files| == |stored|
    ensures forall i :: 0 <= i < |files| ==> Entries(files, stored)[i].path == files[i].path
  {
  }

  // ----- the round trip -----

  /** The slices tile the data region: each starts where the one before it ends, the last ends the region. */
  lemma EntriesTile(files: seq<SourceFile>, stored: seq<seq<byte>>)
    requires |files| == |stored|
    ensures
      var e := Entries(files, stored);
      && (e != [] ==> e[0].offset == 0 && e[|e| - 1].offset + e[|e| - 1].compressedSize == |Concat(stored)|)
      && forall i :: 0 <= i < |e| - 1 ==> e[i].offset + e[i].compressedSize == e[i + 1].offset
  {
    hide Concat;
    var e := Entries(files, stored);
    EmptyStart(e, stored);
    forall i | 0 <= i < |e|
      ensures e[i].offset + e[i].compressedSize == |Concat(stored[..i + 1])|
    {
      RegionGrows(stored, i);
    }
    assert stored[..|stored|] == stored;
  }

  /** Each slice of the region holds the bytes stored for its file. */
  lemma RegionSlice(pieces: seq<seq<byte>>, i: nat)
    requires i < |pieces|
    ensures
      var at := |Concat(pieces[..i])|;
      && at + |pieces[i]| <= |Concat(pieces)|
      && Concat(pieces)[at..at + |pieces[i]|] == pieces[i]
  {
    hide Concat;
    TakeNext(pieces, i);
    RegionGrows(pieces, i);
    ConcatAppend(pieces[..i + 1], pieces[i + 1..]);
    var a, b, c := Concat(pieces[..i]), pieces[i], Concat(pieces[i + 1..]);
    assert Concat(pieces) == a + b + c;
    assert (a + b + c)[|a|..|a| + |b|] == b;
  }

  /** What fits in the machine: the archive and the total size in 64 bits. */
  ghost predicate Addressable(files: seq<SourceFile>, algorithm: nat, compress: Compressor) {
    && |ArchiveOf(files, algorithm, compress)| < U64
    && TotalSize(files) < U64
    && forall i :: 0 <= i < |files| ==> |files[i].data| < U64
  }

  lemma EntriesFit(files: seq<SourceFile>, algorithm: nat, compress: Compressor, i: nat)
    requires Writable(files, algorithm, compress) && Addressable(files, algorithm, compress)
    requires i < |files|
    ensures EntryFits(Entries(files, Stored(files, algorithm, compress))[i])
  {
    hide TableBytes, HeaderBytes, CrcOf, Concat, TotalSize;
    RegionSlice(Stored(files, algorithm, compress), i);
  }

  /** The index of what the writer prints. */
  lemma IndexOfWritten(files: seq<SourceFile>, algorithm: nat, compress: Compressor)
    requires Writable(files, algorithm, compress) && Addressable(files, algorithm, compress)
    ensures
      var e := Entries(files, Stored(files, algorithm, compress));
      var found := Counted(e);
      IndexOf(ArchiveOf(files, algorithm, compress))
      == Some(Index(algorithm, TotalSize(files), found, HEADER_LEN + |TableBytes(found)|))
  {
    hide TableBytes, HeaderBytes, Concat, Stored, Entries, EntryFits, IndexOf, TotalSize;
    var stored := Stored(files, algorithm, compress);
    var e := Entries(files, stored);
    forall i | 0 <= i < |e|
      ensures EntryFits(e[i])
    {
      EntriesFit(files, algorithm, compress, i);
    }
    IndexOfArchive(algorithm, TotalSize(files), e, Concat(stored));
  }

  /** The writer's output is read back whole exactly when the reader accepts every path and the
      count fits its field. The writer checks neither: a file named "a..b" is packed but never read. */
  lemma ReadBackIff(files: seq<SourceFile>, algorithm: nat, compress: Compressor)
    requires Writable(files, algorithm, compress) && Addressable(files, algorithm, compress)
    ensures
      (exists view :: Parses(ArchiveOf(files, algorithm, compress), view) && |view.files| == |files|)
      <==> (|files| < U32 && forall i :: 0 <= i < |files| ==> IsSafeRelativePath(files[i].path))
  {
    hide IndexOf, ArchiveOf, IsSafeRelativePath, Stored, TotalSize, TableBytes, HeaderBytes;
    var stored := Stored(files, algorithm, compress);
    var e, blob := Entries(files, stored), ArchiveOf(files, algorithm, compress);
    IndexOfWritten(files, algorithm, compress);
    EntryPaths(files, stored);
    var ix := IndexOf(blob).value;
    if |files| < U32 {
      assert AllSafe(e) <==> forall i :: 0 <= i < |files| ==> IsSafeRelativePath(files[i].path);
      if AllSafe(e) {
        assert Parses(blob, ArchiveView(ix.flags % 256, ix.total, ix.entries, blob, ix.dataBegin));
      }
    }
  }

  /** The path "a..b" names a file inside the directory and is packed, but the installer refuses the
      archive that holds it. */
  lemma DottedNameIsNotReadBack(data: seq<byte>, algorithm: nat, compress: Compressor)
    requires
      var files := [SourceFile([0x61, 0x2E, 0x2E, 0x62], data)];
      Writable(files, algorithm, compress) && Addressable(files, algorithm, compress)
    ensures
      var files := [SourceFile([0x61, 0x2E, 0x2E, 0x62], data)];
      !exists view :: Parses(ArchiveOf(files, algorithm, compress), view)
  {
    var path: Path := [0x61, 0x2E, 0x2E, 0x62];
    var files := [SourceFile(path, data)];
    assert path[1] == 0x2E && path[1 + 1] == 0x2E;
    assert !IsSafeRelativePath(path);
    hide IndexOf, ArchiveOf, IsSafeRelativePath, Stored, TotalSize, TableBytes;
    IndexOfWritten(files, algorithm, compress);
    EntryPaths(files, Stored(files, algorithm, compress));
    assert Entries(files, Stored(files, algorithm, compress))[0].path == path;
  }

  /** Every written entry lies inside the archive, so the inspection script accepts what the installer
      accepts, with the same entries and the same data start. */
  lemma WrittenInRange(files: seq<SourceFile>, algorithm: nat, compress: Compressor)
    requires Writable(files, algorithm, compress) && Addressable(files, algorithm, compress) && |files| < U32
    ensures
      var blob := ArchiveOf(files, algorithm, compress);
      && IndexOf(blob).Some?
      && AllInRange(IndexOf(blob).value.entries, IndexOf(blob).value.dataBegin, |blob|)
      && CompressedTotal(IndexOf(blob).value.entries) == |blob| - IndexOf(blob).value.dataBegin
  {
    hide IndexOf, TableBytes, HeaderBytes, Concat, CrcOf, Stored, TotalSize, CompressedTotal;
    var stored := Stored(files, algorithm, compress);
    var e, blob := Entries(files, stored), ArchiveOf(files, algorithm, compress);
    IndexOfWritten(files, algorithm, compress);
    var begin := HEADER_LEN + |TableBytes(e)|;
    assert |blob| == begin + |Concat(stored)|;
    forall i | 0 <= i < |e|
      ensures begin + e[i].offset + e[i].compressedSize <= |blob|
    {
      RegionSlice(stored, i);
    }
    TotalOfEntries(files, stored, |files|);
    assert e[..|files|] == e && stored[..|files|] == stored;
  }

  lemma {:induction false} TotalOfEntries(files: seq<SourceFile>, stored: seq<seq<byte>>, n: nat)
    requires |files| == |stored| && n <= |files|
    ensures CompressedTotal(Entries(files, stored)[..n]) == |Concat(stored[..n])|
  {
    hide Concat;
    var e := Entries(files, stored);
    if n == 0 {
      EmptyStart(e, stored);
      assert e[..0] == [];
    } else {
      TotalOfEntries(files, stored, n - 1);
      RegionGrows(stored, n - 1);
      assert e[..n][..n - 1] == e[..n - 1];
    }
  }

  /** Extraction gives every file its contents back, except that a compressed file beyond the
      decompressor's limit is packed and then not installed. */
  lemma ExtractsWritten(files: seq<SourceFile>, algorithm: nat, compress: Compressor, decompress: Decompressor,
                        view: ArchiveView, i: nat)
    requires Writable(files, algorithm, compress) && Addressable(files, algorithm, compress)
    requires Parses(ArchiveOf(files, algorithm, compress), view)
    requires i < |files| == |view.files|
    requires algorithm == WINDOWS_LZMS ==> decompress(compress(files[i].data), |files[i].data|) == files[i].data
    ensures view.files[i].path == files[i].path
    ensures ExtractEntry(view, view.files[i], decompress)
         == if algorithm == WINDOWS_LZMS && |files[i].data| > LZMS_LIMIT then Err(DecompressFailed) else Ok(files[i].data)
  {
    hide IndexOf, IsSafeRelativePath, TableBytes, HeaderBytes, Concat, CrcOf, Stored, TotalSize;
    var stored := Stored(files, algorithm, compress);
    var e, blob := Entries(files, stored), ArchiveOf(files, algorithm, compress);
    IndexOfWritten(files, algorithm, compress);
    var begin, at := view.dataRegionBegin, |Concat(stored[..i])|;
    RegionSlice(stored, i);
    var pre := HeaderBytes(algorithm, TotalSize(files) % U64, |files| % U32) + TableBytes(e);
    assert blob == pre + Concat(stored);
    assert |pre| == begin;
    SliceBehind(pre, Concat(stored), at, at + |stored[i]|);
    StoredAt(files, algorithm, compress, i);
    ExtractsSlice(view, e[i], begin + at, stored[i], decompress, files[i].data);
  }

  function Contents(files: seq<SourceFile>): (r: seq<(Path, seq<byte>)>)
    ensures |r| == |files| && forall i :: 0 <= i < |files| ==> r[i] == (files[i].path, files[i].data)
  {
    seq(|files|, i requires 0 <= i < |files| => (files[i].path, files[i].data))
  }

  /** What the installer accepts of what the packer is given: names its reader takes, and a count and
      sizes that fit. */
  ghost predicate Installable(files: seq<SourceFile>, algorithm: nat, compress: Compressor, decompress: Decompressor) {
    && Writable(files, algorithm, compress) && Addressable(files, algorithm, compress)
    && |files| < U32
    && (forall i :: 0 <= i < |files| ==> IsSafeRelativePath(files[i].path))
    && (algorithm == WINDOWS_LZMS ==> forall i :: 0 <= i < |files| ==>
          |files[i].data| <= LZMS_LIMIT && decompress(compress(files[i].data), |files[i].data|) == files[i].data)
  }

  /** Pack, parse and extract: every file comes out under its path with its contents, in path order, and
      the script finds the same index in range. */
  method PackAndInstall(files: seq<SourceFile>, algorithm: nat, compress: Compressor, decompress: Decompressor)
    returns (written: seq<(Path, seq<byte>)>, complete: bool)
    requires Installable(SortByPath(files), algorithm, compress, decompress)
    ensures complete && written == Contents(SortByPath(files))
    ensures multiset(SortByPath(files)) == multiset(files)
    ensures
      var blob := ArchiveOf(SortByPath(files), algorithm, compress);
      IndexOf(blob).Some? && AllInRange(IndexOf(blob).value.entries, IndexOf(blob).value.dataBegin, |blob|)
  {
    hide IndexOf, ArchiveOf, IsSafeRelativePath, Stored, TotalSize, TableBytes, HeaderBytes, ExtractEntry;
    ghost var sorted := SortByPath(files);
    SortIsOrdered(files);
    WrittenInRange(sorted, algorithm, compress);
    var archive := BuildArchive(files, algorithm, compress);
    ParsesWritten(sorted, algorithm, compress);
    var view := ParseArchive(archive.value);
    ViewOfWritten(sorted, algorithm, compress, view.value);
    var error;
    written, error := ExtractArchive(view.value, decompress);
    forall i | 0 <= i < |sorted|
      ensures view.value.files[i].path == sorted[i].path && ExtractEntry(view.value, view.value.files[i], decompress) == Ok(sorted[i].data)
    {
      ExtractsWritten(sorted, algorithm, compress, decompress, view.value, i);
    }
    complete := error.None?;
    assert written == Contents(sorted);
  }

  lemma ParsesWritten(files: seq<SourceFile>, algorithm: nat, compress: Compressor)
    requires Writable(files, algorithm, compress) && Addressable(files, algorithm, compress) && |files| < U32
    requires forall i :: 0 <= i < |files| ==> IsSafeRelativePath(files[i].path)
    ensures
      var blob := ArchiveOf(files, algorithm, compress);
      IndexOf(blob).Some? && AllSafe(IndexOf(blob).value.entries)
  {
    hide IndexOf, ArchiveOf, IsSafeRelativePath, Stored, TotalSize, TableBytes;
    IndexOfWritten(files, algorithm, compress);
    EntryPaths(files, Stored(files, algorithm, compress));
  }

  lemma ViewOfWritten(files: seq<SourceFile>, algorithm: nat, compress: Compressor, view: ArchiveView)
    requires Writable(files, algorithm, compress) && Addressable(files, algorithm, compress) && |files| < U32
    requires Parses(ArchiveOf(files, algorithm, compress), view)
    ensures |view.files| == |files| && view.algorithm == algorithm && view.blob != []
  {
    hide IndexOf, IsSafeRelativePath, Stored, TotalSize, TableBytes;
    IndexOfWritten(files, algorithm, compress);
  }

  lemma StoredAt(files: seq<SourceFile>, algorithm: nat, compress: Compressor, i: nat)
    requires i < |files|
    ensures Stored(files, algorithm, compress)[i] == StoredBytes(files[i], algorithm, compress)
  {
  }

  lemma SliceBehind<T>(a: seq<T>, b: seq<T>, lo: nat, hi: nat)
    requires lo <= hi <= |b|
    ensures (a + b)[|a| + lo..|a| + hi] == b[lo..hi]
  {
  }

  lemma ExtractsSlice(view: ArchiveView, e: FileEntry, at: nat, stored: seq<byte>, decompress: Decompressor, data: seq<byte>)
    requires at + |stored| <= |view.blob| < U64 && view.blob[at..at + |stored|] == stored
    requires at == view.dataRegionBegin + e.offset
    requires e.compressedSize == |stored| && e.uncompressedSize == |data| && e.crc32 == CrcOf(data)
    requires IsSafeRelativePath(e.path)
    requires if view.algorithm == STORE then stored == data else decompress(stored, |data|) == data
    ensures ExtractEntry(view, e, decompress)
         == if view.algorithm != STORE && |data| > LZMS_LIMIT then Err(DecompressFailed) else Ok(data)
  {
    hide CrcOf, IsSafeRelativePath;
  }
}
