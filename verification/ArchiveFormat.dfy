/**
  The layout of the installer payload: a header, a table of entries, and the data region
  the entries point into. `Index` is the structure any reader must find in the bytes,
  before a reader adds its own opinion of names or ranges.
 */
module ArchiveFormat {
  import opened Bytes
  import opened Wrappers
  import opened Paths
  import Crc32

  const MAGIC: seq<byte> := [0x45, 0x58, 0x56, 0x50, 0x30, 0x31]  // "EXVP01"
  const HEADER_LEN := 22
  const ENTRY_TAIL := 28
  const STORE := 0
  const WINDOWS_LZMS := 3
  const U32 := 0x1_0000_0000
  const U64 := 0x1_0000_0000_0000_0000

  datatype FileEntry = FileEntry(path: Path, offset: nat, compressedSize: nat, uncompressedSize: nat, crc32: nat)

  // ----- checksums of byte strings -----

  function Place(bit: bool, value: bv8): bv8 {
    if bit then value else 0
  }

  function FromBits(b0: bool, b1: bool, b2: bool, b3: bool, b4: bool, b5: bool, b6: bool, b7: bool): bv8 {
    Place(b0, 1) | Place(b1, 2) | Place(b2, 4) | Place(b3, 8)
    | Place(b4, 16) | Place(b5, 32) | Place(b6, 64) | Place(b7, 128)
  }

  /** A byte as a bit vector, bit by bit. */
  function Bits8(b: byte): bv8 {
    var h1 := b / 2;
    var h2 := h1 / 2;
    var h3 := h2 / 2;
    var h4 := h3 / 2;
    var h5 := h4 / 2;
    var h6 := h5 / 2;
    var h7 := h6 / 2;
    FromBits(Odd(b), Odd(h1), Odd(h2), Odd(h3), Odd(h4), Odd(h5), Odd(h6), Odd(h7))
  }

  predicate Odd(n: nat) {
    n % 2 == 1
  }

  function Nat32(x: bv32): (n: nat)
    ensures n < U32
  {
    x as nat
  }

  function ToBits8(data: seq<byte>): (r: seq<bv8>)
    ensures |r| == |data|
  {
    seq(|data|, i requires 0 <= i < |data| => Bits8(data[i]))
  }

  function CrcOf(data: seq<byte>): (r: nat)
    ensures r < U32
  {
    Nat32(Crc32.SerialCrc(ToBits8(data), 0))
  }

  // ----- printing -----

  function HeaderBytes(algorithm: nat, total: nat, count: nat): (h: seq<byte>)
    ensures |h| == HEADER_LEN
  {
    MAGIC + LittleEndian(algorithm % 256, 4) + LittleEndian(total, 8) + LittleEndian(count, 4)
  }

  function EntryTail(e: FileEntry): (t: seq<byte>)
    ensures |t| == ENTRY_TAIL
  {
    LittleEndian(e.offset, 8) + LittleEndian(e.compressedSize, 8)
    + LittleEndian(e.uncompressedSize, 8) + LittleEndian(e.crc32, 4)
  }

  function EntryBytes(e: FileEntry): (t: seq<byte>)
    ensures |t| == 2 + |e.path| + ENTRY_TAIL
  {
    LittleEndian(|e.path|, 2) + e.path + EntryTail(e)
  }

  function TableBytes(entries: seq<FileEntry>): (t: seq<byte>) {
    if entries == [] then [] else EntryBytes(entries[0]) + TableBytes(entries[1..])
  }

  lemma {:induction false} TableAppend(a: seq<FileEntry>, b: seq<FileEntry>)
    ensures TableBytes(a + b) == TableBytes(a) + TableBytes(b)
  {
    hide EntryBytes;
    if a == [] {
      assert a + b == b;
    } else {
      assert (a + b)[1..] == a[1..] + b;
      TableAppend(a[1..], b);
    }
  }

  lemma TableOne(e: FileEntry)
    ensures TableBytes([e]) == EntryBytes(e)
  {
    hide EntryBytes;
    assert TableBytes([e]) == EntryBytes(e) + TableBytes([]);
  }

  // ----- the bytes of the format, one by one -----

  function Le4(v: nat): seq<byte> {
    [v % 256, v / 256 % 256, v / 256 / 256 % 256, v / 256 / 256 / 256 % 256]
  }

  function Le8(v: nat): seq<byte> {
    Le4(v) + Le4(v / 256 / 256 / 256 / 256)
  }

  lemma LittleEndianOne(v: nat, n: nat)
    requires n > 0
    ensures LittleEndian(v, n) == [v % 256] + LittleEndian(v / 256, n - 1)
  {
  }

  lemma LittleEndianFour(v: nat, n: nat)
    requires n >= 4
    ensures LittleEndian(v, n) == Le4(v) + LittleEndian(v / 256 / 256 / 256 / 256, n - 4)
  {
    hide LittleEndian;
    LittleEndianOne(v, n);
    LittleEndianOne(v / 256, n - 1);
    LittleEndianOne(v / 256 / 256, n - 2);
    LittleEndianOne(v / 256 / 256 / 256, n - 3);
  }

  lemma LittleEndianNone(v: nat)
    ensures LittleEndian(v, 0) == []
  {
  }

  lemma LittleEndianWords(v: nat)
    ensures LittleEndian(v, 2) == [v % 256, v / 256 % 256]
    ensures LittleEndian(v, 4) == Le4(v)
    ensures LittleEndian(v, 8) == Le8(v)
  {
    hide LittleEndian, Le4;
    LittleEndianOne(v, 2);
    LittleEndianOne(v / 256, 1);
    LittleEndianNone(v / 256 / 256);
    LittleEndianFour(v, 4);
    LittleEndianFour(v, 8);
    LittleEndianFour(v / 256 / 256 / 256 / 256, 4);
    LittleEndianNone(v / 256 / 256 / 256 / 256);
    LittleEndianNone(v / 256 / 256 / 256 / 256 / 256 / 256 / 256 / 256);
  }

  /** The header: "EXVP01", the method, the total size and the count, least significant byte first. */
  lemma HeaderLayout(algorithm: nat, total: nat, count: nat)
    ensures HeaderBytes(algorithm, total, count)
         == [0x45, 0x58, 0x56, 0x50, 0x30, 0x31] + [algorithm % 256, 0, 0, 0] + Le8(total) + Le4(count)
  {
    hide LittleEndian, Le8;
    LittleEndianWords(algorithm % 256);
    LittleEndianWords(total);
    LittleEndianWords(count);
  }

  /** An entry: the length of its name, the name, its place, its two sizes and its checksum. */
  lemma EntryLayout(e: FileEntry)
    ensures EntryBytes(e)
         == [|e.path| % 256, |e.path| / 256 % 256] + e.path
            + (Le8(e.offset) + Le8(e.compressedSize) + Le8(e.uncompressedSize) + Le4(e.crc32))
  {
    hide LittleEndian, Le8, Le4;
    LittleEndianWords(|e.path|);
    LittleEndianWords(e.offset);
    LittleEndianWords(e.compressedSize);
    LittleEndianWords(e.uncompressedSize);
    LittleEndianWords(e.crc32);
  }

  lemma DigitWords()
    ensures FromBits(true, false, false, false, true, true, false, false) == 0x31
    ensures FromBits(false, true, false, false, true, true, false, false) == 0x32
    ensures FromBits(true, true, false, false, true, true, false, false) == 0x33
    ensures FromBits(false, false, true, false, true, true, false, false) == 0x34
    ensures FromBits(true, false, true, false, true, true, false, false) == 0x35
    ensures FromBits(false, true, true, false, true, true, false, false) == 0x36
    ensures FromBits(true, true, true, false, true, true, false, false) == 0x37
    ensures FromBits(false, false, false, true, true, true, false, false) == 0x38
    ensures FromBits(true, false, false, true, true, true, false, false) == 0x39
  {
  }

  function Weight(bit: bool, value: nat): nat {
    if bit then value else 0
  }

  lemma DigitHalves(b: nat, b0: bool, b1: bool, b2: bool, b3: bool)
    requires b == 0x30 + Weight(b0, 1) + Weight(b1, 2) + Weight(b2, 4) + Weight(b3, 8)
    ensures Odd(b) == b0 && Odd(b / 2) == b1 && Odd(b / 2 / 2) == b2 && Odd(b / 2 / 2 / 2) == b3
    ensures b / 2 / 2 / 2 / 2 == 3
  {
    var h1 := b / 2;
    assert h1 == 0x18 + Weight(b1, 1) + Weight(b2, 2) + Weight(b3, 4);
    var h2 := h1 / 2;
    assert h2 == 12 + Weight(b2, 1) + Weight(b3, 2);
    assert h2 / 2 == 6 + Weight(b3, 1);
  }

  lemma DigitPart(b: byte, b0: bool, b1: bool, b2: bool, b3: bool)
    requires b == 0x30 + Weight(b0, 1) + Weight(b1, 2) + Weight(b2, 4) + Weight(b3, 8)
    ensures Bits8(b) == FromBits(b0, b1, b2, b3, true, true, false, false)
  {
    DigitHalves(b, b0, b1, b2, b3);
    assert Odd(3) && Odd(1) && !Odd(0);
    hide FromBits, Odd, Weight;
  }

  lemma DigitBits()
    ensures ToBits8([0x31, 0x32, 0x33, 0x34, 0x35, 0x36, 0x37, 0x38, 0x39])
         == [0x31, 0x32, 0x33, 0x34, 0x35, 0x36, 0x37, 0x38, 0x39]
  {
    hide Bits8, FromBits;
    DigitWords();
    DigitPart(0x31, true, false, false, false);
    DigitPart(0x32, false, true, false, false);
    DigitPart(0x33, true, true, false, false);
    DigitPart(0x34, false, false, true, false);
    DigitPart(0x35, true, false, true, false);
    DigitPart(0x36, false, true, true, false);
    DigitPart(0x37, true, true, true, false);
    DigitPart(0x38, false, false, false, true);
    DigitPart(0x39, true, false, false, true);
  }

  /** The checksum stored for a file is the standard one. */
  lemma ChecksumOfDigits()
    ensures CrcOf([0x31, 0x32, 0x33, 0x34, 0x35, 0x36, 0x37, 0x38, 0x39]) == 0xCBF4_3926
  {
    hide ToBits8;
    DigitBits();
    Crc32.CheckValue();
  }

  // ----- parsing -----

  function ParseTail(path: Path, t: seq<byte>): (e: FileEntry)
    requires |t| == ENTRY_TAIL
  {
    FileEntry(path, LittleEndianValue(t[..8]), LittleEndianValue(t[8..16]),
              LittleEndianValue(t[16..24]), LittleEndianValue(t[24..28]))
  }

  /** The entry at an offset and the offset behind it, if the bytes are there. */
  function EntryAt(data: seq<byte>, offset: nat): (r: Option<(FileEntry, nat)>)
    ensures r.Some? ==> offset < r.value.1 <= |data|
  {
    if offset + 2 > |data| then None
    else
      var len := LittleEndianValue(data[offset..offset + 2]);
      var name := offset + 2;
      var tail := name + len;
      if tail + ENTRY_TAIL > |data| then None
      else Some((ParseTail(data[name..tail], data[tail..tail + ENTRY_TAIL]), tail + ENTRY_TAIL))
  }

  datatype Table = Table(entries: seq<FileEntry>, end: nat)

  function TableAt(data: seq<byte>, offset: nat, count: nat): (r: Option<Table>)
    ensures r.Some? ==> |r.value.entries| == count && offset <= r.value.end
    decreases count
  {
    if count == 0 then Some(Table([], offset))
    else
      match EntryAt(data, offset)
      case None => None
      case Some((e, next)) =>
        match TableAt(data, next, count - 1)
        case None => None
        case Some(t) => Some(Table([e] + t.entries, t.end))
  }

  datatype Index = Index(flags: nat, total: nat, entries: seq<FileEntry>, dataBegin: nat)

  function HeaderOk(data: seq<byte>): bool {
    |data| >= HEADER_LEN && data[..6] == MAGIC
  }

  /** The index every reader looks for. */
  function IndexOf(data: seq<byte>): (r: Option<Index>) {
    if !HeaderOk(data) then None
    else
      match TableAt(data, HEADER_LEN, LittleEndianValue(data[18..22]))
      case None => None
      case Some(t) =>
        Some(Index(LittleEndianValue(data[6..10]), LittleEndianValue(data[10..18]), t.entries, t.end))
  }

  // ----- parsing inverts printing -----

  ghost predicate EntryFits(e: FileEntry) {
    |e.path| < 0x1_0000 && e.offset < U64 && e.compressedSize < U64 && e.uncompressedSize < U64 && e.crc32 < U32
  }

  lemma PowValues()
    ensures Pow256(2) == 0x1_0000 && Pow256(4) == U32 && Pow256(8) == U64
  {
    assert Pow256(2) == 0x1_0000;
    assert Pow256(4) == 256 * 256 * Pow256(2);
    assert Pow256(6) == 256 * 256 * Pow256(4);
    assert Pow256(8) == 256 * 256 * Pow256(6);
  }

  lemma FourFields(a: seq<byte>, b: seq<byte>, c: seq<byte>, d: seq<byte>)
    requires |a| == 8 && |b| == 8 && |c| == 8 && |d| == 4
    ensures
      var t := a + b + c + d;
      t[..8] == a && t[8..16] == b && t[16..24] == c && t[24..28] == d
  {
  }

  lemma ParseOfTail(e: FileEntry)
    requires EntryFits(e)
    ensures ParseTail(e.path, EntryTail(e)) == e
  {
    hide LittleEndian, LittleEndianValue;
    PowValues();
    FourFields(LittleEndian(e.offset, 8), LittleEndian(e.compressedSize, 8), LittleEndian(e.uncompressedSize, 8), LittleEndian(e.crc32, 4));
    LittleEndianRoundTrip(e.offset, 8);
    LittleEndianRoundTrip(e.compressedSize, 8);
    LittleEndianRoundTrip(e.uncompressedSize, 8);
    LittleEndianRoundTrip(e.crc32, 4);
  }

  lemma EntryAtOfBytes(data: seq<byte>, offset: nat, e: FileEntry, rest: seq<byte>)
    requires EntryFits(e)
    requires offset <= |data| && data[offset..] == EntryBytes(e) + rest
    ensures EntryAt(data, offset) == Some((e, offset + |EntryBytes(e)|))
  {
    hide LittleEndian, LittleEndianValue, EntryTail, ParseTail;
    var name, tail := offset + 2, offset + 2 + |e.path|;
    var s := data[offset..];
    assert data[offset..name] == s[..2] == LittleEndian(|e.path|, 2);
    PowValues();
    LittleEndianRoundTrip(|e.path|, 2);
    assert data[name..tail] == s[2..2 + |e.path|] == e.path;
    assert data[tail..tail + ENTRY_TAIL] == s[2 + |e.path|..2 + |e.path| + ENTRY_TAIL] == EntryTail(e);
    ParseOfTail(e);
  }

  lemma {:induction false} TableAtOfBytes(data: seq<byte>, offset: nat, entries: seq<FileEntry>, rest: seq<byte>)
    requires forall i :: 0 <= i < |entries| ==> EntryFits(entries[i])
    requires offset <= |data| && data[offset..] == TableBytes(entries) + rest
    ensures TableAt(data, offset, |entries|) == Some(Table(entries, offset + |TableBytes(entries)|))
    decreases |entries|
  {
    hide EntryAt, EntryBytes;
    if entries != [] {
      var e, more := entries[0], TableBytes(entries[1..]) + rest;
      assert TableBytes(entries) + rest == EntryBytes(e) + more;
      EntryAtOfBytes(data, offset, e, more);
      DropConcat(data, offset, EntryBytes(e), more);
      TableAtOfBytes(data, offset + |EntryBytes(e)|, entries[1..], rest);
      assert [e] + entries[1..] == entries;
    }
  }

  lemma HeaderOfBytes(algorithm: nat, total: nat, count: nat, rest: seq<byte>)
    requires total < U64 && count < U32
    ensures
      var data := HeaderBytes(algorithm, total, count) + rest;
      && HeaderOk(data) && data[HEADER_LEN..] == rest
      && LittleEndianValue(data[6..10]) == algorithm % 256
      && LittleEndianValue(data[10..18]) == total
      && LittleEndianValue(data[18..22]) == count
  {
    hide LittleEndian, LittleEndianValue;
    PowValues();
    var data := HeaderBytes(algorithm, total, count) + rest;
    assert data[..6] == MAGIC;
    assert data[6..10] == LittleEndian(algorithm % 256, 4);
    assert data[10..18] == LittleEndian(total, 8) && data[18..22] == LittleEndian(count, 4);
    LittleEndianRoundTrip(algorithm % 256, 4);
    LittleEndianRoundTrip(total, 8);
    LittleEndianRoundTrip(count, 4);
  }

  /** The entries that a 32-bit count of them reaches. */
  function Counted(entries: seq<FileEntry>): (r: seq<FileEntry>)
    ensures |r| == |entries| % U32
    ensures |entries| < U32 ==> r == entries
  {
    entries[..|entries| % U32]
  }

  /** The index of a printed archive is the printed table, however many entries the count field admits:
      the count is the low 32 bits of the number of entries, so the first entries are what is found. */
  lemma IndexOfArchive(algorithm: nat, total: nat, entries: seq<FileEntry>, region: seq<byte>)
    requires total < U64
    requires forall i :: 0 <= i < |entries| ==> EntryFits(entries[i])
    ensures
      var data := HeaderBytes(algorithm, total, |entries| % U32) + (TableBytes(entries) + region);
      var found := Counted(entries);
      IndexOf(data) == Some(Index(algorithm % 256, total, found, HEADER_LEN + |TableBytes(found)|))
  {
    hide HeaderBytes, TableBytes, LittleEndianValue, TableAt;
    var n := |entries| % U32;
    var found, more := Counted(entries), entries[n..];
    assert entries == found + more;
    TableAppend(found, more);
    var rest := TableBytes(entries) + region;
    assert rest == TableBytes(found) + (TableBytes(more) + region);
    HeaderOfBytes(algorithm, total, n, rest);
    TableAtOfBytes(HeaderBytes(algorithm, total, n) + rest, HEADER_LEN, found, TableBytes(more) + region);
  }
}
