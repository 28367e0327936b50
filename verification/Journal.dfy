/**
  The append-only journal: length-delimited, digest-protected records in a hash chain.

  The digest function H is a parameter and nothing is assumed of it, so tamper evidence
  is stated constructively: two journals that agree on their last digest are byte-for-byte
  the same, or two of their own digest preimages are exhibited that differ and collide.
 */
module Journal {
  import opened Bytes
  import opened Wrappers

  const VERSION: byte := 1
  const MAX_PAYLOAD_LEN := 0x10_0000
  const HEADER_LEN := 45
  const DIGEST_LEN := 32

  type Digest = d: seq<byte> | |d| == 32
    witness [0, 0, 0, 0, 0, 0, 0, 0, 0, 0, 0, 0, 0, 0, 0, 0, 0, 0, 0, 0, 0, 0, 0, 0, 0, 0, 0, 0, 0, 0, 0, 0]

  type HashFn = seq<byte> -> Digest

  const ZERO: Digest :=
    [0, 0, 0, 0, 0, 0, 0, 0, 0, 0, 0, 0, 0, 0, 0, 0, 0, 0, 0, 0, 0, 0, 0, 0, 0, 0, 0, 0, 0, 0, 0, 0]

  type u64 = v: nat | v < 0x1_0000_0000_0000_0000

  datatype Record = Record(sequence: u64, payload: seq<byte>, previous: Digest, digest: Digest)

  // ----- layout -----

  /** The bytes the digest covers besides the payload; the length field is the low 32 bits. */
  function HeaderBytes(sequence: u64, len: nat, previous: Digest): (h: seq<byte>)
    ensures |h| == HEADER_LEN
  {
    [VERSION] + BigEndian(sequence, 8) + BigEndian(len % 0x1_0000_0000, 4) + previous
  }

  function Preimage(sequence: u64, previous: Digest, payload: seq<byte>): (p: seq<byte>) {
    HeaderBytes(sequence, |payload|, previous) + payload
  }

  function RecordDigest(H: HashFn, sequence: u64, previous: Digest, payload: seq<byte>): (d: Digest) {
    H(Preimage(sequence, previous, payload))
  }

  function Encode(r: Record): (s: seq<byte>)
    ensures |s| == HEADER_LEN + |r.payload| + DIGEST_LEN
  {
    Preimage(r.sequence, r.previous, r.payload) + r.digest
  }

  function EncodeAll(records: seq<Record>): (s: seq<byte>) {
    if records == [] then [] else Encode(records[0]) + EncodeAll(records[1..])
  }

  lemma {:induction false} EncodeAllAppend(a: seq<Record>, b: seq<Record>)
    ensures EncodeAll(a + b) == EncodeAll(a) + EncodeAll(b)
  {
    if a == [] {
      assert a + b == b;
    } else {
      assert (a + b)[1..] == a[1..] + b;
      EncodeAllAppend(a[1..], b);
    }
  }

  datatype Header = Header(version: byte, sequence: u64, len: nat, previous: Digest)

  /** Reading the header fields. */
  function ParseHeader(h: seq<byte>): (r: Header)
    requires |h| == HEADER_LEN
  {
    SequenceFits(h[1..9]);
    Header(h[0], BigEndianValue(h[1..9]), BigEndianValue(h[9..13]), h[13..45])
  }

  lemma SequenceFits(s: seq<byte>)
    requires |s| == 8
    ensures BigEndianValue(s) < 0x1_0000_0000_0000_0000
  {
    BigEndianReprint(s);
    PowValues();
  }

  lemma ParseOfHeader(sequence: u64, len: nat, previous: Digest)
    ensures ParseHeader(HeaderBytes(sequence, len, previous)) == Header(VERSION, sequence, len % 0x1_0000_0000, previous)
  {
    var f := HeaderBytes(sequence, len, previous);
    assert f[1..9] == BigEndian(sequence, 8);
    assert f[9..13] == BigEndian(len % 0x1_0000_0000, 4);
    assert f[13..45] == previous;
    PowValues();
    BigEndianRoundTrip(sequence, 8);
    BigEndianRoundTrip(len % 0x1_0000_0000, 4);
  }

  lemma HeaderOfParse(h: seq<byte>)
    requires |h| == HEADER_LEN && h[0] == VERSION
    ensures var p := ParseHeader(h); HeaderBytes(p.sequence, p.len, p.previous) == h
  {
    BigEndianReprint(h[1..9]);
    BigEndianReprint(h[9..13]);
    PowValues();
    assert h == [h[0]] + h[1..9] + h[9..13] + h[13..45];
  }

  /** The preimage determines the record's three digested fields. */
  lemma PreimageInjective(s1: u64, p1: Digest, b1: seq<byte>, s2: u64, p2: Digest, b2: seq<byte>)
    requires Preimage(s1, p1, b1) == Preimage(s2, p2, b2)
    ensures s1 == s2 && p1 == p2 && b1 == b2
  {
    var a, b := Preimage(s1, p1, b1), Preimage(s2, p2, b2);
    assert a[HEADER_LEN..] == b1 && b[HEADER_LEN..] == b2;
    assert a[..HEADER_LEN] == HeaderBytes(s1, |b1|, p1) && b[..HEADER_LEN] == HeaderBytes(s2, |b2|, p2);
    ParseOfHeader(s1, |b1|, p1);
    ParseOfHeader(s2, |b2|, p2);
  }

  lemma PowValues()
    ensures Pow256(4) == 0x1_0000_0000 && Pow256(8) == 0x1_0000_0000_0000_0000
  {
    assert Pow256(2) == 0x1_0000;
    assert Pow256(4) == 256 * 256 * Pow256(2);
    assert Pow256(6) == 256 * 256 * Pow256(4);
    assert Pow256(8) == 256 * 256 * Pow256(6);
  }

  // ----- decoding one frame -----

  datatype FrameResult =
    | Whole(record: Record, size: nat)  // a complete frame whose digest verifies
    | Torn                              // the buffer ends inside the header or the digest
    | Bad                               // anything else

  /** What decoding makes of the frame that starts a non-empty buffer. */
  function DecodeFrame(H: HashFn, s: seq<byte>): (r: FrameResult)
    ensures r.Whole? ==> 0 < r.size <= |s|
  {
    if |s| < HEADER_LEN then Torn
    else
      var h := ParseHeader(s[..HEADER_LEN]);
      var end := HEADER_LEN + h.len;
      if h.version != VERSION || h.len > MAX_PAYLOAD_LEN || end > |s| then Bad
      else if end + DIGEST_LEN > |s| then Torn
      else
        var payload, stored: Digest := s[HEADER_LEN..end], s[end..end + DIGEST_LEN];
        if RecordDigest(H, h.sequence, h.previous, payload) != stored then Bad
        else Whole(Record(h.sequence, payload, h.previous, stored), end + DIGEST_LEN)
  }

  /** A record that `encode` writes and `decode` takes back. */
  ghost predicate Durable(H: HashFn, r: Record) {
    |r.payload| <= MAX_PAYLOAD_LEN && r.digest == RecordDigest(H, r.sequence, r.previous, r.payload)
  }

  /** Decoding inverts encoding. */
  lemma DecodeOfEncode(H: HashFn, r: Record, rest: seq<byte>)
    requires Durable(H, r)
    ensures DecodeFrame(H, Encode(r) + rest) == Whole(r, |Encode(r)|)
  {
    var s := Encode(r) + rest;
    FrameParts(r);
    assert s[..HEADER_LEN] == Encode(r)[..HEADER_LEN];
    var end := HEADER_LEN + |r.payload|;
    assert s[HEADER_LEN..end] == Encode(r)[HEADER_LEN..end];
    assert s[end..end + DIGEST_LEN] == Encode(r)[end..];
    ParseOfHeader(r.sequence, |r.payload|, r.previous);
  }

  lemma FrameParts(r: Record)
    ensures
      var f, end := Encode(r), HEADER_LEN + |r.payload|;
      && f[..HEADER_LEN] == HeaderBytes(r.sequence, |r.payload|, r.previous)
      && f[HEADER_LEN..end] == r.payload
      && f[end..] == r.digest
  {
  }

  /** Only encodings of durable records are taken: the bytes consumed are the record's own. */
  lemma EncodeOfDecode(H: HashFn, s: seq<byte>)
    requires DecodeFrame(H, s).Whole?
    ensures
      var r := DecodeFrame(H, s);
      Durable(H, r.record) && Encode(r.record) == s[..r.size]
  {
    var r := DecodeFrame(H, s);
    HeaderOfParse(s[..HEADER_LEN]);
    var end := HEADER_LEN + |r.record.payload|;
    assert s[..r.size] == s[..HEADER_LEN] + s[HEADER_LEN..end] + s[end..r.size];
  }

  /** A frame cut short: torn in the header or the digest, bad in the payload. */
  lemma DecodeOfCutFrame(H: HashFn, r: Record, n: nat)
    requires Durable(H, r)
    requires n < |Encode(r)|
    ensures
      DecodeFrame(H, Encode(r)[..n])
      == if HEADER_LEN <= n < HEADER_LEN + |r.payload| then Bad else Torn
  {
    hide HeaderBytes, ParseHeader, Encode;
    if n >= HEADER_LEN {
      FrameParts(r);
      assert Encode(r)[..n][..HEADER_LEN] == Encode(r)[..HEADER_LEN];
      ParseOfHeader(r.sequence, |r.payload|, r.previous);
    }
  }

  // ----- decoding a buffer -----

  datatype DecodeOutcome =
    | Clean(records: seq<Record>)
    | TornTail(records: seq<Record>)
    | Corrupt(records: seq<Record>, offset: nat)

  /** Decoding from `offset`: every record already behind it is kept. */
  function DecodeFrom(H: HashFn, bytes: seq<byte>, offset: nat, records: seq<Record>): (r: DecodeOutcome)
    requires offset <= |bytes|
    decreases |bytes| - offset
  {
    if offset == |bytes| then Clean(records)
    else
      match DecodeFrame(H, bytes[offset..])
      case Whole(r, size) => DecodeFrom(H, bytes, offset + size, records + [r])
      case Torn => TornTail(records)
      case Bad => Corrupt(records, offset)
  }

  function DecodeAll(H: HashFn, bytes: seq<byte>): (r: DecodeOutcome) {
    DecodeFrom(H, bytes, 0, [])
  }

  /** The body of the decode loop: the frame at `offset`, each field read in place. */
  method DecodeOne(H: HashFn, bytes: seq<byte>, offset: nat) returns (r: FrameResult)
    requires offset < |bytes|
    ensures r == DecodeFrame(H, bytes[offset..])
  {
    ghost var s := bytes[offset..];
    var remaining := |bytes| - offset;
    if remaining < 45 { return Torn; }
    assert s[..45] == bytes[offset..offset + 45];
    var header := ParseHeader(bytes[offset..offset + 45]);
    if header.version != VERSION { return Bad; }
    if header.len > MAX_PAYLOAD_LEN { return Bad; }
    if header.len > remaining - 45 { return Bad; }
    var payloadEnd := offset + 45 + header.len;
    if |bytes| - payloadEnd < 32 { return Torn; }
    var payload := bytes[offset + 45..payloadEnd];
    var stored: Digest := bytes[payloadEnd..payloadEnd + 32];
    assert s[45..45 + header.len] == payload && s[45 + header.len..45 + header.len + 32] == stored;
    if RecordDigest(H, header.sequence, header.previous, payload) != stored { return Bad; }
    return Whole(Record(header.sequence, payload, header.previous, stored), payloadEnd + 32 - offset);
  }

  /** The decode loop. */
  method Decode(H: HashFn, bytes: seq<byte>) returns (r: DecodeOutcome)
    ensures r == DecodeAll(H, bytes)
  {
    hide DecodeFrame;
    var records: seq<Record>, offset := [], 0;
    while offset < |bytes|
      invariant offset <= |bytes|
      invariant DecodeFrom(H, bytes, offset, records) == DecodeAll(H, bytes)
      decreases |bytes| - offset
    {
      var frame := DecodeOne(H, bytes, offset);
      match frame {
        case Torn => return TornTail(records);
        case Bad => return Corrupt(records, offset);
        case Whole(record, size) =>
          records := records + [record];
          offset := offset + size;
      }
    }
    return Clean(records);
  }

  // ----- crash recovery -----

  ghost predicate AllDurable(H: HashFn, records: seq<Record>) {
    forall i :: 0 <= i < |records| ==> Durable(H, records[i])
  }

  /** The number of bytes a decode outcome accounts for. */
  function Consumed(bytes: seq<byte>, r: DecodeOutcome): (n: nat) {
    match r
    case Clean(records) => |bytes|
    case TornTail(records) => |EncodeAll(records)|
    case Corrupt(records, offset) => offset
  }

  /** On any bytes at all: every recovered record is durable, and re-encoding the recovered
      records reproduces exactly the consumed prefix. Nothing is skipped or invented. */
  lemma {:induction false} RecoveredIsPrefix(H: HashFn, bytes: seq<byte>, offset: nat, records: seq<Record>)
    requires offset <= |bytes|
    requires AllDurable(H, records) && EncodeAll(records) == bytes[..offset]
    ensures
      var r := DecodeFrom(H, bytes, offset, records);
      && AllDurable(H, r.records)
      && Consumed(bytes, r) <= |bytes|
      && EncodeAll(r.records) == bytes[..Consumed(bytes, r)]
    decreases |bytes| - offset
  {
    hide DecodeFrame, Encode;
    if offset == |bytes| {
      assert bytes[..offset] == bytes;
    } else {
      var f := DecodeFrame(H, bytes[offset..]);
      if f.Whole? {
        EncodeOfDecode(H, bytes[offset..]);
        EncodeOne(f.record);
        EncodeAllAppend(records, [f.record]);
        assert bytes[..offset] + bytes[offset..][..f.size] == bytes[..offset + f.size];
        RecoveredIsPrefix(H, bytes, offset + f.size, records + [f.record]);
      }
    }
  }

  lemma EncodeOne(r: Record)
    ensures EncodeAll([r]) == Encode(r)
  {
    assert EncodeAll([r]) == Encode(r) + EncodeAll([]);
  }

  /** Decoding passes over whole frames. */
  lemma {:induction false} DecodePast(H: HashFn, bytes: seq<byte>, offset: nat, done: seq<Record>,
                                      todo: seq<Record>, tail: seq<byte>)
    requires AllDurable(H, todo)
    requires offset <= |bytes| && bytes[offset..] == EncodeAll(todo) + tail
    ensures offset + |EncodeAll(todo)| <= |bytes|
    ensures DecodeFrom(H, bytes, offset, done) == DecodeFrom(H, bytes, offset + |EncodeAll(todo)|, done + todo)
    decreases |todo|
  {
    hide DecodeFrame, Encode;
    if todo == [] {
      assert done + todo == done;
    } else {
      var r, rest := todo[0], EncodeAll(todo[1..]) + tail;
      assert EncodeAll(todo) + tail == Encode(r) + rest;
      DecodeOfEncode(H, r, rest);
      var next := offset + |Encode(r)|;
      DropConcat(bytes, offset, Encode(r), rest);
      assert (done + [r]) + todo[1..] == done + todo;
      DecodePast(H, bytes, next, done + [r], todo[1..], tail);
    }
  }

  /** How many whole frames of a journal survive a cut at byte n. */
  function Survivors(records: seq<Record>, n: nat): (k: nat)
    ensures k <= |records|
  {
    if records == [] || n < |Encode(records[0])| then 0
    else 1 + Survivors(records[1..], n - |Encode(records[0])|)
  }

  lemma {:induction false} SurvivorsAreWhole(records: seq<Record>, n: nat)
    requires n <= |EncodeAll(records)|
    ensures
      var k := Survivors(records, n);
      && |EncodeAll(records[..k])| <= n
      && (if k == |records| then n == |EncodeAll(records)|
          else n < |EncodeAll(records[..k])| + |Encode(records[k])|)
  {
    var k := Survivors(records, n);
    if k == 0 {
      assert records[..0] == [];
    } else {
      SurvivorsAreWhole(records[1..], n - |Encode(records[0])|);
      assert records[..k][1..] == records[1..][..k - 1];
    }
    assert records[..|records|] == records;
  }

  /** The bytes of a cut journal: its surviving frames, then the start of the next one. */
  lemma CutBytes(records: seq<Record>, n: nat)
    requires n <= |EncodeAll(records)|
    ensures
      var k := Survivors(records, n);
      var start := |EncodeAll(records[..k])|;
      && start <= n
      && (k == |records| ==> n == start)
      && (k < |records| ==> n - start < |Encode(records[k])|)
      && EncodeAll(records)[..n]
         == EncodeAll(records[..k]) + (if n == start then [] else Encode(records[k])[..n - start])
  {
    var k := Survivors(records, n);
    SurvivorsAreWhole(records, n);
    var whole, rest := records[..k], records[k..];
    assert records == whole + rest;
    EncodeAllAppend(whole, rest);
    TakeConcat(EncodeAll(whole), EncodeAll(rest), n);
    if k < |records| {
      TakeConcat(Encode(rest[0]), EncodeAll(rest[1..]), n - |EncodeAll(whole)|);
    }
  }

  /** What decoding makes of the start of a frame at the end of the buffer. */
  lemma DecodeCutTail(H: HashFn, bytes: seq<byte>, start: nat, whole: seq<Record>, r: Record, m: nat)
    requires Durable(H, r) && 0 < m < |Encode(r)|
    requires start <= |bytes| && bytes[start..] == Encode(r)[..m]
    ensures
      DecodeFrom(H, bytes, start, whole)
      == if HEADER_LEN <= m < HEADER_LEN + |r.payload| then Corrupt(whole, start) else TornTail(whole)
  {
    DecodeOfCutFrame(H, r, m);
  }

  /** Crash recovery: cutting a journal's encoding at any byte recovers exactly the records whose
      whole frame survived: clean at a boundary, corrupt at the frame's offset inside a payload,
      torn inside a header or a digest. */
  lemma CrashRecovery(H: HashFn, records: seq<Record>, n: nat)
    requires AllDurable(H, records)
    requires n <= |EncodeAll(records)|
    ensures
      var k := Survivors(records, n);
      var whole := records[..k];
      var start := |EncodeAll(whole)|;
      DecodeAll(H, EncodeAll(records)[..n])
      == if n == start || k == |records| then Clean(whole)
         else if start + HEADER_LEN <= n < start + HEADER_LEN + |records[k].payload| then Corrupt(whole, start)
         else TornTail(whole)
  {
    hide DecodeFrame, Encode, EncodeAll, Survivors;
    var k := Survivors(records, n);
    CutBytes(records, n);
    var whole, bytes := records[..k], EncodeAll(records)[..n];
    var start := |EncodeAll(whole)|;
    var tail := if n == start then [] else Encode(records[k])[..n - start];
    assert bytes[0..] == EncodeAll(whole) + tail;
    DecodePast(H, bytes, 0, [], whole, tail);
    assert [] + whole == whole;
    if n == start {
      assert start == |bytes|;
    } else {
      assert bytes[start..] == tail;
      DecodeCutTail(H, bytes, start, whole, records[k], n - start);
    }
  }

  // ----- every verdict, exactly -----

  /** A header of this version and an allowed length, its whole payload, and less than a digest. */
  ghost predicate LacksDigest(s: seq<byte>, sequence: u64, previous: Digest, payload: seq<byte>, part: seq<byte>) {
    && |payload| <= MAX_PAYLOAD_LEN && |part| < DIGEST_LEN
    && s == HeaderBytes(sequence, |payload|, previous) + payload + part
  }

  /** What an interrupted write leaves behind the last whole record: less than a header, or a frame that
      lacks some of its digest. */
  ghost predicate IsTorn(s: seq<byte>) {
    || 0 < |s| < HEADER_LEN
    || exists sequence: u64, previous: Digest, payload, part :: LacksDigest(s, sequence, previous, payload, part)
  }

  ghost predicate StartsDurable(H: HashFn, s: seq<byte>) {
    exists r: Record :: Durable(H, r) && Encode(r) <= s
  }

  lemma TornIsTorn(H: HashFn, s: seq<byte>, sequence: u64, previous: Digest, payload: seq<byte>, part: seq<byte>)
    requires LacksDigest(s, sequence, previous, payload, part)
    ensures DecodeFrame(H, s) == Torn
  {
    hide HeaderBytes, ParseHeader;
    assert s[..HEADER_LEN] == HeaderBytes(sequence, |payload|, previous);
    ParseOfHeader(sequence, |payload|, previous);
  }

  lemma TornShape(H: HashFn, s: seq<byte>)
    requires DecodeFrame(H, s) == Torn && s != []
    ensures IsTorn(s)
  {
    if |s| >= HEADER_LEN {
      var h := ParseHeader(s[..HEADER_LEN]);
      HeaderOfParse(s[..HEADER_LEN]);
      hide HeaderBytes, ParseHeader;
      var end := HEADER_LEN + h.len;
      assert s == s[..HEADER_LEN] + s[HEADER_LEN..end] + s[end..];
      assert LacksDigest(s, h.sequence, h.previous, s[HEADER_LEN..end], s[end..]);
    }
  }

  /** The verdict on a frame: whole exactly if a durable record's encoding starts there, torn exactly if
      an interrupted write could have left it, and bad otherwise. */
  lemma FrameVerdict(H: HashFn, s: seq<byte>)
    requires s != []
    ensures DecodeFrame(H, s).Whole? <==> StartsDurable(H, s)
    ensures DecodeFrame(H, s).Torn? <==> IsTorn(s)
  {
    hide DecodeFrame, Encode, Durable;
    if DecodeFrame(H, s).Whole? {
      EncodeOfDecode(H, s);
    }
    if r: Record :| Durable(H, r) && Encode(r) <= s {
      assert s == Encode(r) + s[|Encode(r)|..];
      DecodeOfEncode(H, r, s[|Encode(r)|..]);
    }
    if DecodeFrame(H, s).Torn? {
      TornShape(H, s);
    }
    if |s| < HEADER_LEN {
      ShortIsTorn(H, s);
    } else if sequence: u64, previous: Digest, payload, part :| LacksDigest(s, sequence, previous, payload, part) {
      TornIsTorn(H, s, sequence, previous, payload, part);
    }
  }

  lemma ShortIsTorn(H: HashFn, s: seq<byte>)
    requires |s| < HEADER_LEN
    ensures DecodeFrame(H, s) == Torn
  {
  }

  lemma {:induction false} RecordsGrow(H: HashFn, bytes: seq<byte>, offset: nat, records: seq<Record>)
    requires offset <= |bytes|
    ensures |DecodeFrom(H, bytes, offset, records).records| >= |records|
    decreases |bytes| - offset
  {
    hide DecodeFrame;
    if offset != |bytes| && DecodeFrame(H, bytes[offset..]).Whole? {
      var f := DecodeFrame(H, bytes[offset..]);
      RecordsGrow(H, bytes, offset + f.size, records + [f.record]);
    }
  }

  /** What a decode of any bytes says: these records were written whole, and this lies behind them. */
  ghost predicate Says(H: HashFn, bytes: seq<byte>, r: DecodeOutcome) {
    && AllDurable(H, r.records)
    && EncodeAll(r.records) <= bytes
    && var tail := bytes[|EncodeAll(r.records)|..];
       match r
       case Clean(_) => tail == []
       case TornTail(_) => IsTorn(tail)
       case Corrupt(_, offset) => offset == |EncodeAll(r.records)| && tail != [] && !IsTorn(tail) && !StartsDurable(H, tail)
  }

  lemma VerdictBehind(H: HashFn, bytes: seq<byte>, start: nat, records: seq<Record>)
    requires start <= |bytes|
    ensures
      var tail, r := bytes[start..], DecodeFrom(H, bytes, start, records);
      if tail == [] then r == Clean(records)
      else if IsTorn(tail) then r == TornTail(records)
      else if !StartsDurable(H, tail) then r == Corrupt(records, start)
      else |r.records| > |records|
  {
    hide DecodeFrame, IsTorn, StartsDurable;
    var tail := bytes[start..];
    if tail != [] {
      FrameVerdict(H, tail);
      var f := DecodeFrame(H, tail);
      if f.Whole? {
        RecordsGrow(H, bytes, start + f.size, records + [f.record]);
      }
    }
  }

  /** On arbitrary bytes, an outcome is the decoding if and only if it says the truth about them. */
  lemma DecodeExact(H: HashFn, bytes: seq<byte>, r: DecodeOutcome)
    ensures DecodeAll(H, bytes) == r <==> Says(H, bytes, r)
  {
    hide DecodeFrame, Encode, IsTorn, StartsDurable, DecodeFrom;
    if DecodeAll(H, bytes) == r {
      assert bytes[..0] == [] == EncodeAll([]);
      RecoveredIsPrefix(H, bytes, 0, []);
    }
    if AllDurable(H, r.records) && EncodeAll(r.records) <= bytes {
      var start := |EncodeAll(r.records)|;
      var tail := bytes[start..];
      assert bytes[0..] == EncodeAll(r.records) + tail;
      DecodePast(H, bytes, 0, [], r.records, tail);
      assert [] + r.records == r.records;
      VerdictBehind(H, bytes, start, r.records);
      ApartVerdicts(H, tail);
    }
  }

  lemma ApartVerdicts(H: HashFn, s: seq<byte>)
    ensures !(IsTorn(s) && StartsDurable(H, s))
    ensures IsTorn(s) ==> s != []
  {
    hide DecodeFrame, Encode, Durable;
    TornIsSomething(s);
    if s != [] {
      FrameVerdict(H, s);
    }
  }

  lemma TornIsSomething(s: seq<byte>)
    ensures IsTorn(s) ==> s != []
  {
  }

  /** Damage to the payload or digest of a record that is whole is corruption at its offset, whatever
      follows; it is never taken for a torn tail, and what is recovered is exactly what lies before. */
  lemma DamageIsCorruption(H: HashFn, done: seq<Record>, r: Record, rest: seq<byte>)
    requires AllDurable(H, done) && |r.payload| <= MAX_PAYLOAD_LEN
    requires r.digest != RecordDigest(H, r.sequence, r.previous, r.payload)
    ensures DecodeAll(H, EncodeAll(done) + (Encode(r) + rest)) == Corrupt(done, |EncodeAll(done)|)
  {
    hide DecodeFrame, Encode;
    var bytes, tail := EncodeAll(done) + (Encode(r) + rest), Encode(r) + rest;
    assert bytes[0..] == EncodeAll(done) + tail;
    DecodePast(H, bytes, 0, [], done, tail);
    assert [] + done == done;
    assert bytes[|EncodeAll(done)|..] == tail;
    BadDigest(H, r, rest);
    Nonempty(r, rest);
  }

  lemma Nonempty(r: Record, rest: seq<byte>)
    ensures Encode(r) + rest != []
  {
  }

  lemma BadDigest(H: HashFn, r: Record, rest: seq<byte>)
    requires |r.payload| <= MAX_PAYLOAD_LEN && r.digest != RecordDigest(H, r.sequence, r.previous, r.payload)
    ensures DecodeFrame(H, Encode(r) + rest) == Bad
  {
    hide HeaderBytes, ParseHeader, RecordDigest;
    var s := Encode(r) + rest;
    FrameParts(r);
    var end := HEADER_LEN + |r.payload|;
    assert s[..HEADER_LEN] == Encode(r)[..HEADER_LEN];
    assert s[HEADER_LEN..end] == Encode(r)[HEADER_LEN..end];
    assert s[end..end + DIGEST_LEN] == Encode(r)[end..];
    ParseOfHeader(r.sequence, |r.payload|, r.previous);
  }

  // ----- the hash chain -----

  datatype ChainError = SequenceGap(index: nat, expected: nat, found: nat) | DigestMismatch(index: nat)

  /** What `verify_chain` checks; the first record's own sequence number is not looked at. */
  ghost predicate Chained(H: HashFn, records: seq<Record>) {
    && |records| < 0x1_0000_0000_0000_0000
    && (records != [] ==>
          && records[0].previous == ZERO
          && records[0].digest == RecordDigest(H, 0, ZERO, records[0].payload))
    && (forall i :: 1 <= i < |records| ==> Linked(H, records, i))
  }

  ghost predicate Linked(H: HashFn, records: seq<Record>, i: nat)
    requires 1 <= i < |records|
  {
    && records[i].sequence == i
    && records[i].previous == records[i - 1].digest
    && records[i].digest == RecordDigest(H, records[i].sequence, records[i].previous, records[i].payload)
  }

  /** The first place where the chain breaks. */
  ghost predicate BreaksAt(H: HashFn, records: seq<Record>, i: nat) {
    i < |records| && Chained(H, records[..i]) && !Chained(H, records[..i + 1])
  }

  lemma FirstBreak(H: HashFn, records: seq<Record>, i: nat)
    requires 1 <= i < |records| < 0x1_0000_0000_0000_0000 && !Linked(H, records, i)
    requires records[0].previous == ZERO && records[0].digest == RecordDigest(H, 0, ZERO, records[0].payload)
    requires forall j :: 1 <= j < i ==> Linked(H, records, j)
    ensures BreaksAt(H, records, i)
  {
    hide RecordDigest;
    forall j | 1 <= j < i
      ensures Linked(H, records[..i], j)
    {
      assert Linked(H, records, j);
    }
    assert Linked(H, records[..i + 1], i) == Linked(H, records, i);
  }

  /** The chain is accepted if and only if every record is linked; an error names the first that is not,
      and whether its number or its digest is wrong. */
  method VerifyChain(H: HashFn, records: seq<Record>) returns (r: Result<(), ChainError>)
    requires |records| < 0x1_0000_0000_0000_0000
    ensures r.Ok? <==> Chained(H, records)
    ensures r.Err? ==>
              match r.error
              case DigestMismatch(i) => BreaksAt(H, records, i) && (i == 0 || records[i].sequence == i)
              case SequenceGap(i, expected, found) =>
                BreaksAt(H, records, i) && i > 0 && expected == i && found == records[i].sequence && found != expected
  {
    hide RecordDigest;
    if records == [] { return Ok(()); }
    if records[0].previous != ZERO || records[0].digest != RecordDigest(H, 0, ZERO, records[0].payload) {
      return Err(DigestMismatch(0));
    }
    for i := 1 to |records|
      invariant forall j :: 1 <= j < i ==> Linked(H, records, j)
    {
      if records[i].sequence != i {
        assert !Linked(H, records, i);
        FirstBreak(H, records, i);
        return Err(SequenceGap(i, i, records[i].sequence));
      }
      if records[i].previous != records[i - 1].digest
         || records[i].digest != RecordDigest(H, records[i].sequence, records[i].previous, records[i].payload) {
        assert !Linked(H, records, i);
        FirstBreak(H, records, i);
        return Err(DigestMismatch(i));
      }
    }
    return Ok(());
  }

  /** The journal that appending these payloads one after the other writes. */
  function Chain(H: HashFn, payloads: seq<seq<byte>>): (r: seq<Record>)
    requires |payloads| < 0x1_0000_0000_0000_0000
    ensures |r| == |payloads|
  {
    if payloads == [] then []
    else
      var n := |payloads| - 1;
      var before := Chain(H, payloads[..n]);
      var previous := if n == 0 then ZERO else before[n - 1].digest;
      before + [Record(n, payloads[n], previous, RecordDigest(H, n, previous, payloads[n]))]
  }

  function Payloads(records: seq<Record>): (p: seq<seq<byte>>)
    ensures |p| == |records| && forall i :: 0 <= i < |p| ==> p[i] == records[i].payload
  {
    seq(|records|, i requires 0 <= i < |records| => records[i].payload)
  }

  lemma ChainedPrefix(H: HashFn, records: seq<Record>)
    requires records != []
    ensures
      var n := |records| - 1;
      Chained(H, records) <==>
        |records| < 0x1_0000_0000_0000_0000 && Chained(H, records[..n])
        && (if n == 0 then records[0].previous == ZERO && records[0].digest == RecordDigest(H, 0, ZERO, records[0].payload)
            else Linked(H, records, n))
  {
    hide RecordDigest;
    var n := |records| - 1;
    if n > 0 {
      assert forall i :: 1 <= i < n ==> (Linked(H, records[..n], i) <==> Linked(H, records, i));
    }
  }

  /** The chain check accepts exactly the journals that appending writes, up to the first number. */
  lemma {:induction false} ChainedIff(H: HashFn, records: seq<Record>)
    requires |records| < 0x1_0000_0000_0000_0000 && (records != [] ==> records[0].sequence == 0)
    ensures Chained(H, records) <==> records == Chain(H, Payloads(records))
    decreases |records|
  {
    if records == [] {
      assert Payloads(records) == [];
    } else {
      hide Chained, RecordDigest;
      var n := |records| - 1;
      ChainedPrefix(H, records);
      ChainedIff(H, records[..n]);
      assert Payloads(records)[..n] == Payloads(records[..n]);
      SameSnoc(records, Chain(H, Payloads(records)));
    }
  }

  lemma SameSnoc<T>(a: seq<T>, b: seq<T>)
    requires |a| == |b| > 0
    ensures a == b <==> a[..|a| - 1] == b[..|a| - 1] && a[|a| - 1] == b[|a| - 1]
  {
    assert a == a[..|a| - 1] + [a[|a| - 1]] && b == b[..|a| - 1] + [b[|a| - 1]];
  }

  /** The first number is not looked at: a chain that starts at any number is accepted. It comes out of
      a file exactly if the digest does not tell that number from zero. */
  lemma FirstNumberIsNotChecked(H: HashFn, first: u64, payload: seq<byte>)
    requires |payload| <= MAX_PAYLOAD_LEN
    ensures
      var r := Record(first, payload, ZERO, RecordDigest(H, 0, ZERO, payload));
      && Chained(H, [r])
      && (Durable(H, r) <==> H(Preimage(0, ZERO, payload)) == H(Preimage(first, ZERO, payload)))
  {
  }

  // ----- tamper evidence -----

  /** The inputs on which a decode and a chain check of these records evaluate H. */
  ghost predicate Digested(records: seq<Record>, x: seq<byte>) {
    exists i :: 0 <= i < |records| &&
      (x == OwnPreimage(records[i]) || (i == 0 && x == Preimage(0, ZERO, records[i].payload)))
  }

  function OwnPreimage(r: Record): seq<byte> {
    Preimage(r.sequence, r.previous, r.payload)
  }

  /** Two different inputs, both digested for one of the two journals, with one digest. */
  ghost predicate Collides(H: HashFn, a: seq<Record>, b: seq<Record>, x: seq<byte>, y: seq<byte>) {
    x != y && H(x) == H(y) && (Digested(a, x) || Digested(b, x)) && (Digested(a, y) || Digested(b, y))
  }

  ghost predicate CollisionIn(H: HashFn, a: seq<Record>, b: seq<Record>) {
    exists x, y :: Collides(H, a, b, x, y)
  }

  /** Every record of a decoded, verified journal carries its position, or digests collide. */
  lemma SequencesAreIndices(H: HashFn, a: seq<Record>, i: nat)
    requires AllDurable(H, a) && Chained(H, a) && i < |a|
    ensures a[i].sequence == i || CollisionIn(H, a, a)
  {
    if i == 0 {
      var x, y := OwnPreimage(a[0]), Preimage(0, ZERO, a[0].payload);
      assert Digested(a, x) && Digested(a, y);
      if x == y {
        PreimageInjective(a[0].sequence, a[0].previous, a[0].payload, 0, ZERO, a[0].payload);
      } else {
        assert Collides(H, a, a, x, y);
      }
    } else {
      assert Linked(H, a, i);
    }
  }

  /** Equal digests force equal records, or exhibit a collision. */
  lemma SameDigestSameRecord(H: HashFn, a: seq<Record>, b: seq<Record>, i: nat, j: nat)
    requires AllDurable(H, a) && AllDurable(H, b) && i < |a| && j < |b|
    requires a[i].digest == b[j].digest
    ensures a[i] == b[j] || CollisionIn(H, a, b)
  {
    var x, y := OwnPreimage(a[i]), OwnPreimage(b[j]);
    assert Durable(H, a[i]) && Durable(H, b[j]);
    assert Digested(a, x) && Digested(b, y);
    if x == y {
      PreimageInjective(a[i].sequence, a[i].previous, a[i].payload, b[j].sequence, b[j].previous, b[j].payload);
    } else {
      assert Collides(H, a, b, x, y);
    }
  }

  lemma CollisionWidens(H: HashFn, a: seq<Record>, b: seq<Record>)
    requires CollisionIn(H, a, a) || CollisionIn(H, b, b)
    ensures CollisionIn(H, a, b)
  {
    var c := if CollisionIn(H, a, a) then a else b;
    var x, y :| Collides(H, c, c, x, y);
    assert Collides(H, a, b, x, y);
  }

  /** Walking both chains back from an equal digest at the same position. */
  lemma {:induction false} ChainsAgree(H: HashFn, a: seq<Record>, b: seq<Record>, n: nat)
    requires AllDurable(H, a) && AllDurable(H, b) && Chained(H, a) && Chained(H, b)
    requires n < |a| && n < |b| && a[n].digest == b[n].digest
    ensures a[..n + 1] == b[..n + 1] || CollisionIn(H, a, b)
  {
    hide CollisionIn, RecordDigest, AllDurable;
    SameDigestSameRecord(H, a, b, n, n);
    if a[n] == b[n] {
      if n == 0 {
        assert a[..1] == [a[0]] && b[..1] == [b[0]];
      } else {
        assert Linked(H, a, n) && Linked(H, b, n);
        ChainsAgree(H, a, b, n - 1);
        assert a[..n + 1] == a[..n] + [a[n]] && b[..n + 1] == b[..n] + [b[n]];
      }
    }
  }

  /** Tamper evidence for records: the last digest pins down the whole journal. */
  lemma TamperEvidence(H: HashFn, a: seq<Record>, b: seq<Record>)
    requires AllDurable(H, a) && AllDurable(H, b) && Chained(H, a) && Chained(H, b)
    requires a != [] && b != [] && a[|a| - 1].digest == b[|b| - 1].digest
    ensures (a == b && forall i :: 0 <= i < |a| ==> a[i].sequence == i) || CollisionIn(H, a, b)
  {
    hide CollisionIn, RecordDigest, Linked, Chained, AllDurable;
    if !CollisionIn(H, a, b) {
      forall i | 0 <= i < |a|
        ensures a[i].sequence == i
      {
        SequencesAreIndices(H, a, i);
        if CollisionIn(H, a, a) { CollisionWidens(H, a, b); }
      }
      SequencesAreIndices(H, b, |b| - 1);
      if CollisionIn(H, b, b) { CollisionWidens(H, a, b); }
      SameDigestSameRecord(H, a, b, |a| - 1, |b| - 1);
      assert |a| == |b|;
      ChainsAgree(H, a, b, |a| - 1);
      assert a[..|a|] == a && b[..|b|] == b;
    }
  }

  /** Tamper evidence for files: two byte strings that decode cleanly, verify and end in the same
      digest are the same bytes, or exhibit a collision. */
  lemma FileTamperEvidence(H: HashFn, f: seq<byte>, g: seq<byte>, a: seq<Record>, b: seq<Record>)
    requires DecodeAll(H, f) == Clean(a) && DecodeAll(H, g) == Clean(b)
    requires Chained(H, a) && Chained(H, b)
    requires a != [] && b != [] && a[|a| - 1].digest == b[|b| - 1].digest
    ensures f == g || CollisionIn(H, a, b)
  {
    RecoveredIsPrefix(H, f, 0, []);
    RecoveredIsPrefix(H, g, 0, []);
    TamperEvidence(H, a, b);
    assert f[..|f|] == f && g[..|g|] == g;
  }

  /** The layout, byte by byte: version, sequence and length big-endian, previous digest, payload, digest. */
  lemma EncodedBytes(payload: byte, previous: Digest, digest: Digest)
    ensures Encode(Record(258, [payload], previous, digest))
         == [1] + [0, 0, 0, 0, 0, 0, 1, 2] + [0, 0, 0, 1] + previous + [payload] + digest
  {
    SmallBigEndian();
    assert HeaderBytes(258, 1, previous) == [1] + BigEndian(258, 8) + BigEndian(1, 4) + previous;
    hide BigEndian, HeaderBytes;
    assert Encode(Record(258, [payload], previous, digest)) == HeaderBytes(258, 1, previous) + [payload] + digest;
    assert [1] + BigEndian(258, 8) + BigEndian(1, 4) + previous == [1] + [0, 0, 0, 0, 0, 0, 1, 2] + [0, 0, 0, 1] + previous;
  }

  lemma SmallBigEndian()
    ensures BigEndian(258, 8) == [0, 0, 0, 0, 0, 0, 1, 2] && BigEndian(1, 4) == [0, 0, 0, 1]
  {
    assert BigEndian(0, 2) == [0, 0];
    assert BigEndian(0, 4) == BigEndian(0, 2) + [0, 0];
    assert BigEndian(0, 6) == BigEndian(0, 4) + [0, 0];
    assert BigEndian(1, 4) == BigEndian(0, 2) + [0, 1];
    assert BigEndian(258, 8) == BigEndian(0, 6) + [1, 2];
  }
}
