/**
  Chunked transfer encoding (section 7.1 of RFC 9112) as the login client decodes it: bytes
  already read plus further reads, a hexadecimal size line per chunk, trailers at the end.
 */
module Chunked {
  import opened Bytes
  import opened Wrappers
  import opened Session

  const CR: byte := 13
  const LF: byte := 10
  const CRLF: seq<byte> := [13, 10]
  const SEMICOLON: byte := 0x3B
  const USIZE := 0x1_0000_0000_0000_0000

  // ----- lines -----

  /** Where the first line break starts. */
  function FirstCrlf(s: seq<byte>): (r: Option<nat>)
    ensures r.Some? ==> r.value + 2 <= |s|
  {
    if |s| < 2 then None
    else if s[0] == CR && s[1] == LF then Some(0)
    else
      match FirstCrlf(s[1..])
      case None => None
      case Some(k) => Some(k + 1)
  }

  lemma {:induction false} FirstCrlfExtends(a: seq<byte>, b: seq<byte>)
    requires FirstCrlf(a).Some?
    ensures FirstCrlf(a + b) == FirstCrlf(a)
  {
    if !(a[0] == CR && a[1] == LF) {
      FirstCrlfExtends(a[1..], b);
      assert (a + b)[1..] == a[1..] + b;
    }
  }

  predicate IsLine(s: seq<byte>) {
    forall i :: 0 <= i < |s| - 1 ==> !(s[i] == CR && s[i + 1] == LF)
  }

  lemma {:induction false} FirstCrlfOfLine(line: seq<byte>, rest: seq<byte>)
    requires IsLine(line)
    ensures FirstCrlf(line + CRLF + rest) == Some(|line|)
  {
    var s := line + CRLF + rest;
    if line != [] {
      assert s[1..] == line[1..] + CRLF + rest;
      FirstCrlfOfLine(line[1..], rest);
      assert s[1] == if |line| > 1 then line[1] else CR;
    }
  }

  // ----- the size line -----

  predicate Continuation(b: byte) {
    0x80 <= b <= 0xBF
  }

  /** The length of the well-formed UTF-8 character at the front, or zero. */
  function CharLen(s: seq<byte>): (n: nat)
    ensures n <= |s|
    ensures n <= 4
  {
    if s == [] then 0
    else if s[0] < 0x80 then 1
    else if |s| >= 2 && 0xC2 <= s[0] <= 0xDF && Continuation(s[1]) then 2
    else if |s| >= 3 && Continuation(s[2])
         && (|| (s[0] == 0xE0 && 0xA0 <= s[1] <= 0xBF)
             || (s[0] == 0xED && 0x80 <= s[1] <= 0x9F)
             || ((0xE1 <= s[0] <= 0xEC || 0xEE <= s[0] <= 0xEF) && Continuation(s[1]))) then 3
    else if |s| >= 4 && Continuation(s[2]) && Continuation(s[3])
         && (|| (s[0] == 0xF0 && 0x90 <= s[1] <= 0xBF)
             || (s[0] == 0xF4 && 0x80 <= s[1] <= 0x8F)
             || (0xF1 <= s[0] <= 0xF3 && Continuation(s[1]))) then 4
    else 0
  }

  predicate Utf8(s: seq<byte>)
    decreases |s|
  {
    s == [] || (CharLen(s) > 0 && Utf8(s[CharLen(s)..]))
  }

  /** The encodings of Unicode white space. */
  predicate IsBlank(s: seq<byte>) {
    || (|s| == 1 && (9 <= s[0] <= 13 || s[0] == 32))
    || s == [0xC2, 0x85] || s == [0xC2, 0xA0] || s == [0xE1, 0x9A, 0x80]
    || (|s| == 3 && s[0] == 0xE2 && s[1] == 0x80 && (0x80 <= s[2] <= 0x8A || s[2] == 0xA8 || s[2] == 0xA9 || s[2] == 0xAF))
    || s == [0xE2, 0x81, 0x9F] || s == [0xE3, 0x80, 0x80]
  }

  function TrimStart(s: seq<byte>): (r: seq<byte>)
    decreases |s|
  {
    if |s| >= 1 && IsBlank(s[..1]) then TrimStart(s[1..])
    else if |s| >= 2 && IsBlank(s[..2]) then TrimStart(s[2..])
    else if |s| >= 3 && IsBlank(s[..3]) then TrimStart(s[3..])
    else s
  }

  function TrimEnd(s: seq<byte>): (r: seq<byte>)
    decreases |s|
  {
    if |s| >= 1 && IsBlank(s[|s| - 1..]) then TrimEnd(s[..|s| - 1])
    else if |s| >= 2 && IsBlank(s[|s| - 2..]) then TrimEnd(s[..|s| - 2])
    else if |s| >= 3 && IsBlank(s[|s| - 3..]) then TrimEnd(s[..|s| - 3])
    else s
  }

  function BeforeSemicolon(s: seq<byte>): (r: seq<byte>) {
    if s == [] || s[0] == SEMICOLON then [] else [s[0]] + BeforeSemicolon(s[1..])
  }

  function HexDigit(b: byte): (r: Option<nat>)
    ensures r.Some? ==> r.value < 16
  {
    if 0x30 <= b <= 0x39 then Some(b - 0x30)
    else if 0x61 <= b <= 0x66 then Some(b - 0x61 + 10)
    else if 0x41 <= b <= 0x46 then Some(b - 0x41 + 10)
    else None
  }

  /** The value of hexadecimal digits, read left to right. */
  function HexValue(s: seq<byte>): (r: Option<nat>) {
    if s == [] then Some(0)
    else
      var n := |s| - 1;
      var high, low := HexValue(s[..n]), HexDigit(s[n]);
      if high.None? || low.None? then None else Some(16 * high.value + low.value)
  }

  /** An unsigned 64-bit hexadecimal number; a leading plus sign is accepted. */
  function FromHex(s: seq<byte>): (r: Option<nat>) {
    var digits := if |s| > 1 && s[0] == 0x2B then s[1..] else s;
    if digits == [] then None
    else
      match HexValue(digits)
      case None => None
      case Some(v) => if v < USIZE then Some(v) else None
  }

  /** The chunk size a line declares. */
  function ParseSizeLine(line: seq<byte>): (r: Option<nat>) {
    if !Utf8(line) then None else FromHex(TrimEnd(TrimStart(BeforeSemicolon(line))))
  }

  // ----- the body of a stream -----

  /** Whether trailer lines and the blank line that ends them are there. */
  predicate TrailersEnd(s: seq<byte>)
    decreases |s|
  {
    match FirstCrlf(s)
    case None => false
    case Some(e) => e == 0 || TrailersEnd(s[e + 2..])
  }

  /** The body of a byte stream, with some of it already decoded; none for any failure. */
  function BodyOf(s: seq<byte>, body: seq<byte>, max: nat): (r: Option<seq<byte>>)
    decreases |s|
  {
    match FirstCrlf(s)
    case None => None
    case Some(e) =>
      match ParseSizeLine(s[..e])
      case None => None
      case Some(n) => ChunkBody(s[e + 2..], n, body, max)
  }

  function ChunkBody(s: seq<byte>, n: nat, body: seq<byte>, max: nat): (r: Option<seq<byte>>)
    decreases |s|
  {
    if n == 0 then (if TrailersEnd(s) then Some(body) else None)
    else if n + 2 >= USIZE || |s| < n + 2 then None
    else if |body + s[..n]| > max then None
    else BodyOf(s[n + 2..], body + s[..n], max)
  }

  // ----- the decoder -----

  /** The bytes still to come: those pending and those of the reads not yet made. */
  function Ahead(pending: seq<byte>, net: seq<ReadOutcome>, i: nat): seq<byte>
    requires i <= |net|
  {
    pending + Stream(net[i..])
  }

  /** One more read joins the pending bytes; a close or an error is the end. */
  method ReadMore(net: seq<ReadOutcome>, i: nat, pending: seq<byte>) returns (ok: bool, pending': seq<byte>, i': nat)
    requires i <= |net|
    ensures i' <= |net|
    ensures ok ==> i' > i && Ahead(pending', net, i') == Ahead(pending, net, i)
    ensures !ok ==> Ahead(pending, net, i) == pending
  {
    if i == |net| || net[i].ReadError? || net[i].chunk == [] {
      assert Stream(net[i..]) == [];
      return false, pending, i;
    }
    assert net[i..][1..] == net[i + 1..];
    return true, pending + net[i].chunk, i + 1;
  }

  /** Read until a whole line is pending. */
  method ReadLine(net: seq<ReadOutcome>, i: nat, pending: seq<byte>)
    returns (end: Option<nat>, pending': seq<byte>, i': nat)
    requires i <= |net|
    ensures i' <= |net|
    ensures end == FirstCrlf(Ahead(pending, net, i))
    ensures end.Some? ==> end.value + 2 <= |pending'| && Ahead(pending', net, i') == Ahead(pending, net, i)
  {
    pending', i' := pending, i;
    while true
      invariant i' <= |net| && Ahead(pending', net, i') == Ahead(pending, net, i)
      decreases |net| - i'
    {
      end := FirstCrlf(pending');
      if end.Some? {
        FirstCrlfExtends(pending', Stream(net[i'..]));
        return;
      }
      var ok;
      ghost var before := pending';
      ok, pending', i' := ReadMore(net, i', pending');
      if !ok { return; }
    }
  }

  /** Read until enough bytes are pending. */
  method ReadAtLeast(net: seq<ReadOutcome>, i: nat, pending: seq<byte>, want: nat)
    returns (ok: bool, pending': seq<byte>, i': nat)
    requires i <= |net|
    ensures i' <= |net|
    ensures ok <==> |Ahead(pending, net, i)| >= want
    ensures ok ==> |pending'| >= want && Ahead(pending', net, i') == Ahead(pending, net, i)
  {
    pending', i', ok := pending, i, true;
    while |pending'| < want
      invariant i' <= |net| && Ahead(pending', net, i') == Ahead(pending, net, i)
      decreases |net| - i'
    {
      ok, pending', i' := ReadMore(net, i', pending');
      if !ok { return; }
    }
  }

  /** Consume trailer lines up to the blank line. */
  method ReadTrailers(net: seq<ReadOutcome>, i: nat, pending: seq<byte>) returns (ok: bool)
    requires i <= |net|
    ensures ok == TrailersEnd(Ahead(pending, net, i))
  {
    hide FirstCrlf;
    var p, j: nat := pending, i;
    while true
      invariant j <= |net| && TrailersEnd(Ahead(p, net, j)) == TrailersEnd(Ahead(pending, net, i))
      decreases |Ahead(p, net, j)|
    {
      ghost var s := Ahead(p, net, j);
      var end;
      end, p, j := ReadLine(net, j, p);
      if end.None? { return false; }
      DropAhead(p, net, j, end.value + 2);
      if end.value == 0 { return true; }
      p := p[end.value + 2..];
    }
  }

  lemma DropAhead(p: seq<byte>, net: seq<ReadOutcome>, j: nat, n: nat)
    requires j <= |net| && n <= |p|
    ensures Ahead(p[n..], net, j) == Ahead(p, net, j)[n..]
    ensures Ahead(p, net, j)[..n] == p[..n]
  {
  }

  /** The decoder: the result is that of the whole byte stream, wherever it was split between what
      was pending and what each read brought. */
  method DecodeChunkedBody(net: seq<ReadOutcome>, pending: seq<byte>, max: nat) returns (r: Option<seq<byte>>)
    ensures r == BodyOf(pending + Stream(net), [], max)
  {
    hide FirstCrlf, ParseSizeLine, TrailersEnd;
    var body: seq<byte>, p, j: nat := [], pending, 0;
    assert net[0..] == net;
    while true
      invariant j <= |net|
      invariant BodyOf(Ahead(p, net, j), body, max) == BodyOf(pending + Stream(net), [], max)
      decreases |Ahead(p, net, j)|
    {
      ghost var s := Ahead(p, net, j);
      var end;
      end, p, j := ReadLine(net, j, p);
      if end.None? { return None; }
      DropAhead(p, net, j, end.value);
      DropAhead(p, net, j, end.value + 2);
      var size := ParseSizeLine(p[..end.value]);
      if size.None? { return None; }
      p := p[end.value + 2..];
      var n := size.value;
      if n == 0 {
        var done := ReadTrailers(net, j, p);
        if done { return Some(body); } else { return None; }
      }
      if n + 2 >= USIZE { return None; }
      var ok;
      ok, p, j := ReadAtLeast(net, j, p, n + 2);
      if !ok { return None; }
      DropAhead(p, net, j, n);
      DropAhead(p, net, j, n + 2);
      body := body + p[..n];
      p := p[n + 2..];
      if |body| > max { return None; }
    }
  }

  // ----- what the encoder of RFC 9112 may print -----

  /** A chunk: any line that declares its size, and its bytes. */
  datatype Chunk = Chunk(line: seq<byte>, data: seq<byte>)

  ghost predicate IsChunk(c: Chunk) {
    && c.data != [] && |c.data| + 2 < USIZE
    && IsLine(c.line) && ParseSizeLine(c.line) == Some(|c.data|)
  }

  function PrintChunk(c: Chunk): seq<byte> {
    c.line + CRLF + (c.data + CRLF)
  }

  function PrintChunks(chunks: seq<Chunk>): (s: seq<byte>) {
    if chunks == [] then [] else PrintChunk(chunks[0]) + PrintChunks(chunks[1..])
  }

  function DataOf(chunks: seq<Chunk>): (s: seq<byte>) {
    if chunks == [] then [] else chunks[0].data + DataOf(chunks[1..])
  }

  function PrintTrailers(trailers: seq<seq<byte>>): (s: seq<byte>) {
    if trailers == [] then CRLF else trailers[0] + CRLF + PrintTrailers(trailers[1..])
  }

  ghost predicate AreTrailers(trailers: seq<seq<byte>>) {
    forall i :: 0 <= i < |trailers| ==> trailers[i] != [] && IsLine(trailers[i])
  }

  lemma {:induction false} TrailersAreRead(trailers: seq<seq<byte>>, rest: seq<byte>)
    requires AreTrailers(trailers)
    ensures TrailersEnd(PrintTrailers(trailers) + rest)
    decreases |trailers|
  {
    hide FirstCrlf, IsLine;
    if trailers == [] {
      EmptyLine();
      FirstCrlfOfLine([], rest);
      assert [] + CRLF + rest == CRLF + rest;
    } else {
      var t, more := trailers[0], PrintTrailers(trailers[1..]) + rest;
      var s := PrintTrailers(trailers) + rest;
      assert s == t + CRLF + more;
      FirstCrlfOfLine(t, more);
      assert s[|t| + 2..] == more;
      TrailersAreRead(trailers[1..], rest);
    }
  }

  lemma EmptyLine()
    ensures IsLine([])
  {
  }

  /** The size line, then the rest of the stream. */
  lemma BodyOfLine(line: seq<byte>, rest: seq<byte>, n: nat, body: seq<byte>, max: nat)
    requires IsLine(line) && ParseSizeLine(line) == Some(n)
    ensures BodyOf(line + CRLF + rest, body, max) == ChunkBody(rest, n, body, max)
  {
    hide FirstCrlf, ParseSizeLine, ChunkBody;
    var s := line + CRLF + rest;
    FirstCrlfOfLine(line, rest);
    assert s[..|line|] == line && s[|line| + 2..] == rest;
  }

  lemma ChunkBodyOfData(data: seq<byte>, rest: seq<byte>, body: seq<byte>, max: nat)
    requires data != [] && |data| + 2 < USIZE
    ensures ChunkBody(data + CRLF + rest, |data|, body, max)
         == if |body + data| > max then None else BodyOf(rest, body + data, max)
  {
    hide BodyOf;
    var s := data + CRLF + rest;
    assert s[..|data|] == data && s[|data| + 2..] == rest;
  }

  /** The round trip: any printing of any chunks, any terminating size line and any trailers decodes to
      the chunks' data, unless the data outgrows the limit; bytes behind the trailers do not matter. */
  lemma {:induction false} ChunkedRoundTrip(chunks: seq<Chunk>, last: seq<byte>, trailers: seq<seq<byte>>,
                                            rest: seq<byte>, body: seq<byte>, max: nat)
    requires forall i :: 0 <= i < |chunks| ==> IsChunk(chunks[i])
    requires IsLine(last) && ParseSizeLine(last) == Some(0) && AreTrailers(trailers)
    requires |body| <= max
    ensures BodyOf(PrintChunks(chunks) + (last + CRLF + (PrintTrailers(trailers) + rest)), body, max)
         == if |body| + |DataOf(chunks)| <= max then Some(body + DataOf(chunks)) else None
    decreases |chunks|
  {
    hide BodyOf, ChunkBody, ParseSizeLine, IsLine, AreTrailers, PrintTrailers;
    var end := last + CRLF + (PrintTrailers(trailers) + rest);
    if chunks == [] {
      assert [] + end == end;
      BodyOfLine(last, PrintTrailers(trailers) + rest, 0, body, max);
      LastChunk(trailers, rest, body, max);
      assert body + [] == body;
    } else {
      var c, more := chunks[0], PrintChunks(chunks[1..]) + end;
      assert IsChunk(c);
      assert PrintChunks(chunks) + end == c.line + CRLF + (c.data + CRLF + more);
      BodyOfLine(c.line, c.data + CRLF + more, |c.data|, body, max);
      ChunkBodyOfData(c.data, more, body, max);
      if |body + c.data| <= max {
        ChunkedRoundTrip(chunks[1..], last, trailers, rest, body + c.data, max);
        assert (body + c.data) + DataOf(chunks[1..]) == body + DataOf(chunks);
      }
    }
  }

  lemma LastChunk(trailers: seq<seq<byte>>, rest: seq<byte>, body: seq<byte>, max: nat)
    requires AreTrailers(trailers)
    ensures ChunkBody(PrintTrailers(trailers) + rest, 0, body, max) == Some(body)
  {
    TrailersAreRead(trailers, rest);
  }

  // ----- canonical size lines -----

  function HexChar(d: nat): byte
    requires d < 16
  {
    if d < 10 then 0x30 + d else 0x61 + (d - 10)
  }

  /** Lower-case hexadecimal without leading zeros. */
  function HexPrint(n: nat): (s: seq<byte>)
    ensures s != []
  {
    if n < 16 then [HexChar(n)] else HexPrint(n / 16) + [HexChar(n % 16)]
  }

  predicate IsHexText(s: seq<byte>) {
    forall i :: 0 <= i < |s| ==> IsHexByte(s[i])
  }

  lemma {:induction false} HexPrintIsHex(n: nat)
    ensures IsHexText(HexPrint(n))
    ensures HexValue(HexPrint(n)) == Some(n)
  {
    if n < 16 {
      assert HexValue([]) == Some(0);
      assert [HexChar(n)][..0] == [];
    } else {
      HexPrintIsHex(n / 16);
      var s := HexPrint(n);
      assert s[..|s| - 1] == HexPrint(n / 16);
    }
  }

  lemma {:induction false} AsciiIsUtf8(a: seq<byte>, ext: seq<byte>)
    requires IsHexText(a) && Utf8(ext)
    ensures Utf8(a + ext)
  {
    if a == [] {
      assert a + ext == ext;
    } else {
      assert (a + ext)[1..] == a[1..] + ext;
      AsciiIsUtf8(a[1..], ext);
    }
  }

  lemma {:induction false} SizeBeforeExtension(a: seq<byte>, ext: seq<byte>)
    requires IsHexText(a) && (ext == [] || ext[0] == SEMICOLON)
    ensures BeforeSemicolon(a + ext) == a
  {
    if a == [] {
      assert a + ext == ext;
    } else {
      assert (a + ext)[1..] == a[1..] + ext;
      SizeBeforeExtension(a[1..], ext);
      assert [a[0]] + a[1..] == a;
    }
  }

  predicate IsHexByte(b: byte) {
    0x30 <= b <= 0x39 || 0x61 <= b <= 0x66
  }

  lemma HexEndsAreNotBlank(s: seq<byte>)
    requires s != [] && (IsHexByte(s[0]) || IsHexByte(s[|s| - 1]))
    ensures !IsBlank(s)
  {
  }

  lemma HexIsTrimmed(a: seq<byte>)
    requires a != [] && IsHexText(a)
    ensures TrimStart(a) == a && TrimEnd(a) == a
  {
    HexStartStays(a);
    HexEndStays(a);
  }

  lemma HexStartStays(a: seq<byte>)
    requires a != [] && IsHexByte(a[0])
    ensures TrimStart(a) == a
  {
    hide IsBlank, IsHexByte;
    HexEndsAreNotBlank(a[..1]);
    if |a| >= 2 { HexEndsAreNotBlank(a[..2]); }
    if |a| >= 3 { HexEndsAreNotBlank(a[..3]); }
  }

  lemma HexEndStays(a: seq<byte>)
    requires a != [] && IsHexByte(a[|a| - 1])
    ensures TrimEnd(a) == a
  {
    hide IsBlank, IsHexByte;
    EndIsNotBlank(a, 1);
    EndIsNotBlank(a, 2);
    EndIsNotBlank(a, 3);
  }

  lemma EndIsNotBlank(a: seq<byte>, k: nat)
    requires k > 0 && a != [] && IsHexByte(a[|a| - 1])
    ensures k <= |a| ==> !IsBlank(a[|a| - k..])
  {
    hide IsBlank, IsHexByte;
    if k <= |a| {
      var s := a[|a| - k..];
      assert s[|s| - 1] == a[|a| - 1];
      HexEndsAreNotBlank(s);
    }
  }

  /** Every size, printed in hexadecimal with any extension, is read back. */
  lemma SizeLineRoundTrip(n: nat, ext: seq<byte>)
    requires n < USIZE && Utf8(ext) && (ext == [] || ext[0] == SEMICOLON)
    ensures ParseSizeLine(HexPrint(n) + ext) == Some(n)
  {
    hide HexPrint, HexValue, TrimStart, TrimEnd, BeforeSemicolon, Utf8;
    HexPrintIsHex(n);
    AsciiIsUtf8(HexPrint(n), ext);
    SizeBeforeExtension(HexPrint(n), ext);
    HexIsTrimmed(HexPrint(n));
    assert HexPrint(n)[0] != 0x2B;
  }

  // ----- the closed round trip -----

  lemma HexLine(n: nat, ext: seq<byte>)
    requires IsLine(ext)
    ensures IsLine(HexPrint(n) + ext)
  {
    HexPrintIsHex(n);
    hide HexPrint, HexValue;
    var a := HexPrint(n);
    forall i | 0 <= i < |a + ext| - 1
      ensures !((a + ext)[i] == CR && (a + ext)[i + 1] == LF)
    {
      if i < |a| {
        assert IsHexByte(a[i]);
      } else {
        assert (a + ext)[i] == ext[i - |a|] && (a + ext)[i + 1] == ext[i - |a| + 1];
      }
    }
  }

  /** A piece of a body, with the extension its size line carries. */
  datatype Piece = Piece(data: seq<byte>, ext: seq<byte>)

  predicate IsExtension(ext: seq<byte>) {
    Utf8(ext) && IsLine(ext) && (ext == [] || ext[0] == SEMICOLON)
  }

  ghost predicate ArePieces(pieces: seq<Piece>) {
    forall i :: 0 <= i < |pieces| ==> pieces[i].data != [] && |pieces[i].data| + 2 < USIZE && IsExtension(pieces[i].ext)
  }

  function Cut(pieces: seq<Piece>): (r: seq<Chunk>)
    ensures |r| == |pieces| && forall i :: 0 <= i < |r| ==> r[i] == Chunk(HexPrint(|pieces[i].data|) + pieces[i].ext, pieces[i].data)
  {
    seq(|pieces|, i requires 0 <= i < |pieces| => Chunk(HexPrint(|pieces[i].data|) + pieces[i].ext, pieces[i].data))
  }

  /** A whole body on the wire: sizes in hexadecimal, the zero size, the trailers. */
  function PrintBody(pieces: seq<Piece>, ext: seq<byte>, trailers: seq<seq<byte>>): seq<byte> {
    PrintChunks(Cut(pieces)) + (HexPrint(0) + ext + CRLF + PrintTrailers(trailers))
  }

  function BodyData(pieces: seq<Piece>): seq<byte> {
    DataOf(Cut(pieces))
  }

  /** Any body cut into any non-empty pieces, with any extensions and trailers, decodes to itself exactly
      if it fits the limit; what the connection carries behind it does not matter. */
  lemma BodyRoundTrip(pieces: seq<Piece>, ext: seq<byte>, trailers: seq<seq<byte>>, rest: seq<byte>, max: nat)
    requires ArePieces(pieces) && IsExtension(ext) && AreTrailers(trailers)
    ensures BodyOf(PrintBody(pieces, ext, trailers) + rest, [], max)
         == if |BodyData(pieces)| <= max then Some(BodyData(pieces)) else None
  {
    hide BodyOf, ParseSizeLine, IsLine, AreTrailers, PrintTrailers, PrintChunks, DataOf, HexPrint, Utf8;
    forall i | 0 <= i < |pieces|
      ensures IsChunk(Cut(pieces)[i])
    {
      HexLine(|pieces[i].data|, pieces[i].ext);
      SizeLineRoundTrip(|pieces[i].data|, pieces[i].ext);
    }
    HexLine(0, ext);
    SizeLineRoundTrip(0, ext);
    var last, tail := HexPrint(0) + ext, PrintTrailers(trailers);
    ChunkedRoundTrip(Cut(pieces), last, trailers, rest, [], max);
    Regroup(PrintChunks(Cut(pieces)), last + CRLF, tail, rest);
    assert [] + DataOf(Cut(pieces)) == DataOf(Cut(pieces));
  }

  lemma Regroup(a: seq<byte>, b: seq<byte>, c: seq<byte>, d: seq<byte>)
    ensures (a + (b + c)) + d == a + (b + (c + d))
  {
  }

  /** The two bytes behind a chunk's data are passed over unread, whatever they are. */
  lemma ChunkEndIsNotChecked(data: seq<byte>, x: byte, y: byte, rest: seq<byte>, body: seq<byte>, max: nat)
    requires data != [] && |data| + 2 < USIZE
    ensures ChunkBody(data + [x, y] + rest, |data|, body, max) == ChunkBody(data + CRLF + rest, |data|, body, max)
  {
    hide BodyOf;
    var s := data + [x, y] + rest;
    assert s[..|data|] == data && s[|data| + 2..] == rest;
    ChunkBodyOfData(data, rest, body, max);
  }
}
