/**
  The streaming CSTP frame codec. A frame on the wire is an eight-byte STF header
  (magic, version, big-endian length, packet type, one byte that decoding ignores)
  followed by the body.

  `Wire` is the grammar, `DecodeStep` is what one call of `decode` does to the
  buffer, and `Drain` is what calling it until it asks for more bytes does.
 */
module Codec {
  import opened Bytes
  import opened Wrappers

  const HEADER_LEN := 8
  const MAX_PAYLOAD := 4096
  const STF_MAGIC: seq<byte> := [0x53, 0x54, 0x46]
  const STF_VERSION: byte := 1
  const TYPE_DATA: byte := 0
  const TYPE_KEEPALIVE: byte := 7

  datatype Frame = Data(payload: seq<byte>) | Control(kind: byte, body: seq<byte>)

  datatype CodecError =
    | ShortHeader
    | BadMagic
    | BadLength
    | OversizePayload(declared: nat, limit: nat)
    | UnknownControl(unknown: byte)
    | Truncated
    | Ipv6NotSupported

  /** What one decode does: ask for more bytes, yield a frame, or reject; `rest` is the buffer it leaves. */
  datatype Step =
    | NeedMore
    | Decoded(frame: Frame, rest: seq<byte>)
    | Rejected(error: CodecError, rest: seq<byte>)

  predicate IsDecodableControl(kind: byte) {
    kind == TYPE_KEEPALIVE || kind == 5 || kind == 9
  }

  // ----- the grammar -----

  function Header(kind: byte, len: nat, pad: byte): (h: seq<byte>)
    requires len < 0x1_0000
    ensures |h| == HEADER_LEN
  {
    STF_MAGIC + [STF_VERSION] + [len / 256, len % 256] + [kind, pad]
  }

  /** The bytes of one frame; `pad` is the eighth header byte. */
  function Wire(kind: byte, body: seq<byte>, pad: byte): (w: seq<byte>)
    requires |body| <= MAX_PAYLOAD
    ensures |w| == HEADER_LEN + |body|
  {
    Header(kind, |body|, pad) + body
  }

  /** What a complete frame of a packet type means. */
  function Classify(kind: byte, body: seq<byte>, rest: seq<byte>): (s: Step) {
    if kind == TYPE_DATA then
      if body == [] then Rejected(BadLength, rest) else Decoded(Data(body), rest)
    else if IsDecodableControl(kind) then
      Decoded(Control(kind, body), rest)
    else
      Rejected(UnknownControl(kind), rest)
  }

  /** The big-endian length field. */
  function U16(hi: byte, lo: byte): (v: nat) {
    (hi as int) * 256 + lo as int
  }

  /** The body length a header declares, or why the header is refused. */
  function DeclaredLength(h: seq<byte>): (r: Result<nat, CodecError>)
    requires |h| == HEADER_LEN
    ensures r.Ok? ==> r.value <= MAX_PAYLOAD
    ensures r.Err? ==> r.error.BadMagic? || r.error.OversizePayload?
  {
    if h[..4] != STF_MAGIC + [STF_VERSION] then Err(BadMagic)
    else
      var declared := U16(h[4], h[5]);
      if declared > MAX_PAYLOAD then Err(OversizePayload(declared, MAX_PAYLOAD)) else Ok(declared)
  }

  // ----- one decode -----

  function DecodeStep(buf: seq<byte>): (s: Step)
    ensures s.Decoded? ==> |s.rest| + HEADER_LEN <= |buf|
    ensures s.Rejected? && s.error.UnknownControl? ==> |s.rest| + HEADER_LEN <= |buf|
  {
    if |buf| < HEADER_LEN then NeedMore
    else
      match DeclaredLength(buf[..HEADER_LEN])
      case Err(e) => Rejected(e, buf)
      case Ok(declared) =>
        if |buf| < HEADER_LEN + declared then NeedMore
        else Classify(buf[6], buf[HEADER_LEN..HEADER_LEN + declared], buf[HEADER_LEN + declared..])
  }

  /** Decoding inverts the grammar: a whole frame is taken off the front and means what its type says. */
  lemma DecodeStepOfWire(kind: byte, body: seq<byte>, pad: byte, rest: seq<byte>)
    requires |body| <= MAX_PAYLOAD
    ensures DecodeStep(Wire(kind, body, pad) + rest) == Classify(kind, body, rest)
  {
    var buf := Wire(kind, body, pad) + rest;
    assert buf[..HEADER_LEN] == Header(kind, |body|, pad);
    assert Header(kind, |body|, pad)[..4] == STF_MAGIC + [STF_VERSION];
    assert buf[HEADER_LEN..HEADER_LEN + |body|] == body;
    assert buf[HEADER_LEN + |body|..] == rest;
  }

  /** Only frames of the grammar are taken off the buffer. */
  lemma DecodeStepIsWire(buf: seq<byte>) returns (kind: byte, body: seq<byte>, pad: byte, rest: seq<byte>)
    requires
      var s := DecodeStep(buf);
      s.Decoded? || (s.Rejected? && (s.error.BadLength? || s.error.UnknownControl?))
    ensures |body| <= MAX_PAYLOAD
    ensures buf == Wire(kind, body, pad) + rest
    ensures DecodeStep(buf) == Classify(kind, body, rest)
  {
    var declared := U16(buf[4], buf[5]);
    kind, pad := buf[6], buf[7];
    body, rest := buf[HEADER_LEN..HEADER_LEN + declared], buf[HEADER_LEN + declared..];
    HeaderIs(buf[..HEADER_LEN]);
    FrontAndRest(buf, HEADER_LEN, declared);
  }

  lemma HeaderIs(h: seq<byte>)
    requires |h| == HEADER_LEN && h[..4] == STF_MAGIC + [STF_VERSION]
    ensures h == Header(h[6], U16(h[4], h[5]), h[7])
  {
    assert h == h[..4] + [h[4], h[5]] + [h[6], h[7]];
  }

  lemma FrontAndRest<T>(s: seq<T>, a: nat, b: nat)
    requires a + b <= |s|
    ensures s == s[..a] + s[a..a + b] + s[a + b..]
  {
  }

  /** The layout of a frame, byte by byte. */
  lemma FrameBytes(kind: byte, body: seq<byte>, pad: byte)
    requires |body| <= MAX_PAYLOAD
    ensures Wire(kind, body, pad) == [0x53, 0x54, 0x46, 1, |body| / 256, |body| % 256, kind, pad] + body
  {
  }

  /** What each packet type decodes to: data unless it is empty, three kinds of control, and nothing else. */
  lemma FrameMeaning(kind: byte, body: seq<byte>, pad: byte, rest: seq<byte>)
    requires |body| <= MAX_PAYLOAD
    ensures
      var s := DecodeStep([0x53, 0x54, 0x46, 1, |body| / 256, |body| % 256, kind, pad] + body + rest);
      && (s == Decoded(Data(body), rest) <==> kind == 0 && body != [])
      && (s == Rejected(BadLength, rest) <==> kind == 0 && body == [])
      && (s == Decoded(Control(kind, body), rest) <==> kind in {5, 7, 9})
      && (s == Rejected(UnknownControl(kind), rest) <==> kind !in {0, 5, 7, 9})
  {
    hide DecodeStep;
    FrameBytes(kind, body, pad);
    DecodeStepOfWire(kind, body, pad, rest);
  }

  /** The buffer starts with a header that declares `len` bytes, whether or not they are allowed. */
  ghost predicate StartsFrame(buf: seq<byte>, kind: byte, len: nat, pad: byte) {
    && HEADER_LEN <= |buf| && len < 0x1_0000
    && buf[..HEADER_LEN] == [0x53, 0x54, 0x46, 1, len / 256, len % 256, kind, pad]
  }

  /** A header is found exactly when the first four bytes are right, and it declares one length. */
  lemma HeaderFound(buf: seq<byte>)
    requires HEADER_LEN <= |buf|
    ensures buf[..4] == [0x53, 0x54, 0x46, 1] ==> StartsFrame(buf, buf[6], U16(buf[4], buf[5]), buf[7])
    ensures forall kind, len: nat, pad :: StartsFrame(buf, kind, len, pad) ==>
              buf[..4] == [0x53, 0x54, 0x46, 1] && len == U16(buf[4], buf[5])
  {
    if buf[..4] == [0x53, 0x54, 0x46, 1] {
      var len := U16(buf[4], buf[5]);
      assert len / 256 == buf[4] && len % 256 == buf[5];
      assert buf[..HEADER_LEN] == buf[..4] + [buf[4], buf[5], buf[6], buf[7]];
    }
    forall kind, len: nat, pad | StartsFrame(buf, kind, len, pad)
      ensures buf[..4] == [0x53, 0x54, 0x46, 1] && len == U16(buf[4], buf[5])
    {
      assert buf[..4] == buf[..HEADER_LEN][..4];
      assert buf[4] == buf[..HEADER_LEN][4] && buf[5] == buf[..HEADER_LEN][5];
    }
  }

  /** On any bytes at all: decoding waits exactly while a header or the body it declares is incomplete,
      refuses the stream exactly when no header is there, and refuses a length exactly when it is too big,
      in the last two cases leaving the buffer alone. */
  lemma DecodeVerdict(buf: seq<byte>, declared: nat)
    ensures DecodeStep(buf).NeedMore? <==>
            |buf| < 8 || exists kind, len: nat, pad :: StartsFrame(buf, kind, len, pad) && len <= 4096 && |buf| < 8 + len
    ensures DecodeStep(buf) == Rejected(BadMagic, buf) <==>
            8 <= |buf| && forall kind, len: nat, pad :: !StartsFrame(buf, kind, len, pad)
    ensures DecodeStep(buf) == Rejected(OversizePayload(declared, 4096), buf) <==>
            4096 < declared && exists kind, pad :: StartsFrame(buf, kind, declared, pad)
  {
    if HEADER_LEN <= |buf| {
      HeaderFound(buf);
      assert buf[..HEADER_LEN][..4] == buf[..4];
      assert STF_MAGIC + [STF_VERSION] == [0x53, 0x54, 0x46, 1];
    }
  }

  /** A verdict on a buffer is not changed by bytes that arrive later. */
  lemma DecodeStepExtends(a: seq<byte>, b: seq<byte>)
    requires !DecodeStep(a).NeedMore?
    ensures
      match DecodeStep(a)
      case Decoded(f, rest) => DecodeStep(a + b) == Decoded(f, rest + b)
      case Rejected(e, rest) => DecodeStep(a + b) == Rejected(e, rest + b)
      case NeedMore => true
  {
    var c := a + b;
    assert c[..HEADER_LEN] == a[..HEADER_LEN];
    var r := DeclaredLength(a[..HEADER_LEN]);
    if r.Ok? {
      var total := HEADER_LEN + r.value;
      assert c[HEADER_LEN..total] == a[HEADER_LEN..total];
      assert c[total..] == a[total..] + b;
    }
  }

  /** A buffer that waits for more bytes holds less than one maximal frame. */
  lemma ResidueBound(buf: seq<byte>)
    requires DecodeStep(buf).NeedMore?
    ensures |buf| <= HEADER_LEN + MAX_PAYLOAD - 1
  {
  }

  // ----- decoding until more bytes are needed -----

  /** A frame, or an unknown control packet whose body was dropped. */
  datatype Item = Got(frame: Frame) | Unknown(kind: byte)

  /** The items taken off, the bytes left, and the error that stopped decoding for good, if any. */
  datatype Drained = Drained(items: seq<Item>, rest: seq<byte>, fatal: Option<CodecError>)

  function Drain(buf: seq<byte>): (d: Drained)
    ensures d.fatal.None? ==> DecodeStep(d.rest).NeedMore?
    decreases |buf|
  {
    match DecodeStep(buf)
    case NeedMore => Drained([], buf, None)
    case Decoded(f, rest) => Prepend(Got(f), Drain(rest))
    case Rejected(e, rest) =>
      if e.UnknownControl? then Prepend(Unknown(e.unknown), Drain(rest))
      else Drained([], rest, Some(e))
  }

  function Prepend(item: Item, d: Drained): Drained {
    Drained([item] + d.items, d.rest, d.fatal)
  }

  /** Feeding b after a has been drained gives what draining a + b at once gives. */
  lemma {:induction false} DrainSplit(a: seq<byte>, b: seq<byte>)
    ensures
      var d := Drain(a);
      if d.fatal.Some? then
        Drain(a + b) == Drained(d.items, d.rest + b, d.fatal)
      else
        var e := Drain(d.rest + b);
        Drain(a + b) == Drained(d.items + e.items, e.rest, e.fatal)
    decreases |a|
  {
    var s := DecodeStep(a);
    if !s.NeedMore? {
      DecodeStepExtends(a, b);
      if s.Decoded? || s.error.UnknownControl? {
        DrainSplit(s.rest, b);
        var item := if s.Decoded? then Got(s.frame) else Unknown(s.error.unknown);
        var d, t := Drain(s.rest), Drain(s.rest + b);
        assert Drain(a) == Prepend(item, d);
        assert Drain(a + b) == Prepend(item, t);
        if d.fatal.None? {
          var e := Drain(d.rest + b);
          assert [item] + (d.items + e.items) == ([item] + d.items) + e.items;
        }
      }
    }
  }

  // ----- encoding -----

  function EncodeRaw(kind: byte, payload: seq<byte>): (r: Result<seq<byte>, CodecError>) {
    if |payload| > MAX_PAYLOAD then Err(OversizePayload(|payload|, MAX_PAYLOAD))
    else Ok(Wire(kind, payload, 0))
  }

  function Encode(frame: Frame): (r: Result<seq<byte>, CodecError>) {
    match frame
    case Data(payload) =>
      if payload != [] && payload[0] / 16 == 6 then Err(Ipv6NotSupported)
      else EncodeRaw(TYPE_DATA, payload)
    case Control(kind, body) => EncodeRaw(kind, body)
  }

  /** The frames that survive a round trip: what `Encode` accepts and decoding does not reject. */
  predicate Encodable(frame: Frame) {
    match frame
    case Data(payload) => 0 < |payload| <= MAX_PAYLOAD && payload[0] / 16 != 6
    case Control(kind, body) => IsDecodableControl(kind) && |body| <= MAX_PAYLOAD
  }

  ghost predicate AllEncodable(frames: seq<Frame>) {
    forall i :: 0 <= i < |frames| ==> Encodable(frames[i])
  }

  ghost function EncodeAll(frames: seq<Frame>): (s: seq<byte>)
    requires AllEncodable(frames)
  {
    if frames == [] then [] else Encode(frames[0]).value + EncodeAll(frames[1..])
  }

  function Items(frames: seq<Frame>): (items: seq<Item>)
    ensures |items| == |frames|
  {
    seq(|frames|, i requires 0 <= i < |frames| => Got(frames[i]))
  }

  lemma {:induction false} DrainOfEncodeAll(frames: seq<Frame>)
    requires AllEncodable(frames)
    ensures Drain(EncodeAll(frames)) == Drained(Items(frames), [], None)
  {
    hide DecodeStep, Encode, Encodable;
    if frames == [] {
      NothingDrains();
    } else {
      var f, rest := frames[0], EncodeAll(frames[1..]);
      DrainOfEncodeAll(frames[1..]);
      DecodeStepOfEncode(f, rest);
      ItemsCons(frames);
    }
  }

  lemma NothingDrains()
    ensures Drain([]) == Drained([], [], None) && Items([]) == []
  {
  }

  lemma ItemsCons(frames: seq<Frame>)
    requires frames != []
    ensures Items(frames) == [Got(frames[0])] + Items(frames[1..])
  {
  }

  /** An encodable frame in front of any bytes decodes to itself. */
  lemma DecodeStepOfEncode(f: Frame, rest: seq<byte>)
    requires Encodable(f)
    ensures Encode(f).Ok? && DecodeStep(Encode(f).value + rest) == Decoded(f, rest)
  {
    hide DecodeStep, Wire;
    match f
    case Data(payload) => DecodeStepOfWire(TYPE_DATA, payload, 0, rest);
    case Control(kind, body) => DecodeStepOfWire(kind, body, 0, rest);
  }

  /** `Encode` then decode is the identity exactly on the encodable frames. */
  lemma EncodableIff(frame: Frame)
    ensures Encodable(frame) <==>
            Encode(frame).Ok? && DecodeStep(Encode(frame).value) == Decoded(frame, [])
  {
    if Encode(frame).Ok? {
      var w := Encode(frame).value;
      assert w + [] == w;
      match frame {
        case Data(payload) => DecodeStepOfWire(TYPE_DATA, payload, 0, []);
        case Control(kind, body) => DecodeStepOfWire(kind, body, 0, []);
      }
    }
  }

  // ----- the decoder object -----

  datatype DecodeResult = NoFrame | Yield(frame: Frame) | Fail(error: CodecError)

  class Decoder {
    var buf: seq<byte>

    constructor ()
      ensures buf == []
    {
      buf := [];
    }

    method Feed(chunk: seq<byte>)
      modifies this
      ensures buf == old(buf) + chunk
    {
      buf := buf + chunk;
    }

    /** One decode: the verdict and the bytes left are those of `DecodeStep`. */
    method Decode() returns (r: DecodeResult)
      modifies this
      ensures
        match DecodeStep(old(buf))
        case NeedMore => r == NoFrame && buf == old(buf)
        case Decoded(f, rest) => r == Yield(f) && buf == rest
        case Rejected(e, rest) => r == Fail(e) && buf == rest
    {
      if |buf| < HEADER_LEN { return NoFrame; }
      assert buf[..HEADER_LEN][..4] == buf[0..3] + [buf[3]];
      if buf[0..3] != STF_MAGIC || buf[3] != STF_VERSION { return Fail(BadMagic); }
      var declared, packetType := U16(buf[4], buf[5]), buf[6];
      if declared > MAX_PAYLOAD { return Fail(OversizePayload(declared, MAX_PAYLOAD)); }
      var total := HEADER_LEN + declared;
      if |buf| < total { return NoFrame; }
      var payload := buf[HEADER_LEN..total];
      buf := buf[total..];
      if packetType == TYPE_DATA {
        if payload == [] { return Fail(BadLength); }
        return Yield(Data(payload));
      }
      if packetType == TYPE_KEEPALIVE || packetType == 5 || packetType == 9 {
        return Yield(Control(packetType, payload));
      }
      return Fail(UnknownControl(packetType));
    }

    method Finish() returns (r: Result<(), CodecError>)
      ensures r.Ok? <==> buf == []
      ensures r.Err? ==> r.error == if |buf| < HEADER_LEN then ShortHeader else Truncated
    {
      if buf == [] { return Ok(()); }
      if |buf| < HEADER_LEN { return Err(ShortHeader); }
      return Err(Truncated);
    }
  }

  /** `encode_raw` builds the frame by appending to a buffer. */
  method EncodeRawInto(kind: byte, payload: seq<byte>) returns (r: Result<seq<byte>, CodecError>)
    ensures r == EncodeRaw(kind, payload)
  {
    if |payload| > MAX_PAYLOAD { return Err(OversizePayload(|payload|, MAX_PAYLOAD)); }
    var out: seq<byte> := STF_MAGIC;
    out := out + [STF_VERSION];
    out := out + [|payload| / 256];
    out := out + [|payload| % 256];
    out := out + [kind];
    out := out + [0];
    out := out + payload;
    assert out[..HEADER_LEN] == Header(kind, |payload|, 0);
    return Ok(out);
  }

  /** Feed each chunk and decode until more bytes are needed, as a reader of the stream does. */
  method DecodeChunks(chunks: seq<seq<byte>>)
    returns (items: seq<Item>, fatal: Option<CodecError>, finish: Result<(), CodecError>)
    ensures var d := Drain(Concat(chunks)); items == d.items && fatal == d.fatal
    ensures fatal.None? ==>
              var rest := Drain(Concat(chunks)).rest;
              && |rest| <= HEADER_LEN + MAX_PAYLOAD - 1
              && (finish.Ok? <==> rest == [])
    // the round trip: however the encoding of a list of frames is cut, that list comes out
    ensures forall frames: seq<Frame> |
              AllEncodable(frames) && Concat(chunks) == EncodeAll(frames)
              :: items == Items(frames) && fatal == None && finish.Ok?
  {
    var codec := new Decoder();
    items, fatal := [], None;
    ghost var fed: seq<byte> := [];
    var i := 0;
    while i < |chunks| && fatal.None?
      invariant 0 <= i <= |chunks|
      invariant fatal.None? ==> fed == Concat(chunks[..i])
      invariant fatal.None? ==> Drain(fed) == Drained(items, codec.buf, None)
      invariant fatal.Some? ==> Drain(Concat(chunks)).items == items && Drain(Concat(chunks)).fatal == fatal
    {
      codec.Feed(chunks[i]);
      DrainSplit(fed, chunks[i]);
      SplitAt(chunks, i);
      fed := fed + chunks[i];
      var more: seq<Item>;
      more, fatal := DrainInto(codec);
      items := items + more;
      if fatal.Some? {
        DrainSplit(fed, Concat(chunks[i + 1..]));
      }
      i := i + 1;
    }
    if fatal.None? {
      assert chunks[..|chunks|] == chunks;
      ResidueBound(codec.buf);
    }
    finish := codec.Finish();
    forall frames: seq<Frame> |
      AllEncodable(frames) && Concat(chunks) == EncodeAll(frames)
      ensures items == Items(frames) && fatal == None && finish.Ok?
    {
      DrainOfEncodeAll(frames);
    }
  }

  lemma SplitAt(chunks: seq<seq<byte>>, i: nat)
    requires i < |chunks|
    ensures Concat(chunks[..i]) + chunks[i] == Concat(chunks[..i + 1])
    ensures Concat(chunks[..i + 1]) + Concat(chunks[i + 1..]) == Concat(chunks)
  {
    hide Concat;
    TakeNext(chunks, i);
    ConcatOne(chunks[i]);
    ConcatAppend(chunks[..i], [chunks[i]]);
    ConcatAppend(chunks[..i + 1], chunks[i + 1..]);
  }

  /** The inner decode loop. */
  method DrainInto(codec: Decoder) returns (items: seq<Item>, fatal: Option<CodecError>)
    modifies codec
    ensures Drain(old(codec.buf)) == Drained(items, codec.buf, fatal)
  {
    hide DecodeStep;
    items, fatal := [], None;
    var before := codec.buf;
    while true
      invariant var d := Drain(codec.buf); Drain(before) == Drained(items + d.items, d.rest, d.fatal)
      decreases |codec.buf|
    {
      ghost var start := codec.buf;
      ghost var tail := Drain(start);
      var r := codec.Decode();
      match r {
        case NoFrame =>
          assert items + [] == items;
          return;
        case Yield(f) =>
          assert tail == Prepend(Got(f), Drain(codec.buf));
          assert items + tail.items == (items + [Got(f)]) + Drain(codec.buf).items;
          items := items + [Got(f)];
        case Fail(e) =>
          if e.UnknownControl? {
            assert tail == Prepend(Unknown(e.unknown), Drain(codec.buf));
            assert items + tail.items == (items + [Unknown(e.unknown)]) + Drain(codec.buf).items;
            items := items + [Unknown(e.unknown)];
          } else {
            assert items + [] == items;
            return items, Some(e);
          }
      }
    }
  }
}
