/**
  The read side of a CSTP session: the offer head that precedes the frame stream,
  the read task that turns decoded frames into payloads and control events, and the
  task's cancellation by its peers.

  The network is a list of read outcomes. The claims are that only the byte stream
  those outcomes carry matters, never where one read ends and the next begins.
 */
module Session {
  import opened Bytes
  import opened Wrappers
  import opened Codec

  const MAX_OFFER := 16 * 1024
  const DPD_RESPONSE: byte := 4
  const CRLF_CRLF: seq<byte> := [13, 10, 13, 10]

  // ----- the network -----

  /** One read: some bytes (none means the gateway closed), or an error. */
  datatype ReadOutcome = ReadBytes(chunk: seq<byte>) | ReadError(code: int)

  datatype Close = CleanClose | ErrorClose(code: int)

  /** The bytes a list of reads delivers before the first close, and how it closes. */
  function Stream(net: seq<ReadOutcome>): (s: seq<byte>) {
    if net == [] || net[0].ReadError? || net[0].chunk == [] then []
    else net[0].chunk + Stream(net[1..])
  }

  function Closing(net: seq<ReadOutcome>): (c: Close) {
    if net == [] then CleanClose
    else if net[0].ReadError? then ErrorClose(net[0].code)
    else if net[0].chunk == [] then CleanClose
    else Closing(net[1..])
  }

  // ----- decode outcomes as events -----

  /** Why the read side ended. `text` is the disconnect reason before redaction. */
  datatype EndReason =
    | ServerDisconnect(kind: byte, code: Option<byte>, text: seq<byte>, bodyLen: nat)
    | GatewayClosedStream
    | Io(error: int)
    | CodecFailed(codecError: CodecError)
    | ConsumerDropped

  datatype Event =
    | Payload(data: seq<byte>)
    | ControlEvent(kind: byte, body: seq<byte>)
    | DpdResponse
    | SessionEnded(reason: EndReason)

  function ControlEventForDecode(outcome: DecodeResult): (e: Option<Event>) {
    match outcome
    case Yield(Control(kind, body)) => Some(ControlEvent(kind, body))
    case Fail(UnknownControl(kind)) =>
      Some(if kind == DPD_RESPONSE then DpdResponse else ControlEvent(kind, []))
    case _ => None
  }

  function EndReasonForDecode(outcome: DecodeResult): (r: Option<EndReason>) {
    match outcome
    case Yield(Control(kind, body)) =>
      if kind == 5 || kind == 9 then
        Some(ServerDisconnect(kind, if body == [] then None else Some(body[0]),
                              if body == [] then [] else body[1..], |body|))
      else None
    case Fail(e) => if e.UnknownControl? then None else Some(CodecFailed(e))
    case _ => None
  }

  function EndReasonForRead(close: Close): (r: EndReason) {
    match close
    case CleanClose => GatewayClosedStream
    case ErrorClose(code) => Io(code)
  }

  // ----- what a stream of items means to the session -----

  /** The events of some items, whether they ended the session, and how many payloads
      the consumer still takes before it goes away. */
  datatype Played = Played(events: seq<Event>, ended: bool, accept: nat)

  function OutcomeOf(item: Item): (r: DecodeResult) {
    match item
    case Got(f) => Yield(f)
    case Unknown(kind) => Fail(UnknownControl(kind))
  }

  /** One decode outcome: a payload is delivered while the consumer accepts; anything else
      may raise a control event and may end the session. */
  function OnDecode(outcome: DecodeResult, accept: nat): (p: Played)
    requires !outcome.NoFrame?
  {
    if outcome.Yield? && outcome.frame.Data? then
      if accept == 0 then Played([SessionEnded(ConsumerDropped)], true, 0)
      else Played([Payload(outcome.frame.payload)], false, accept - 1)
    else
      var event := match ControlEventForDecode(outcome) case Some(e) => [e] case None => [];
      match EndReasonForDecode(outcome)
      case Some(reason) => Played(event + [SessionEnded(reason)], true, accept)
      case None => Played(event, false, accept)
  }

  function Play(items: seq<Item>, accept: nat): (p: Played)
    decreases |items|, 0
  {
    if items == [] then Played([], false, accept)
    else Then(OnDecode(OutcomeOf(items[0]), accept), items[1..])
  }

  /** Carry on with more items unless the session has ended. */
  function Then(p: Played, items: seq<Item>): (r: Played)
    decreases |items|, 1
  {
    if p.ended then p
    else var q := Play(items, p.accept); Played(p.events + q.events, q.ended, q.accept)
  }

  lemma {:induction false} PlaySplit(a: seq<Item>, b: seq<Item>, accept: nat)
    ensures Play(a + b, accept) == Then(Play(a, accept), b)
    decreases |a|
  {
    if a == [] {
      assert a + b == b;
    } else {
      assert (a + b)[1..] == a[1..] + b;
      var p := OnDecode(OutcomeOf(a[0]), accept);
      if !p.ended {
        PlaySplit(a[1..], b, p.accept);
        var q := Play(a[1..], p.accept);
        if !q.ended {
          var t := Play(b, q.accept);
          assert (p.events + q.events) + t.events == p.events + (q.events + t.events);
        }
      }
    }
  }

  /** Everything the read side emits for a whole stream. */
  function SessionEvents(stream: seq<byte>, accept: nat, close: Close): (events: seq<Event>) {
    var d := Drain(stream);
    var p := Play(d.items, accept);
    if p.ended then p.events
    else if d.fatal.Some? then p.events + [SessionEnded(CodecFailed(d.fatal.value))]
    else p.events + [SessionEnded(EndReasonForRead(close))]
  }

  // ----- one terminal event, and it is the last -----

  ghost predicate NoEnd(events: seq<Event>) {
    forall i :: 0 <= i < |events| ==> !events[i].SessionEnded?
  }

  ghost predicate EndsOnce(events: seq<Event>) {
    && |events| > 0
    && events[|events| - 1].SessionEnded?
    && NoEnd(events[..|events| - 1])
  }

  lemma {:induction false} PlayEnds(items: seq<Item>, accept: nat)
    ensures var p := Play(items, accept); if p.ended then EndsOnce(p.events) else NoEnd(p.events)
    decreases |items|
  {
    hide OnDecode, NoEnd, EndsOnce;
    if items == [] {
      NothingEnds();
    } else {
      var p := OnDecode(OutcomeOf(items[0]), accept);
      OnDecodeShape(OutcomeOf(items[0]), accept);
      if !p.ended {
        PlayEnds(items[1..], p.accept);
        EndsJoin(p.events, Play(items[1..], p.accept).events);
      }
    }
  }

  lemma NothingEnds()
    ensures NoEnd([])
  {
  }

  lemma EndsJoin(a: seq<Event>, b: seq<Event>)
    requires NoEnd(a)
    ensures NoEnd(b) ==> NoEnd(a + b)
    ensures EndsOnce(b) ==> EndsOnce(a + b)
  {
    if b != [] {
      assert (a + b)[..|a + b| - 1] == a + b[..|b| - 1];
    }
  }

  /** What one outcome sends ends the session with its last event, or not at all. */
  lemma OnDecodeShape(outcome: DecodeResult, accept: nat)
    requires !outcome.NoFrame?
    ensures var p := OnDecode(outcome, accept); if p.ended then EndsOnce(p.events) else NoEnd(p.events)
  {
  }

  lemma SessionEndsOnce(stream: seq<byte>, accept: nat, close: Close)
    ensures EndsOnce(SessionEvents(stream, accept, close))
  {
    var d := Drain(stream);
    PlayEnds(d.items, accept);
    var p := Play(d.items, accept);
    if !p.ended {
      var all := SessionEvents(stream, accept, close);
      assert all[..|all| - 1] == p.events;
    }
  }

  /** An unknown control frame is skipped whole: one event, then the session of the rest. */
  lemma UnknownControlSkipped(kind: byte, body: seq<byte>, pad: byte, rest: seq<byte>, accept: nat, close: Close)
    requires |body| <= MAX_PAYLOAD
    requires kind != TYPE_DATA && !IsDecodableControl(kind)
    ensures SessionEvents(Wire(kind, body, pad) + rest, accept, close)
         == [if kind == DPD_RESPONSE then DpdResponse else ControlEvent(kind, [])]
            + SessionEvents(rest, accept, close)
  {
    hide SessionEvents, DecodeStep, Wire;
    var w := Wire(kind, body, pad);
    AppendNothing(w);
    DecodeStepOfWire(kind, body, pad, []);
    StepEvents(w, rest, accept, close);
    AppendNothing(rest);
  }

  lemma AppendNothing<T>(s: seq<T>)
    ensures s + [] == s && [] + s == s
  {
  }

  // ----- the read task -----

  /** What the task sends for one decode outcome. */
  method Emit(outcome: DecodeResult, accept: nat) returns (events: seq<Event>, ended: bool, left: nat)
    requires !outcome.NoFrame?
    ensures Played(events, ended, left) == OnDecode(outcome, accept)
  {
    events, ended, left := [], false, accept;
    if outcome.Yield? && outcome.frame.Data? {
      if accept == 0 { return [SessionEnded(ConsumerDropped)], true, 0; }
      return [Payload(outcome.frame.payload)], false, accept - 1;
    }
    var event := ControlEventForDecode(outcome);
    if event.Some? { events := events + [event.value]; }
    var reason := EndReasonForDecode(outcome);
    if reason.Some? {
      events := events + [SessionEnded(reason.value)];
      ended := true;
    }
  }

  /** The inner loop: decode and emit until more bytes are needed or the session ends. */
  method EmitDecoded(codec: Decoder, accept: nat, ghost more: seq<byte>, ghost close: Close)
    returns (out: seq<Event>, ended: bool, left: nat)
    modifies codec
    ensures
      var all := SessionEvents(old(codec.buf) + more, accept, close);
      if ended then all == out
      else DecodeStep(codec.buf).NeedMore? && all == out + SessionEvents(codec.buf + more, left, close)
  {
    out, ended, left := [], false, accept;
    ghost var all := SessionEvents(codec.buf + more, accept, close);
    assert [] + all == all;
    while !ended
      invariant if ended then all == out else all == out + SessionEvents(codec.buf + more, left, close)
      decreases !ended, |codec.buf|
    {
      ghost var before := codec.buf;
      var outcome := codec.Decode();
      if outcome.NoFrame? { break; }
      StepFrom(all, out, before, more, left, close);
      var events;
      events, ended, left := Emit(outcome, left);
      out := out + events;
    }
  }

  /** The read task: emit what is decoded, read, feed, repeat, until something ends the session. */
  method ReadTask(remainder: seq<byte>, net: seq<ReadOutcome>, accept: nat) returns (out: seq<Event>)
    ensures out == SessionEvents(remainder + Stream(net), accept, Closing(net))
  {
    hide SessionEvents, DecodeStep;
    var codec := new Decoder();
    codec.Feed(remainder);
    out := [];
    var left, ended, i := accept, false, 0;
    ghost var goal := SessionEvents(remainder + Stream(net), accept, Closing(net));
    assert net[0..] == net && [] + goal == goal && codec.buf == remainder;
    while !ended
      invariant 0 <= i <= |net|
      invariant if ended then goal == out
                else goal == out + SessionEvents(codec.buf + Stream(net[i..]), left, Closing(net[i..]))
      decreases !ended, |net| - i
    {
      var events;
      events, ended, left := EmitDecoded(codec, left, Stream(net[i..]), Closing(net[i..]));
      if !ended {
        assert (out + events) + SessionEvents(codec.buf + Stream(net[i..]), left, Closing(net[i..])) == goal;
      }
      out := out + events;
      if !ended {
        ReadEvents(codec.buf, net[i..], left);
        var read := if i < |net| then net[i] else ReadBytes([]);
        var reason := EndReasonForReadOutcome(read);
        if reason.Some? {
          out := out + [SessionEnded(reason.value)];
          ended := true;
        } else {
          assert net[i..][1..] == net[i + 1..];
          codec.Feed(read.chunk);
          i := i + 1;
        }
      }
    }
  }

  /** A read that brings bytes continues the session; a close or an error ends it. */
  function EndReasonForReadOutcome(read: ReadOutcome): (r: Option<EndReason>) {
    match read
    case ReadBytes(chunk) => if chunk == [] then Some(GatewayClosedStream) else None
    case ReadError(code) => Some(Io(code))
  }

  /** What one decode contributes to the session, with `more` bytes still to come. */
  lemma StepEvents(buf: seq<byte>, more: seq<byte>, accept: nat, close: Close)
    requires !DecodeStep(buf).NeedMore?
    ensures
      var s := DecodeStep(buf);
      var p := OnDecode(if s.Decoded? then Yield(s.frame) else Fail(s.error), accept);
      var all := SessionEvents(buf + more, accept, close);
      if p.ended then all == p.events
      else all == p.events + SessionEvents(s.rest + more, p.accept, close)
  {
    hide DecodeStep;
    DecodeStepExtends(buf, more);
    var s := DecodeStep(buf);
    if s.Decoded? || s.error.UnknownControl? {
      var item := if s.Decoded? then Got(s.frame) else Unknown(s.error.unknown);
      var d := Drain(s.rest + more);
      assert Drain(buf + more) == Prepend(item, d);
      assert ([item] + d.items)[1..] == d.items;
      var p := OnDecode(OutcomeOf(item), accept);
      assert Play([item] + d.items, accept) == Then(p, d.items);
      if !p.ended {
        var q := Play(d.items, p.accept);
        var last := SessionEnded(if d.fatal.Some? then CodecFailed(d.fatal.value) else EndReasonForRead(close));
        assert (p.events + q.events) + [last] == p.events + (q.events + [last]);
      }
    }
  }

  /** The same, after some events have been sent. */
  lemma StepFrom(all: seq<Event>, out: seq<Event>, buf: seq<byte>, more: seq<byte>, accept: nat, close: Close)
    requires !DecodeStep(buf).NeedMore?
    requires all == out + SessionEvents(buf + more, accept, close)
    ensures
      var s := DecodeStep(buf);
      var p := OnDecode(if s.Decoded? then Yield(s.frame) else Fail(s.error), accept);
      if p.ended then all == out + p.events
      else all == (out + p.events) + SessionEvents(s.rest + more, p.accept, close)
  {
    hide SessionEvents, DecodeStep, OnDecode;
    StepEvents(buf, more, accept, close);
    var s := DecodeStep(buf);
    var p := OnDecode(if s.Decoded? then Yield(s.frame) else Fail(s.error), accept);
    if !p.ended {
      Regroup(out, p.events, SessionEvents(s.rest + more, p.accept, close));
    }
  }

  /** What waiting for a read contributes: the close reason, or the chunk joining the buffer. */
  lemma ReadEvents(buf: seq<byte>, net: seq<ReadOutcome>, accept: nat)
    requires DecodeStep(buf).NeedMore?
    ensures
      var all := SessionEvents(buf + Stream(net), accept, Closing(net));
      if net == [] || net[0].ReadError? || net[0].chunk == [] then
        all == [SessionEnded(EndReasonForRead(Closing(net)))]
      else
        all == SessionEvents((buf + net[0].chunk) + Stream(net[1..]), accept, Closing(net[1..]))
  {
    if net == [] || net[0].ReadError? || net[0].chunk == [] {
      assert buf + Stream(net) == buf;
    } else {
      assert buf + Stream(net) == (buf + net[0].chunk) + Stream(net[1..]);
    }
  }

  // ----- from the gateway's frames to the client's events -----

  /** Frames that do not end a session: data, and control other than the two disconnects. */
  predicate Ordinary(f: Frame) {
    Encodable(f) && (f.Control? ==> f.kind != 5 && f.kind != 9)
  }

  ghost predicate AllOrdinary(frames: seq<Frame>) {
    forall i :: 0 <= i < |frames| ==> Ordinary(frames[i])
  }

  function EventOf(f: Frame): Event {
    match f
    case Data(payload) => Payload(payload)
    case Control(kind, body) => ControlEvent(kind, body)
  }

  function EventsOf(frames: seq<Frame>): seq<Event> {
    if frames == [] then [] else [EventOf(frames[0])] + EventsOf(frames[1..])
  }

  function DataCount(frames: seq<Frame>): nat {
    if frames == [] then 0 else (if frames[0].Data? then 1 else 0) + DataCount(frames[1..])
  }

  lemma FrameDelivered(f: Frame, rest: seq<byte>, accept: nat, close: Close)
    requires Ordinary(f) && (f.Data? ==> accept > 0)
    ensures SessionEvents(Encode(f).value + rest, accept, close)
         == [EventOf(f)] + SessionEvents(rest, if f.Data? then accept - 1 else accept, close)
  {
    hide SessionEvents, DecodeStep, Encode;
    EncodableIff(f);
    var w := Encode(f).value;
    StepEvents(w, rest, accept, close);
    AppendNothing(rest);
  }

  lemma Regroup<T>(a: seq<T>, b: seq<T>, c: seq<T>)
    ensures (a + b) + c == a + (b + c)
  {
  }

  /** While the consumer takes them, the frames a gateway sends come out as their payloads and control
      events, one each and in order, and the session goes on with the bytes behind them. */
  lemma {:induction false} FramesDelivered(frames: seq<Frame>, rest: seq<byte>, accept: nat, close: Close)
    requires AllOrdinary(frames) && DataCount(frames) <= accept
    ensures AllEncodable(frames)
    ensures SessionEvents(EncodeAll(frames) + rest, accept, close)
         == EventsOf(frames) + SessionEvents(rest, accept - DataCount(frames), close)
    decreases |frames|
  {
    hide SessionEvents, Encode;
    if frames == [] {
      AppendNothing(rest);
      AppendNothing(SessionEvents(rest, accept, close));
    } else {
      var f := frames[0];
      var left := if f.Data? then accept - 1 else accept;
      FramesDelivered(frames[1..], rest, left, close);
      var more := EncodeAll(frames[1..]) + rest;
      EncodableIff(f);
      FrameDelivered(f, more, accept, close);
      Regroup(Encode(f).value, EncodeAll(frames[1..]), rest);
      Regroup([EventOf(f)], EventsOf(frames[1..]), SessionEvents(rest, accept - DataCount(frames), close));
    }
  }

  /** A disconnect frame ends the session with its code and reason, and nothing behind it is looked at. */
  lemma DisconnectEnds(frames: seq<Frame>, kind: byte, body: seq<byte>, tail: seq<byte>, accept: nat, close: Close)
    requires AllOrdinary(frames) && DataCount(frames) <= accept
    requires (kind == 5 || kind == 9) && |body| <= MAX_PAYLOAD
    ensures AllEncodable(frames)
    ensures SessionEvents(EncodeAll(frames) + (Wire(kind, body, 0) + tail), accept, close)
         == EventsOf(frames)
            + [ControlEvent(kind, body),
               SessionEnded(ServerDisconnect(kind, if body == [] then None else Some(body[0]), if body == [] then [] else body[1..], |body|))]
  {
    hide SessionEvents, Wire, EncodeAll, EventsOf;
    FramesDelivered(frames, Wire(kind, body, 0) + tail, accept, close);
    DisconnectAlone(kind, body, tail, accept - DataCount(frames), close);
  }

  lemma DisconnectAlone(kind: byte, body: seq<byte>, tail: seq<byte>, accept: nat, close: Close)
    requires (kind == 5 || kind == 9) && |body| <= MAX_PAYLOAD
    ensures SessionEvents(Wire(kind, body, 0) + tail, accept, close)
         == [ControlEvent(kind, body),
             SessionEnded(ServerDisconnect(kind, if body == [] then None else Some(body[0]), if body == [] then [] else body[1..], |body|))]
  {
    hide SessionEvents, DecodeStep, Wire;
    var w := Wire(kind, body, 0);
    AppendNothing(w);
    DecodeStepOfWire(kind, body, 0, []);
    StepEvents(w, tail, accept, close);
    var r := ServerDisconnect(kind, if body == [] then None else Some(body[0]), if body == [] then [] else body[1..], |body|);
    assert OnDecode(Yield(Control(kind, body)), accept) == Played([ControlEvent(kind, body)] + [SessionEnded(r)], true, accept);
  }

  /** The whole session of a gateway that sends some frames and then closes. */
  lemma GatewaySession(frames: seq<Frame>, accept: nat, close: Close)
    requires AllOrdinary(frames) && DataCount(frames) <= accept
    ensures AllEncodable(frames)
    ensures SessionEvents(EncodeAll(frames), accept, close)
         == EventsOf(frames) + [SessionEnded(match close case CleanClose => GatewayClosedStream case ErrorClose(code) => Io(code))]
  {
    hide SessionEvents, EventsOf, EncodeAll, Ordinary, DataCount, AllOrdinary, AllEncodable;
    NothingSent(accept - DataCount(frames), close);
    FramesDelivered(frames, [], accept, close);
    AppendNothing(EncodeAll(frames));
  }

  lemma NothingSent(accept: nat, close: Close)
    ensures SessionEvents([], accept, close)
         == [SessionEnded(match close case CleanClose => GatewayClosedStream case ErrorClose(code) => Io(code))]
  {
  }

  /** A stream that stops making sense behind some frames ends the session with the codec's error, and
      nothing behind that point is looked at. */
  lemma CodecFailureEnds(frames: seq<Frame>, bad: seq<byte>, tail: seq<byte>, accept: nat, close: Close)
    requires AllOrdinary(frames) && DataCount(frames) <= accept
    requires DecodeStep(bad).Rejected? && !DecodeStep(bad).error.UnknownControl?
    ensures AllEncodable(frames)
    ensures SessionEvents(EncodeAll(frames) + (bad + tail), accept, close)
         == EventsOf(frames) + [SessionEnded(CodecFailed(DecodeStep(bad).error))]
  {
    hide SessionEvents, DecodeStep, EncodeAll, EventsOf;
    FramesDelivered(frames, bad + tail, accept, close);
    StepEvents(bad, tail, accept - DataCount(frames), close);
  }

  /** The first payload the consumer no longer takes ends the session: it is not delivered, and neither is
      anything behind it. */
  lemma ConsumerGoneEnds(frames: seq<Frame>, payload: seq<byte>, tail: seq<byte>, accept: nat, close: Close)
    requires AllOrdinary(frames) && DataCount(frames) == accept
    requires Encodable(Data(payload))
    ensures AllEncodable(frames)
    ensures SessionEvents(EncodeAll(frames) + (Encode(Data(payload)).value + tail), accept, close)
         == EventsOf(frames) + [SessionEnded(ConsumerDropped)]
  {
    hide SessionEvents, DecodeStep, Encode, EncodeAll, EventsOf;
    EncodableIff(Data(payload));
    var w := Encode(Data(payload)).value;
    FramesDelivered(frames, w + tail, accept, close);
    StepEvents(w, tail, 0, close);
  }

  /** A close in the middle of a frame is a close: the incomplete frame is dropped and not reported. */
  lemma CutFrameIsDropped(frames: seq<Frame>, cut: seq<byte>, accept: nat, close: Close)
    requires AllOrdinary(frames) && DataCount(frames) <= accept
    requires DecodeStep(cut).NeedMore?
    ensures AllEncodable(frames)
    ensures SessionEvents(EncodeAll(frames) + cut, accept, close) == SessionEvents(EncodeAll(frames), accept, close)
  {
    hide SessionEvents, DecodeStep, EncodeAll, EventsOf, DataCount, AllOrdinary, AllEncodable;
    CutAlone(cut, accept - DataCount(frames), close);
    FramesDelivered(frames, cut, accept, close);
    FramesDelivered(frames, [], accept, close);
    AppendNothing(EncodeAll(frames));
  }

  lemma CutAlone(cut: seq<byte>, accept: nat, close: Close)
    requires DecodeStep(cut).NeedMore?
    ensures SessionEvents(cut, accept, close) == SessionEvents([], accept, close)
  {
  }
}
