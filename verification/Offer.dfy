/**
  The offer head that opens a session: bytes up to the first blank line, read in
  chunks of at most 512 bytes, with everything after it handed to the read task.
 */
module Offer {
  import opened Bytes
  import opened Wrappers
  import opened Session

  const OFFER_READ := 512

  // ----- finding the terminator -----

  predicate TerminatorAt(s: seq<byte>, p: nat) {
    p + 4 <= |s| && s[p..p + 4] == CRLF_CRLF
  }

  /** The offset just past the first blank line at or after `from`. */
  function HeaderEndFrom(s: seq<byte>, from: nat): (r: Option<nat>)
    ensures r.Some? ==> from + 4 <= r.value <= |s|
    decreases |s| - from
  {
    if from + 4 > |s| then None
    else if s[from..from + 4] == CRLF_CRLF then Some(from + 4)
    else HeaderEndFrom(s, from + 1)
  }

  function HeaderEnd(s: seq<byte>): (r: Option<nat>) {
    HeaderEndFrom(s, 0)
  }

  /** It is the first: a terminator ends there, none ends earlier, and none exists when there is no offset. */
  lemma {:induction false} HeaderEndIsFirst(s: seq<byte>, from: nat)
    ensures
      match HeaderEndFrom(s, from)
      case Some(e) => TerminatorAt(s, e - 4) && forall p :: from <= p < e - 4 ==> !TerminatorAt(s, p)
      case None => forall p :: from <= p ==> !TerminatorAt(s, p)
    decreases |s| - from
  {
    if from + 4 <= |s| && s[from..from + 4] != CRLF_CRLF {
      HeaderEndIsFirst(s, from + 1);
    }
  }

  /** The terminator of a stream is the terminator of every prefix long enough to hold it. */
  lemma HeaderEndOfPrefix(a: seq<byte>, b: seq<byte>)
    ensures HeaderEnd(a).Some? ==> HeaderEnd(a + b) == HeaderEnd(a)
    ensures HeaderEnd(a).None? && HeaderEnd(a + b).Some? ==> HeaderEnd(a + b).value > |a|
  {
    HeaderEndFromOfPrefix(a, b, 0);
  }

  lemma {:induction false} HeaderEndFromOfPrefix(a: seq<byte>, b: seq<byte>, from: nat)
    ensures HeaderEndFrom(a, from).Some? ==> HeaderEndFrom(a + b, from) == HeaderEndFrom(a, from)
    ensures HeaderEndFrom(a, from).None? && HeaderEndFrom(a + b, from).Some? ==>
              HeaderEndFrom(a + b, from).value > |a|
    decreases |a| - from
  {
    if from + 4 <= |a| {
      assert (a + b)[from..from + 4] == a[from..from + 4];
      HeaderEndFromOfPrefix(a, b, from + 1);
    }
  }

  method FindHeaderEnd(bytes: seq<byte>) returns (r: Option<nat>)
    ensures r == HeaderEnd(bytes)
  {
    var p := 0;
    while p + 4 <= |bytes|
      invariant HeaderEnd(bytes) == HeaderEndFrom(bytes, p)
    {
      if bytes[p..p + 4] == CRLF_CRLF { return Some(p + 4); }
      p := p + 1;
    }
    return None;
  }

  // ----- the offer loop -----

  /** The head, the bytes read past it, and the number of reads used. */
  datatype OfferResult =
    | Found(head: seq<byte>, remainder: seq<byte>, used: nat)
    | EofBeforeTerminator
    | TooLong

  /** The loop, as a function of the bytes buffered so far and the reads to come. */
  function OfferFrom(buf: seq<byte>, net: seq<ReadOutcome>): (r: OfferResult)
    decreases |net|
  {
    if net == [] || net[0].ReadError? || net[0].chunk == [] then EofBeforeTerminator
    else
      var buf' := buf + net[0].chunk;
      match HeaderEnd(buf')
      case Some(end) => Found(buf'[..end], buf'[end..], 1)
      case None =>
        if |buf'| > MAX_OFFER then TooLong
        else
          match OfferFrom(buf', net[1..])
          case Found(head, rest, used) => Found(head, rest, used + 1)
          case other => other
  }

  method ReadOffer(net: seq<ReadOutcome>) returns (r: OfferResult)
    ensures r == OfferFrom([], net)
    ensures r.Found? ==> r.used <= |net|
  {
    var buf: seq<byte>, i := [], 0;
    while true
      invariant 0 <= i <= |net|
      invariant OfferFrom([], net) == Later(OfferFrom(buf, net[i..]), i)
      decreases |net| - i
    {
      if i == |net| || net[i].ReadError? || net[i].chunk == [] { return EofBeforeTerminator; }
      assert net[i..][1..] == net[i + 1..];
      buf := buf + net[i].chunk;
      i := i + 1;
      var end := FindHeaderEnd(buf);
      if end.Some? { return Found(buf[..end.value], buf[end.value..], i); }
      if |buf| > MAX_OFFER { return TooLong; }
    }
  }

  function Later(r: OfferResult, reads': nat): (r': OfferResult) {
    match r
    case Found(head, rest, used) => Found(head, rest, used + reads')
    case other => other
  }

  // ----- what the chunking can and cannot change -----

  /** When the stream has a terminator the loop finds it or gives up on length. Found, the head is the
      stream up to it and no byte after it is lost; within reach, it is always found. */
  lemma {:induction false} OfferSplitsStream(buf: seq<byte>, net: seq<ReadOutcome>, e: nat)
    requires HeaderEnd(buf).None?
    requires HeaderEnd(buf + Stream(net)) == Some(e)
    ensures
      var all, r := buf + Stream(net), OfferFrom(buf, net);
      && (e <= MAX_OFFER + 1 ==> r.Found?)
      && (!r.Found? ==> r == TooLong)
      && (r.Found? ==>
            && r.used <= |net|
            && r.head == all[..e]
            && r.remainder + Stream(net[r.used..]) == all[e..]
            && Closing(net[r.used..]) == Closing(net))
    decreases |net|
  {
    var all := buf + Stream(net);
    assert buf + [] == buf;
    if !(net == [] || net[0].ReadError? || net[0].chunk == []) {
      var buf' := buf + net[0].chunk;
      assert all == buf' + Stream(net[1..]);
      HeaderEndOfPrefix(buf', Stream(net[1..]));
      if HeaderEnd(buf').None? {
        OfferSplitsStream(buf', net[1..], e);
        var r := OfferFrom(buf', net[1..]);
        if r.Found? {
          assert net[1..][r.used..] == net[r.used + 1..];
        }
      } else {
        assert all[..e] == buf'[..e];
        assert all[e..] == buf'[e..] + Stream(net[1..]);
      }
    }
  }

  /** Without a terminator, the loop gives up on length or on the close, by stream length alone. */
  lemma {:induction false} OfferWithoutTerminator(buf: seq<byte>, net: seq<ReadOutcome>)
    requires HeaderEnd(buf + Stream(net)).None?
    requires |buf| <= MAX_OFFER
    ensures OfferFrom(buf, net) == if |buf + Stream(net)| > MAX_OFFER then TooLong else EofBeforeTerminator
    decreases |net|
  {
    if !(net == [] || net[0].ReadError? || net[0].chunk == []) {
      var buf' := buf + net[0].chunk;
      assert buf + Stream(net) == buf' + Stream(net[1..]);
      HeaderEndOfPrefix(buf', Stream(net[1..]));
      if |buf'| <= MAX_OFFER {
        OfferWithoutTerminator(buf', net[1..]);
      }
    }
  }

  /** Reads that the 512-byte buffer can produce. */
  ghost predicate SmallReads(net: seq<ReadOutcome>) {
    forall i :: 0 <= i < |net| && net[i].ReadBytes? ==> |net[i].chunk| <= OFFER_READ
  }

  function OneByteReads(s: seq<byte>): (net: seq<ReadOutcome>)
    ensures |net| == |s|
    ensures SmallReads(net)
  {
    if s == [] then [] else [ReadBytes([s[0]])] + OneByteReads(s[1..])
  }

  lemma {:induction false} OneByteStream(s: seq<byte>)
    ensures Stream(OneByteReads(s)) == s && Closing(OneByteReads(s)) == CleanClose
  {
    if s != [] {
      OneByteStream(s[1..]);
      assert OneByteReads(s)[1..] == OneByteReads(s[1..]);
    }
  }

  /** One byte at a time, a terminator beyond the limit is never seen. */
  lemma {:induction false} OneByteTooLong(buf: seq<byte>, s: seq<byte>)
    requires |buf| <= MAX_OFFER
    requires HeaderEnd(buf + s).Some? && HeaderEnd(buf + s).value > MAX_OFFER + 1
    ensures OfferFrom(buf, OneByteReads(s)) == TooLong
    decreases |s|
  {
    var buf' := buf + [s[0]];
    assert buf + s == buf' + s[1..];
    HeaderEndOfPrefix(buf', s[1..]);
    assert OneByteReads(s)[1..] == OneByteReads(s[1..]);
    if |buf'| <= MAX_OFFER {
      OneByteTooLong(buf', s[1..]);
    }
  }

  /** The offer is accepted under every chunking exactly when its terminator ends by MAX_OFFER + 1. */
  lemma OfferAcceptedIff(stream: seq<byte>, e: nat)
    requires HeaderEnd(stream) == Some(e)
    ensures (forall net | SmallReads(net) && Stream(net) == stream :: OfferFrom([], net).Found?)
       <==> e <= MAX_OFFER + 1
  {
    if e <= MAX_OFFER + 1 {
      forall net | SmallReads(net) && Stream(net) == stream
        ensures OfferFrom([], net).Found?
      {
        assert [] + Stream(net) == stream;
        OfferSplitsStream([], net, e);
      }
    } else {
      OneByteStream(stream);
      assert [] + stream == stream;
      OneByteTooLong([], stream);
    }
  }

  /** A terminator more than one read beyond the limit is refused under every chunking. */
  lemma {:induction false} OutOfReach(buf: seq<byte>, net: seq<ReadOutcome>, e: nat)
    requires |buf| <= MAX_OFFER && SmallReads(net)
    requires HeaderEnd(buf + Stream(net)) == Some(e) && e > MAX_OFFER + OFFER_READ
    ensures OfferFrom(buf, net) == TooLong
    decreases |net|
  {
    assert buf + [] == buf;
    if !(net == [] || net[0].ReadError? || net[0].chunk == []) {
      var buf' := buf + net[0].chunk;
      assert buf + Stream(net) == buf' + Stream(net[1..]);
      HeaderEndOfPrefix(buf', Stream(net[1..]));
      if |buf'| <= MAX_OFFER {
        OutOfReach(buf', net[1..], e);
      }
    }
  }

  /** The reads that reach furthest: single bytes up to `k`, one read to `e`, single bytes again. */
  function LongReads(stream: seq<byte>, k: nat, e: nat): seq<ReadOutcome>
    requires k < e <= |stream|
  {
    OneByteReads(stream[..k]) + ([ReadBytes(stream[k..e])] + OneByteReads(stream[e..]))
  }

  lemma OneByteFirst(s: seq<byte>, rest: seq<ReadOutcome>)
    requires s != []
    ensures
      var net := OneByteReads(s) + rest;
      net != [] && net[0] == ReadBytes([s[0]]) && net[1..] == OneByteReads(s[1..]) + rest
  {
    hide SmallReads;
    assert OneByteReads(s) == [ReadBytes([s[0]])] + OneByteReads(s[1..]);
    hide OneByteReads;
    ConsAppend(ReadBytes([s[0]]), OneByteReads(s[1..]), rest);
  }

  lemma ConsAppend<T>(x: T, a: seq<T>, b: seq<T>)
    ensures (([x] + a) + b)[0] == x && (([x] + a) + b)[1..] == a + b
  {
  }

  lemma {:induction false} OneBytesStream(s: seq<byte>, rest: seq<ReadOutcome>)
    ensures Stream(OneByteReads(s) + rest) == s + Stream(rest)
    decreases |s|
  {
    if s == [] {
      assert OneByteReads(s) + rest == rest;
    } else {
      OneByteFirst(s, rest);
      hide OneByteReads;
      OneBytesStream(s[1..], rest);
      assert [s[0]] + (s[1..] + Stream(rest)) == s + Stream(rest);
    }
  }

  /** Single bytes in front of the terminator are just buffered. */
  lemma {:induction false} OneBytesThen(buf: seq<byte>, s: seq<byte>, rest: seq<ReadOutcome>)
    requires HeaderEnd(buf + s).None? && |buf + s| <= MAX_OFFER
    ensures OfferFrom(buf, OneByteReads(s) + rest) == Later(OfferFrom(buf + s, rest), |s|)
    decreases |s|
  {
    hide HeaderEnd;
    if s == [] {
      assert OneByteReads(s) + rest == rest && buf + s == buf;
    } else {
      OneByteFirst(s, rest);
      hide OneByteReads;
      var buf' := buf + [s[0]];
      assert buf' + s[1..] == buf + s;
      HeaderEndOfPrefix(buf', s[1..]);
      OneBytesThen(buf', s[1..], rest);
    }
  }

  lemma LongReadsStream(stream: seq<byte>, k: nat, e: nat)
    requires k < e <= |stream| && e - k <= OFFER_READ
    ensures SmallReads(LongReads(stream, k, e)) && Stream(LongReads(stream, k, e)) == stream
  {
    var last := [ReadBytes(stream[k..e])] + OneByteReads(stream[e..]);
    OneBytesStream(stream[..k], last);
    OneByteStream(stream[e..]);
    hide OneByteReads, SmallReads;
    assert last[1..] == OneByteReads(stream[e..]);
    assert Stream(last) == stream[k..e] + stream[e..];
    Reassemble(stream, k, e);
    SmallParts(OneByteReads(stream[..k]), ReadBytes(stream[k..e]), OneByteReads(stream[e..]));
  }

  lemma Reassemble(s: seq<byte>, k: nat, e: nat)
    requires k <= e <= |s|
    ensures s[..k] + (s[k..e] + s[e..]) == s
  {
  }

  lemma SmallParts(a: seq<ReadOutcome>, r: ReadOutcome, b: seq<ReadOutcome>)
    requires SmallReads(a) && SmallReads(b) && r.ReadBytes? && |r.chunk| <= OFFER_READ
    ensures SmallReads(a + ([r] + b))
  {
  }

  /** No prefix that stops short of the terminator has one, and the one that ends there does. */
  lemma EndOfPrefixes(stream: seq<byte>, k: nat, e: nat)
    requires HeaderEnd(stream) == Some(e) && k < e <= |stream|
    ensures HeaderEnd(stream[..k]).None? && HeaderEnd(stream[..e]) == Some(e)
  {
    hide HeaderEnd;
    assert stream == stream[..k] + stream[k..] && stream == stream[..e] + stream[e..];
    HeaderEndOfPrefix(stream[..k], stream[k..]);
    HeaderEndOfPrefix(stream[..e], stream[e..]);
    EndFits(stream[..k]);
  }

  lemma EndFits(s: seq<byte>)
    ensures HeaderEnd(s).Some? ==> 4 <= HeaderEnd(s).value <= |s|
  {
  }

  lemma LongReadsFind(stream: seq<byte>, k: nat, e: nat)
    requires HeaderEnd(stream) == Some(e) && k < e <= |stream| && k <= MAX_OFFER
    ensures OfferFrom([], LongReads(stream, k, e)).Found?
  {
    hide HeaderEnd;
    var last := [ReadBytes(stream[k..e])] + OneByteReads(stream[e..]);
    EndOfPrefixes(stream, k, e);
    assert [] + stream[..k] == stream[..k];
    OneBytesThen([], stream[..k], last);
    assert stream[..k] + stream[k..e] == stream[..e];
    assert OfferFrom(stream[..k], last).Found?;
  }

  /** And under some chunking exactly when it ends by MAX_OFFER plus one read. */
  lemma OfferAcceptableIff(stream: seq<byte>, e: nat)
    requires HeaderEnd(stream) == Some(e)
    ensures (exists net :: SmallReads(net) && Stream(net) == stream && OfferFrom([], net).Found?)
       <==> e <= MAX_OFFER + OFFER_READ
  {
    if e <= MAX_OFFER + OFFER_READ {
      EndFits(stream);
      var k := if e > OFFER_READ then e - OFFER_READ else 0;
      LongReadsStream(stream, k, e);
      LongReadsFind(stream, k, e);
    } else {
      forall net | SmallReads(net) && Stream(net) == stream
        ensures !OfferFrom([], net).Found?
      {
        assert [] + Stream(net) == stream;
        OutOfReach([], net, e);
      }
    }
  }

  // ----- the whole read side -----

  datatype OpenResult = Opened(head: seq<byte>, events: seq<Event>) | Refused(why: OfferResult)

  /** Read the offer, then run the read task on what is left. Opened, the result is a function of the
      byte stream, the close and the consumer alone. Reads only decide whether a terminator between the
      limit plus one and the limit plus one read is reached. */
  method OpenAndRead(net: seq<ReadOutcome>, accept: nat) returns (r: OpenResult)
    ensures
      match HeaderEnd(Stream(net))
      case Some(e) =>
        && (r == Refused(TooLong) || r == Opened(Stream(net)[..e], SessionEvents(Stream(net)[e..], accept, Closing(net))))
        && (e <= MAX_OFFER + 1 ==> r.Opened?)
        && (SmallReads(net) && e > MAX_OFFER + OFFER_READ ==> r.Refused?)
      case None =>
        r == Refused(if |Stream(net)| > MAX_OFFER then TooLong else EofBeforeTerminator)
  {
    var offer := ReadOffer(net);
    assert [] + Stream(net) == Stream(net);
    if HeaderEnd(Stream(net)).None? {
      OfferWithoutTerminator([], net);
    } else {
      var e := HeaderEnd(Stream(net)).value;
      OfferSplitsStream([], net, e);
      if SmallReads(net) && e > MAX_OFFER + OFFER_READ {
        OutOfReach([], net, e);
      }
    }
    if !offer.Found? { return Refused(offer); }
    var events := ReadTask(offer.remainder, net[offer.used..], accept);
    return Opened(offer.head, events);
  }
}
