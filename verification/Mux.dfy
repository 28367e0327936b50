/**
  The single-writer priority mux: a reserved control queue, two data producers drained
  round-robin under one byte budget, and a terminal end of stream.

  The object is proved against one step function; the guarantees are then stated over
  every run of steps.
 */
module Mux {
  import opened Bytes
  import opened Wrappers

  datatype ControlKind = Close | Dpd | Keepalive
  datatype Source = ProducerA | ProducerB
  datatype MuxError = ControlQueueFull | DataBudgetExceeded | EofTerminal
  datatype Item = ControlItem(kind: ControlKind) | DataItem(source: Source, payload: seq<byte>) | EofItem

  datatype State = State(
    controlCapacity: nat,
    dataByteBudget: nat,
    control: seq<ControlKind>,
    dataA: seq<seq<byte>>,
    dataB: seq<seq<byte>>,
    nextSource: Source,
    queuedBytes: nat,
    inflightBytes: nat,
    eof: bool,
    eofEmitted: bool)
  {
    function Queue(src: Source): seq<seq<byte>> {
      if src == ProducerA then dataA else dataB
    }

    function WithQueue(src: Source, q: seq<seq<byte>>): State {
      if src == ProducerA then this.(dataA := q) else this.(dataB := q)
    }
  }

  function Other(src: Source): Source {
    if src == ProducerA then ProducerB else ProducerA
  }

  function Size(q: seq<seq<byte>>): nat {
    if q == [] then 0 else |q[0]| + Size(q[1..])
  }

  // ----- one call -----

  datatype Op = PushControl(kind: ControlKind) | PushData(source: Source, payload: seq<byte>) | Next | PeerRead(consumed: nat) | SetEof

  datatype Out = Done | Refused(error: MuxError) | Emitted(item: Item) | Nothing

  datatype Stepped = Stepped(state: State, out: Out)

  /** The producer the round-robin serves, if any has data. */
  function Chosen(s: State): Option<Source> {
    if s.Queue(s.nextSource) != [] then Some(s.nextSource)
    else if s.Queue(Other(s.nextSource)) != [] then Some(Other(s.nextSource))
    else None
  }

  /** Taking the front item of a producer moves its bytes from queued to in flight. */
  function TakeData(s: State, src: Source): State
    requires s.Queue(src) != [] && |s.Queue(src)[0]| <= s.queuedBytes
  {
    var payload := s.Queue(src)[0];
    s.WithQueue(src, s.Queue(src)[1..]).(
      queuedBytes := s.queuedBytes - |payload|,
      inflightBytes := s.inflightBytes + |payload|,
      nextSource := Other(src))
  }

  /** What every reachable state keeps. */
  ghost predicate Inv(s: State) {
    && s.queuedBytes == Size(s.dataA) + Size(s.dataB)
    && s.queuedBytes + s.inflightBytes <= s.dataByteBudget
    && |s.control| <= s.controlCapacity
    && (s.eofEmitted ==> s.eof && s.control == [] && s.dataA == [] && s.dataB == [])
  }

  lemma FrontFits(s: State, src: Source)
    requires Inv(s) && s.Queue(src) != []
    ensures |s.Queue(src)[0]| <= s.queuedBytes
  {
  }

  function Step(s: State, op: Op): (r: Stepped)
    requires Inv(s)
  {
    match op
    case PushControl(kind) =>
      if s.eof then Stepped(s, Refused(EofTerminal))
      else if |s.control| >= s.controlCapacity then Stepped(s, Refused(ControlQueueFull))
      else Stepped(s.(control := s.control + [kind]), Done)
    case PushData(src, payload) =>
      if s.eof then Stepped(s, Refused(EofTerminal))
      else if s.queuedBytes + s.inflightBytes + |payload| > s.dataByteBudget then Stepped(s, Refused(DataBudgetExceeded))
      else Stepped(s.WithQueue(src, s.Queue(src) + [payload]).(queuedBytes := s.queuedBytes + |payload|), Done)
    case Next =>
      if s.control != [] then Stepped(s.(control := s.control[1..]), Emitted(ControlItem(s.control[0])))
      else
        (match Chosen(s)
         case Some(src) => FrontFits(s, src); Stepped(TakeData(s, src), Emitted(DataItem(src, s.Queue(src)[0])))
         case None =>
           if s.eof && !s.eofEmitted then Stepped(s.(eofEmitted := true), Emitted(EofItem)) else Stepped(s, Nothing))
    case PeerRead(n) =>
      Stepped(s.(inflightBytes := if n <= s.inflightBytes then s.inflightBytes - n else 0), Done)
    case SetEof => Stepped(s.(eof := true), Done)
  }

  lemma {:induction false} SizeAppend(q: seq<seq<byte>>, p: seq<byte>)
    ensures Size(q + [p]) == Size(q) + |p|
  {
    if q == [] {
      assert q + [p] == [p] && [p][1..] == [];
    } else {
      assert (q + [p])[1..] == q[1..] + [p];
      SizeAppend(q[1..], p);
    }
  }

  lemma StepKeeps(s: State, op: Op)
    requires Inv(s)
    ensures Inv(Step(s, op).state)
  {
    if op.PushData? {
      SizeAppend(s.Queue(op.source), op.payload);
    }
  }

  // ----- the object -----

  class Mux {
    const controlCapacity: nat
    const dataByteBudget: nat
    var control: seq<ControlKind>
    var dataA: seq<seq<byte>>
    var dataB: seq<seq<byte>>
    var nextSource: Source
    var queuedBytes: nat
    var inflightBytes: nat
    var eof: bool
    var eofEmitted: bool

    ghost function View(): State
      reads this
    {
      State(controlCapacity, dataByteBudget, control, dataA, dataB, nextSource, queuedBytes, inflightBytes, eof, eofEmitted)
    }

    constructor (controlCapacity: nat, dataByteBudget: nat)
      ensures View() == Fresh(controlCapacity, dataByteBudget) && Inv(View())
    {
      this.controlCapacity, this.dataByteBudget := controlCapacity, dataByteBudget;
      control, dataA, dataB, nextSource := [], [], [], ProducerA;
      queuedBytes, inflightBytes, eof, eofEmitted := 0, 0, false, false;
    }

    method PushControlFrame(kind: ControlKind) returns (r: Result<(), MuxError>)
      requires Inv(View())
      modifies this
      ensures Inv(View()) && View() == Step(old(View()), PushControl(kind)).state
      ensures Step(old(View()), PushControl(kind)).out == if r.Ok? then Done else Refused(r.error)
    {
      StepKeeps(View(), PushControl(kind));
      if eof { return Err(EofTerminal); }
      if |control| >= controlCapacity { return Err(ControlQueueFull); }
      control := control + [kind];
      return Ok(());
    }

    method PushDataFrame(source: Source, payload: seq<byte>) returns (r: Result<(), MuxError>)
      requires Inv(View())
      modifies this
      ensures Inv(View()) && View() == Step(old(View()), PushData(source, payload)).state
      ensures Step(old(View()), PushData(source, payload)).out == if r.Ok? then Done else Refused(r.error)
    {
      StepKeeps(View(), PushData(source, payload));
      if eof { return Err(EofTerminal); }
      var newTotal := queuedBytes + inflightBytes + |payload|;
      if newTotal > dataByteBudget { return Err(DataBudgetExceeded); }
      queuedBytes := queuedBytes + |payload|;
      match source {
        case ProducerA => dataA := dataA + [payload];
        case ProducerB => dataB := dataB + [payload];
      }
      return Ok(());
    }

    method NextItem() returns (r: Option<Item>)
      requires Inv(View())
      modifies this
      ensures Inv(View()) && View() == Step(old(View()), Next).state
      ensures Step(old(View()), Next).out == if r.Some? then Emitted(r.value) else Nothing
    {
      StepKeeps(View(), Next);
      if control != [] {
        var kind := control[0];
        control := control[1..];
        return Some(ControlItem(kind));
      }
      var taken := TakeNextData();
      if taken.Some? { return Some(DataItem(taken.value.0, taken.value.1)); }
      if eof && !eofEmitted {
        eofEmitted := true;
        return Some(EofItem);
      }
      return None;
    }

    method TakeNextData() returns (r: Option<(Source, seq<byte>)>)
      requires Inv(View())
      modifies this
      ensures
        var s := old(View());
        match Chosen(s)
        case None => r == None && View() == s
        case Some(src) =>
          && |s.Queue(src)[0]| <= s.queuedBytes
          && r == Some((src, s.Queue(src)[0])) && View() == TakeData(s, src)
    {
      var chosen;
      if nextSource == ProducerA {
        if dataA == [] {
          if dataB == [] { return None; }
          chosen := ProducerB;
        } else {
          chosen := ProducerA;
        }
      } else {
        if dataB == [] {
          if dataA == [] { return None; }
          chosen := ProducerA;
        } else {
          chosen := ProducerB;
        }
      }
      FrontFits(View(), chosen);
      var payload;
      match chosen {
        case ProducerA => payload := dataA[0]; dataA := dataA[1..];
        case ProducerB => payload := dataB[0]; dataB := dataB[1..];
      }
      queuedBytes := queuedBytes - |payload|;
      inflightBytes := inflightBytes + |payload|;
      nextSource := if chosen == ProducerA then ProducerB else ProducerA;
      return Some((chosen, payload));
    }

    method PeerReadBytes(consumed: nat)
      requires Inv(View())
      modifies this
      ensures Inv(View()) && View() == Step(old(View()), PeerRead(consumed)).state
    {
      StepKeeps(View(), PeerRead(consumed));
      inflightBytes := if consumed <= inflightBytes then inflightBytes - consumed else 0;
    }

    method Eof()
      requires Inv(View())
      modifies this
      ensures Inv(View()) && View() == Step(old(View()), SetEof).state
    {
      StepKeeps(View(), SetEof);
      eof := true;
    }
  }

  function Fresh(controlCapacity: nat, dataByteBudget: nat): State {
    State(controlCapacity, dataByteBudget, [], [], [], ProducerA, 0, 0, false, false)
  }

  // ----- runs -----

  /** The state after a run and the outputs of its calls, in order. */
  datatype Trace = Trace(state: State, outs: seq<Out>)

  ghost function Run(s: State, ops: seq<Op>): (t: Trace)
    requires Inv(s)
    ensures |t.outs| == |ops| && Inv(t.state)
    decreases |ops|
  {
    if ops == [] then Trace(s, [])
    else
      StepKeeps(s, ops[0]);
      var r := Step(s, ops[0]);
      var t := Run(r.state, ops[1..]);
      Trace(t.state, [r.out] + t.outs)
  }

  /** What a producer got accepted, and what of it was emitted, over the calls of a run. */
  function Accepted(ops: seq<Op>, outs: seq<Out>, src: Source): (q: seq<seq<byte>>)
    requires |ops| == |outs|
    decreases |ops|
  {
    if ops == [] then []
    else
      (if ops[0].PushData? && ops[0].source == src && outs[0] == Done then [ops[0].payload] else [])
      + Accepted(ops[1..], outs[1..], src)
  }

  function Delivered(outs: seq<Out>, src: Source): (q: seq<seq<byte>>) {
    if outs == [] then []
    else
      (if outs[0].Emitted? && outs[0].item.DataItem? && outs[0].item.source == src then [outs[0].item.payload] else [])
      + Delivered(outs[1..], src)
  }

  /** One call: what was queued and accepted is what was delivered and is still queued. */
  lemma StepConserves(s: State, op: Op, src: Source)
    requires Inv(s)
    ensures
      var r := Step(s, op);
      var accepted := if op.PushData? && op.source == src && r.out == Done then [op.payload] else [];
      var delivered := if r.out.Emitted? && r.out.item.DataItem? && r.out.item.source == src then [r.out.item.payload] else [];
      s.Queue(src) + accepted == delivered + r.state.Queue(src)
  {
    hide Inv, Size;
  }

  /** First in, first out, per producer, over every run: nothing is lost, invented or reordered. */
  lemma {:induction false} RunConserves(s: State, ops: seq<Op>, src: Source)
    requires Inv(s)
    ensures
      var t := Run(s, ops);
      s.Queue(src) + Accepted(ops, t.outs, src) == Delivered(t.outs, src) + t.state.Queue(src)
    decreases |ops|
  {
    hide Step, Inv;
    if ops == [] {
      assert s.Queue(src) + [] == [] + s.Queue(src);
    } else {
      var r := Step(s, ops[0]);
      StepKeeps(s, ops[0]);
      var t := Run(r.state, ops[1..]);
      assert ([r.out] + t.outs)[1..] == t.outs;
      StepConserves(s, ops[0], src);
      RunConserves(r.state, ops[1..], src);
      var acc := if ops[0].PushData? && ops[0].source == src && r.out == Done then [ops[0].payload] else [];
      var del := if r.out.Emitted? && r.out.item.DataItem? && r.out.item.source == src then [r.out.item.payload] else [];
      Chain(s.Queue(src), acc, del, r.state.Queue(src), Accepted(ops[1..], t.outs, src), Delivered(t.outs, src), t.state.Queue(src));
    }
  }

  lemma Chain<T>(q: seq<T>, acc: seq<T>, del: seq<T>, q': seq<T>, acc': seq<T>, del': seq<T>, q'': seq<T>)
    requires q + acc == del + q' && q' + acc' == del' + q''
    ensures q + (acc + acc') == (del + del') + q''
  {
    assert q + (acc + acc') == (q + acc) + acc' == (del + q') + acc' == del + (q' + acc') == del + (del' + q'');
  }

  // ----- fairness -----

  function DataCount(outs: seq<Out>): nat {
    if outs == [] then 0 else (if outs[0].Emitted? && outs[0].item.DataItem? then 1 else 0) + DataCount(outs[1..])
  }

  /** How many data emissions the item at position k of a producer may have to wait for, its own included. */
  function Wait(s: State, src: Source, k: nat): nat {
    2 * k + if s.nextSource == src then 1 else 2
  }

  /** One call brings the item closer by the data it emits. */
  lemma StepServes(s: State, op: Op, src: Source, k: nat)
    requires Inv(s) && k < |s.Queue(src)|
    ensures
      var r := Step(s, op);
      var data := r.out.Emitted? && r.out.item.DataItem?;
      if data && r.out.item.source == src then
        r.state.Queue(src) == s.Queue(src)[1..] && (k > 0 ==> Wait(r.state, src, k - 1) < Wait(s, src, k))
      else
        && k < |r.state.Queue(src)|
        && Wait(r.state, src, k) <= Wait(s, src, k) - (if data then 1 else 0)
  {
  }

  /** Bounded waiting over every run: after 2k+2 data emissions, whatever was pushed meanwhile, the item
      at position k has left, and it left as its producer's k-th item. */
  lemma {:induction false} RunServes(s: State, ops: seq<Op>, src: Source, k: nat)
    requires Inv(s) && k < |s.Queue(src)|
    requires DataCount(Run(s, ops).outs) >= Wait(s, src, k)
    ensures |Delivered(Run(s, ops).outs, src)| > k
    decreases |ops|
  {
    hide Step, Inv, Wait;
    if ops == [] {
      WaitPositive(s, src, k);
    } else {
      var r := Step(s, ops[0]);
      StepKeeps(s, ops[0]);
      var t := Run(r.state, ops[1..]);
      assert ([r.out] + t.outs)[1..] == t.outs;
      StepServes(s, ops[0], src, k);
      WaitPositive(s, src, k);
      if r.out.Emitted? && r.out.item.DataItem? && r.out.item.source == src {
        if k > 0 { RunServes(r.state, ops[1..], src, k - 1); }
      } else {
        RunServes(r.state, ops[1..], src, k);
      }
    }
  }

  lemma WaitPositive(s: State, src: Source, k: nat)
    ensures 0 < Wait(s, src, k) <= 2 * k + 2
  {
  }

  lemma ItemLeavesInOrder(s: State, ops: seq<Op>, src: Source, k: nat)
    requires Inv(s) && k < |s.Queue(src)|
    requires DataCount(Run(s, ops).outs) >= 2 * k + 2
    ensures |Delivered(Run(s, ops).outs, src)| > k && Delivered(Run(s, ops).outs, src)[k] == s.Queue(src)[k]
  {
    hide Step, Inv;
    WaitPositive(s, src, k);
    RunServes(s, ops, src, k);
    RunConserves(s, ops, src);
    var t := Run(s, ops);
    assert (s.Queue(src) + Accepted(ops, t.outs, src))[k] == (Delivered(t.outs, src) + t.state.Queue(src))[k];
  }

  // ----- the control lane -----

  function AcceptedControl(ops: seq<Op>, outs: seq<Out>): seq<ControlKind>
    requires |ops| == |outs|
    decreases |ops|
  {
    if ops == [] then []
    else (if ops[0].PushControl? && outs[0] == Done then [ops[0].kind] else []) + AcceptedControl(ops[1..], outs[1..])
  }

  function EmittedControl(outs: seq<Out>): seq<ControlKind> {
    if outs == [] then []
    else (if outs[0].Emitted? && outs[0].item.ControlItem? then [outs[0].item.kind] else []) + EmittedControl(outs[1..])
  }

  lemma StepConservesControl(s: State, op: Op)
    requires Inv(s)
    ensures
      var r := Step(s, op);
      var accepted := if op.PushControl? && r.out == Done then [op.kind] else [];
      var emitted := if r.out.Emitted? && r.out.item.ControlItem? then [r.out.item.kind] else [];
      s.control + accepted == emitted + r.state.control
  {
    hide Inv, Size;
  }

  /** Over every run the control kinds accepted are, in order, those emitted and those still queued. */
  lemma {:induction false} RunConservesControl(s: State, ops: seq<Op>)
    requires Inv(s)
    ensures
      var t := Run(s, ops);
      s.control + AcceptedControl(ops, t.outs) == EmittedControl(t.outs) + t.state.control
    decreases |ops|
  {
    hide Step, Inv;
    if ops == [] {
      assert s.control + [] == [] + s.control;
    } else {
      var r := Step(s, ops[0]);
      StepKeeps(s, ops[0]);
      var t := Run(r.state, ops[1..]);
      assert ([r.out] + t.outs)[1..] == t.outs;
      StepConservesControl(s, ops[0]);
      RunConservesControl(r.state, ops[1..]);
      var acc := if ops[0].PushControl? && r.out == Done then [ops[0].kind] else [];
      var emi := if r.out.Emitted? && r.out.item.ControlItem? then [r.out.item.kind] else [];
      Chain(s.control, acc, emi, r.state.control, AcceptedControl(ops[1..], t.outs), EmittedControl(t.outs), t.state.control);
    }
  }

  lemma {:induction false} RunSplit(s: State, a: seq<Op>, b: seq<Op>)
    requires Inv(s)
    ensures
      var t := Run(s, a);
      var u := Run(t.state, b);
      Run(s, a + b) == Trace(u.state, t.outs + u.outs)
    decreases |a|
  {
    hide Step, Inv;
    if a == [] {
      assert a + b == b;
    } else {
      assert (a + b)[0] == a[0] && (a + b)[1..] == a[1..] + b;
      StepKeeps(s, a[0]);
      RunSplit(Step(s, a[0]).state, a[1..], b);
    }
  }

  lemma ControlIsNext(s: State)
    requires Inv(s) && s.control != []
    ensures Step(s, Next).out == Emitted(ControlItem(s.control[0]))
  {
  }

  /** Over every run: whenever a control item is queued, the next item is the oldest of them, never data
      and never the end. */
  lemma ControlFirst(s: State, ops: seq<Op>, i: nat)
    requires Inv(s) && i < |ops| && ops[i].Next? && Run(s, ops[..i]).state.control != []
    ensures Run(s, ops).outs[i] == Emitted(ControlItem(Run(s, ops[..i]).state.control[0]))
  {
    hide Step, Inv;
    var t := Run(s, ops[..i]);
    assert ops == ops[..i] + ops[i..];
    RunSplit(s, ops[..i], ops[i..]);
    ControlIsNext(t.state);
    assert ops[i..][0] == Next;
  }

  function NextCount(ops: seq<Op>): nat {
    if ops == [] then 0 else (if ops[0].Next? then 1 else 0) + NextCount(ops[1..])
  }

  lemma StepServesControl(s: State, op: Op)
    requires Inv(s) && s.control != []
    ensures
      var r := Step(s, op);
      if op.Next? then r.out == Emitted(ControlItem(s.control[0])) && r.state.control == s.control[1..]
      else s.control <= r.state.control
  {
    hide Inv, Size;
  }

  lemma {:induction false} RunServesControl(s: State, ops: seq<Op>, k: nat)
    requires Inv(s) && k < |s.control| && NextCount(ops) > k
    ensures |EmittedControl(Run(s, ops).outs)| > k
    decreases |ops|
  {
    hide Step, Inv;
    var r := Step(s, ops[0]);
    StepKeeps(s, ops[0]);
    StepServesControl(s, ops[0]);
    var t := Run(r.state, ops[1..]);
    assert ([r.out] + t.outs)[1..] == t.outs;
    if !ops[0].Next? {
      RunServesControl(r.state, ops[1..], k);
    } else if k > 0 {
      RunServesControl(r.state, ops[1..], k - 1);
    }
  }

  /** A control item at position k has left after k + 1 `Next` calls, as the k-th control item, whatever
      was pushed meanwhile. */
  lemma ControlLeavesInOrder(s: State, ops: seq<Op>, k: nat)
    requires Inv(s) && k < |s.control| && NextCount(ops) > k
    ensures |EmittedControl(Run(s, ops).outs)| > k && EmittedControl(Run(s, ops).outs)[k] == s.control[k]
  {
    hide Step, Inv;
    RunServesControl(s, ops, k);
    RunConservesControl(s, ops);
    var t := Run(s, ops);
    assert (s.control + AcceptedControl(ops, t.outs))[k] == (EmittedControl(t.outs) + t.state.control)[k];
  }

  // ----- bytes in flight -----

  function DataBytes(out: Out): nat {
    if out.Emitted? && out.item.DataItem? then |out.item.payload| else 0
  }

  /** The bytes of the data emitted by these calls, less those the peer read of them. */
  function Unread(before: nat, ops: seq<Op>, outs: seq<Out>): nat
    requires |ops| == |outs|
    decreases |ops|
  {
    if ops == [] then before
    else
      var now := before + DataBytes(outs[0]);
      Unread(if !ops[0].PeerRead? then now else if ops[0].consumed > now then 0 else now - ops[0].consumed, ops[1..], outs[1..])
  }

  /** Over every run the bytes in flight are exactly those emitted as data and not yet read by the peer. */
  lemma {:induction false} InflightIsUnread(s: State, ops: seq<Op>)
    requires Inv(s)
    ensures Run(s, ops).state.inflightBytes == Unread(s.inflightBytes, ops, Run(s, ops).outs)
    decreases |ops|
  {
    hide Step, Inv;
    if ops != [] {
      var r := Step(s, ops[0]);
      StepKeeps(s, ops[0]);
      StepUnread(s, ops[0]);
      var t := Run(r.state, ops[1..]);
      assert ([r.out] + t.outs)[1..] == t.outs;
      InflightIsUnread(r.state, ops[1..]);
    }
  }

  lemma StepUnread(s: State, op: Op)
    requires Inv(s)
    ensures
      var r := Step(s, op);
      var now := s.inflightBytes + DataBytes(r.out);
      r.state.inflightBytes == if !op.PeerRead? then now else if op.consumed > now then 0 else now - op.consumed
  {
    hide Inv, Size;
  }

  // ----- admission -----

  /** The bytes of the items a producer queue holds, however they got there. */
  function Held(s: State): nat {
    Size(s.dataA) + Size(s.dataB)
  }

  /** After every run: a push is taken if and only if the stream has not ended and it fits, the data lane
      by the bytes queued and in flight, the control lane by its own count whatever the data lane holds. */
  lemma AdmissionIff(s: State, ops: seq<Op>, src: Source, payload: seq<byte>, kind: ControlKind)
    requires Inv(s)
    ensures
      var t := Run(s, ops).state;
      && (Step(t, PushData(src, payload)).out == Done <==> !t.eof && Held(t) + t.inflightBytes + |payload| <= t.dataByteBudget)
      && (Step(t, PushControl(kind)).out == Done <==> !t.eof && |t.control| < t.controlCapacity)
  {
    hide Size;
  }

  // ----- end of stream -----

  function Backlog(s: State): nat {
    |s.control| + |s.dataA| + |s.dataB|
  }

  /** The results of the `Next` calls of a run. */
  function NextOuts(ops: seq<Op>, outs: seq<Out>): (r: seq<Out>)
    requires |ops| == |outs|
    decreases |ops|
  {
    if ops == [] then [] else (if ops[0].Next? then [outs[0]] else []) + NextOuts(ops[1..], outs[1..])
  }

  /** What the j-th `Next` after end of stream must give. */
  predicate DrainOut(s: State, j: nat, out: Out) {
    if j < Backlog(s) then out.Emitted? && out.item != EofItem
    else if j == Backlog(s) && !s.eofEmitted then out == Emitted(EofItem)
    else out == Nothing
  }

  lemma StepAfterEof(s: State, op: Op)
    requires Inv(s) && s.eof
    ensures
      var r := Step(s, op);
      && r.state.eof
      && (op.PushControl? || op.PushData? ==> r.out == Refused(EofTerminal) && r.state == s)
      && (if op.Next? then
            && DrainOut(s, 0, r.out)
            && (forall j: nat, out :: DrainOut(r.state, j, out) ==> DrainOut(s, j + 1, out))
          else forall j: nat, out :: DrainOut(r.state, j, out) ==> DrainOut(s, j, out))
  {
  }

  ghost predicate Drains(s: State, r: seq<Out>) {
    forall j :: 0 <= j < |r| ==> DrainOut(s, j, r[j])
  }

  lemma DrainsFrom(s: State, s': State, op: Op, out: Out, later: seq<Out>)
    requires Inv(s) && s.eof && Step(s, op) == Stepped(s', out)
    requires Drains(s', later)
    ensures Drains(s, (if op.Next? then [out] else []) + later)
  {
    StepAfterEof(s, op);
    hide Step, Inv, DrainOut;
    var all := (if op.Next? then [out] else []) + later;
    forall j | 0 <= j < |all|
      ensures DrainOut(s, j, all[j])
    {
      if !op.Next? {
        assert DrainOut(s', j, later[j]);
      } else if j > 0 {
        assert DrainOut(s', j - 1, later[j - 1]);
      }
    }
  }

  /** After end of stream, over every run: the backlog drains, then exactly one end item, then nothing. */
  lemma {:induction false} EofDrains(s: State, ops: seq<Op>)
    requires Inv(s) && s.eof
    ensures Drains(s, NextOuts(ops, Run(s, ops).outs))
    decreases |ops|
  {
    hide Step, Inv, Drains;
    if ops == [] {
      NothingDrains(s);
    } else {
      var r := Step(s, ops[0]);
      StepKeeps(s, ops[0]);
      StepAfterEof(s, ops[0]);
      var t := Run(r.state, ops[1..]);
      assert ([r.out] + t.outs)[1..] == t.outs;
      EofDrains(r.state, ops[1..]);
      DrainsFrom(s, r.state, ops[0], r.out, NextOuts(ops[1..], t.outs));
    }
  }

  lemma NothingDrains(s: State)
    ensures Drains(s, [])
  {
  }

  lemma FreshIsEmpty(controlCapacity: nat, dataByteBudget: nat)
    ensures
      var s := Fresh(controlCapacity, dataByteBudget);
      && Inv(s) && !s.eof && s.control == [] && s.Queue(ProducerA) == [] && s.Queue(ProducerB) == []
      && s.inflightBytes == 0 && s.controlCapacity == controlCapacity && s.dataByteBudget == dataByteBudget
  {
  }

  lemma {:induction false} LimitsStay(s: State, ops: seq<Op>)
    requires Inv(s)
    ensures
      var t := Run(s, ops).state;
      && t.controlCapacity == s.controlCapacity && t.dataByteBudget == s.dataByteBudget
      && (t.eof <==> s.eof || SetEof in ops)
    decreases |ops|
  {
    if ops != [] {
      StepKeeps(s, ops[0]);
      StepLimits(s, ops[0]);
      hide Inv, Step;
      LimitsStay(Step(s, ops[0]).state, ops[1..]);
      assert ops == [ops[0]] + ops[1..];
    }
  }

  lemma StepLimits(s: State, op: Op)
    requires Inv(s)
    ensures
      var t := Step(s, op).state;
      && t.controlCapacity == s.controlCapacity && t.dataByteBudget == s.dataByteBudget
      && (t.eof <==> s.eof || op == SetEof)
  {
    match op
    case PushControl(_) =>
    case PushData(_, _) =>
    case Next =>
    case PeerRead(_) =>
    case SetEof =>
  }

  /** Over every run of a new multiplexer: per lane, what was accepted is in order what was emitted and what
      is queued; the bytes in flight are those emitted and not read; and a push is taken if and only if no
      end was set and it fits the limits the multiplexer was made with. */
  lemma FreshRun(controlCapacity: nat, dataByteBudget: nat, ops: seq<Op>, src: Source, payload: seq<byte>, kind: ControlKind)
    ensures
      var t := Run(Fresh(controlCapacity, dataByteBudget), ops);
      && AcceptedControl(ops, t.outs) == EmittedControl(t.outs) + t.state.control
      && Accepted(ops, t.outs, src) == Delivered(t.outs, src) + t.state.Queue(src)
      && t.state.inflightBytes == Unread(0, ops, t.outs)
      && (Step(t.state, PushControl(kind)).out == Done <==> SetEof !in ops && |t.state.control| < controlCapacity)
      && (Step(t.state, PushData(src, payload)).out == Done <==>
            SetEof !in ops && Held(t.state) + t.state.inflightBytes + |payload| <= dataByteBudget)
  {
    hide Inv, Run, Step, Accepted, AcceptedControl, Delivered, EmittedControl, Unread, Held, Fresh;
    FreshIsEmpty(controlCapacity, dataByteBudget);
    var s := Fresh(controlCapacity, dataByteBudget);
    RunConservesControl(s, ops);
    RunConserves(s, ops, src);
    InflightIsUnread(s, ops);
    AdmissionIff(s, ops, src, payload, kind);
    LimitsStay(s, ops);
    var t := Run(s, ops);
    assert [] + AcceptedControl(ops, t.outs) == AcceptedControl(ops, t.outs);
    assert [] + Accepted(ops, t.outs, src) == Accepted(ops, t.outs, src);
  }
}
