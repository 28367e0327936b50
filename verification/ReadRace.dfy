/**
  The read task under cancellation. The task is one branch of a race: the consumer
  going away or the write side ending may cut it off between any two of its steps.
  A run is any sequence of such steps.
 */
module ReadRace {
  import opened Bytes
  import opened Wrappers
  import opened Codec
  import opened Session

  /** `received` is every byte taken from the network so far; `done` means the race is over. */
  datatype Task = Task(received: seq<byte>, buf: seq<byte>, accept: nat, out: seq<Event>, done: bool)

  datatype TaskStep = DecodeNext | ReadNext(outcome: ReadOutcome) | ConsumerClosed | WriteEnded

  function Start(remainder: seq<byte>, accept: nat): Task {
    Task(remainder, remainder, accept, [], false)
  }

  function ResultOf(s: Step): (r: DecodeResult)
    requires !s.NeedMore?
  {
    if s.Decoded? then Yield(s.frame) else Fail(s.error)
  }

  /** One step; the task reads only when its buffer needs more bytes, and does nothing once done. */
  function Next(t: Task, step: TaskStep): (t': Task) {
    if t.done then t
    else
      var s := DecodeStep(t.buf);
      match step
      case DecodeNext =>
        if s.NeedMore? then t
        else
          var p := OnDecode(ResultOf(s), t.accept);
          Task(t.received, s.rest, p.accept, t.out + p.events, p.ended)
      case ReadNext(outcome) =>
        if !s.NeedMore? then t
        else
          (match EndReasonForReadOutcome(outcome)
           case Some(reason) => t.(out := t.out + [SessionEnded(reason)], done := true)
           case None => t.(received := t.received + outcome.chunk, buf := t.buf + outcome.chunk))
      case ConsumerClosed => t.(out := t.out + [SessionEnded(ConsumerDropped)], done := true)
      case WriteEnded => t.(done := true)
  }

  function Run(t: Task, steps: seq<TaskStep>): (t': Task)
    decreases |steps|
  {
    if steps == [] then t else Run(Next(t, steps[0]), steps[1..])
  }

  /** The events without the terminal one. */
  function Body(events: seq<Event>): (body: seq<Event>) {
    if events != [] && events[|events| - 1].SessionEnded? then events[..|events| - 1] else events
  }

  /** What the bytes received so far call for, before any close. */
  function Due(received: seq<byte>, accept: nat): (p: Played) {
    Play(Drain(received).items, accept)
  }

  /** While the race is on: the events sent and the buffer together stand for the bytes received. */
  ghost predicate OnTrack(t: Task, accept: nat) {
    var d, e := Drain(t.received), Drain(t.buf);
    var q := Play(e.items, t.accept);
    && NoEnd(t.out)
    && d.rest == e.rest && d.fatal == e.fatal
    && Due(t.received, accept) == Played(t.out + q.events, q.ended, q.accept)
  }

  ghost predicate Safe(t: Task, accept: nat) {
    && NoEnd(Body(t.out))
    && Body(t.out) <= Due(t.received, accept).events
  }

  ghost predicate Inv(t: Task, accept: nat) {
    Safe(t, accept) && (!t.done ==> OnTrack(t, accept))
  }

  lemma StartOnTrack(remainder: seq<byte>, accept: nat)
    ensures Inv(Start(remainder, accept), accept)
  {
    var q := Due(remainder, accept);
    assert [] + q.events == q.events;
  }

  lemma OnTrackIsSafe(t: Task, accept: nat)
    requires OnTrack(t, accept)
    ensures Safe(t, accept)
  {
    assert Body(t.out) == t.out;
  }

  lemma BodyOfEnd(out: seq<Event>, reason: EndReason)
    ensures Body(out + [SessionEnded(reason)]) == out
  {
  }

  lemma DecodeKeeps(t: Task, accept: nat)
    requires !t.done && OnTrack(t, accept)
    ensures Inv(Next(t, DecodeNext), accept)
  {
    var s := DecodeStep(t.buf);
    if s.NeedMore? {
      OnTrackIsSafe(t, accept);
    } else {
      var t' := Next(t, DecodeNext);
      var p := OnDecode(ResultOf(s), t.accept);
      if s.Rejected? && !s.error.UnknownControl? {
        assert Drain(t.buf).items == [];
        BodyOfEnd(t.out, CodecFailed(s.error));
      } else {
        var item := if s.Decoded? then Got(s.frame) else Unknown(s.error.unknown);
        var rest := Drain(s.rest).items;
        assert Drain(t.buf) == Prepend(item, Drain(s.rest));
        assert ([item] + rest)[1..] == rest;
        assert Play([item] + rest, t.accept) == Then(p, rest);
        ItemKeeps(t, accept, item, rest);
      }
    }
  }

  /** The bookkeeping of one item, apart from the decoder. */
  lemma ItemKeeps(t: Task, accept: nat, item: Item, rest: seq<Item>)
    requires NoEnd(t.out)
    requires
      var q := Then(OnDecode(OutcomeOf(item), t.accept), rest);
      Due(t.received, accept) == Played(t.out + q.events, q.ended, q.accept)
    ensures
      var p := OnDecode(OutcomeOf(item), t.accept);
      var q := Play(rest, p.accept);
      var out := t.out + p.events;
      && NoEnd(Body(out))
      && Body(out) <= Due(t.received, accept).events
      && (!p.ended ==> NoEnd(out) && Due(t.received, accept) == Played(out + q.events, q.ended, q.accept))
  {
    hide OnDecode, Due, Play;
    var p := OnDecode(OutcomeOf(item), t.accept);
    OnDecodeShape(OutcomeOf(item), t.accept);
    var out := t.out + p.events;
    if p.ended {
      BodyOfMore(t.out, p.events);
    } else {
      NoEndJoins(t.out, p.events);
      var q := Play(rest, p.accept);
      Regroup(t.out, p.events, q.events);
    }
  }

  lemma BodyOfMore(out: seq<Event>, more: seq<Event>)
    requires NoEnd(out) && EndsOnce(more)
    ensures NoEnd(Body(out + more)) && Body(out + more) <= out + more
  {
    assert (out + more)[..|out + more| - 1] == out + more[..|more| - 1];
  }

  lemma NoEndJoins(a: seq<Event>, b: seq<Event>)
    requires NoEnd(a) && NoEnd(b)
    ensures NoEnd(a + b) && Body(a + b) == a + b
  {
  }

  lemma ReadKeeps(t: Task, accept: nat, chunk: seq<byte>)
    requires !t.done && OnTrack(t, accept)
    requires DecodeStep(t.buf).NeedMore?
    ensures OnTrack(t.(received := t.received + chunk, buf := t.buf + chunk), accept)
  {
    DrainSplit(t.received, chunk);
    assert Drain(t.buf) == Drained([], t.buf, None);
    assert t.out + [] == t.out;
    PlaySplit(Drain(t.received).items, Drain(t.buf + chunk).items, accept);
  }

  lemma StepKeeps(t: Task, accept: nat, step: TaskStep)
    requires Inv(t, accept)
    ensures Inv(Next(t, step), accept)
  {
    if !t.done {
      match step
      case DecodeNext => DecodeKeeps(t, accept);
      case ReadNext(outcome) =>
        if DecodeStep(t.buf).NeedMore? {
          var reason := EndReasonForReadOutcome(outcome);
          if reason.Some? {
            BodyOfEnd(t.out, reason.value);
          } else {
            ReadKeeps(t, accept, outcome.chunk);
            OnTrackIsSafe(Next(t, step), accept);
          }
        }
      case ConsumerClosed => BodyOfEnd(t.out, ConsumerDropped);
      case WriteEnded =>
    }
  }

  lemma {:induction false} RunKeeps(t: Task, accept: nat, steps: seq<TaskStep>)
    requires Inv(t, accept)
    ensures Inv(Run(t, steps), accept)
    decreases |steps|
  {
    if steps != [] {
      StepKeeps(t, accept, steps[0]);
      RunKeeps(Next(t, steps[0]), accept, steps[1..]);
    }
  }

  /** What is due so far is a prefix of the session of every longer stream. */
  lemma DueIsPrefix(received: seq<byte>, more: seq<byte>, accept: nat, close: Close)
    ensures Due(received, accept).events <= SessionEvents(received + more, accept, close)
  {
    DrainSplit(received, more);
    var d := Drain(received);
    if d.fatal.None? {
      PlaySplit(d.items, Drain(d.rest + more).items, accept);
    }
  }

  /** Over every run: at most one terminal event and nothing after it, and every other event is
      the one the byte stream calls for, whatever arrives later and however it closes. */
  lemma EveryRunIsSafe(remainder: seq<byte>, accept: nat, steps: seq<TaskStep>, more: seq<byte>, close: Close)
    ensures
      var t := Run(Start(remainder, accept), steps);
      && NoEnd(Body(t.out))
      && Body(t.out) <= SessionEvents(t.received + more, accept, close)
  {
    StartOnTrack(remainder, accept);
    RunKeeps(Start(remainder, accept), accept, steps);
    var t := Run(Start(remainder, accept), steps);
    DueIsPrefix(t.received, more, accept, close);
  }

  /** The bytes the network hands over in a run: a chunk counts when the task is in the race and waiting. */
  function Taken(t: Task, steps: seq<TaskStep>): (bytes: seq<byte>)
    decreases |steps|
  {
    if steps == [] then []
    else
      var s := steps[0];
      var chunk :=
        if !t.done && DecodeStep(t.buf).NeedMore? && s.ReadNext? && s.outcome.ReadBytes? then s.outcome.chunk else [];
      chunk + Taken(Next(t, s), steps[1..])
  }

  /** Every byte the network hands over is received, once and in order. */
  lemma {:induction false} RunReceives(t: Task, steps: seq<TaskStep>)
    ensures Run(t, steps).received == t.received + Taken(t, steps)
    decreases |steps|
  {
    hide DecodeStep, OnDecode;
    if steps == [] {
      AppendNothing(t.received);
    } else {
      var u := Next(t, steps[0]);
      RunReceives(u, steps[1..]);
      AppendNothing(t.received);
      Regroup(t.received, u.received[|t.received|..], Taken(u, steps[1..]));
    }
  }

  /** Nothing is withheld: a task that waits for the network has sent everything the bytes it received call
      for, and that does not end the session. */
  lemma NothingWithheld(remainder: seq<byte>, accept: nat, steps: seq<TaskStep>)
    requires
      var t := Run(Start(remainder, accept), steps);
      !t.done && DecodeStep(t.buf).NeedMore?
    ensures
      var t := Run(Start(remainder, accept), steps);
      var due := Due(remainder + Taken(Start(remainder, accept), steps), accept);
      t.out == due.events && !due.ended
  {
    hide DecodeStep, OnDecode, Next, NoEnd;
    StartOnTrack(remainder, accept);
    RunKeeps(Start(remainder, accept), accept, steps);
    RunReceives(Start(remainder, accept), steps);
    var t := Run(Start(remainder, accept), steps);
    assert Drain(t.buf) == Drained([], t.buf, None);
    AppendNothing(t.out);
  }

  // ----- how a race ends -----

  predicate IsCut(step: TaskStep) {
    step.ConsumerClosed? || step.WriteEnded?
  }

  ghost predicate Uncut(steps: seq<TaskStep>) {
    forall i :: 0 <= i < |steps| ==> !IsCut(steps[i])
  }

  lemma RunCons(t: Task, step: TaskStep, steps: seq<TaskStep>)
    ensures Run(t, [step] + steps) == Run(Next(t, step), steps)
  {
    assert ([step] + steps)[1..] == steps;
  }

  lemma UncutCons(step: TaskStep, steps: seq<TaskStep>)
    requires !IsCut(step) && Uncut(steps)
    ensures Uncut([step] + steps)
  {
  }

  /** What an uncut task still sends is the session of its buffer and of what the network brings. */
  lemma {:induction false} Finishes(t: Task, net: seq<ReadOutcome>) returns (steps: seq<TaskStep>)
    requires !t.done
    ensures Uncut(steps) && Run(t, steps).done
    ensures Run(t, steps).out == t.out + SessionEvents(t.buf + Stream(net), t.accept, Closing(net))
    decreases |net|, |t.buf|, t.done
  {
    hide SessionEvents, DecodeStep, OnDecode, Stream, Closing;
    var step := if DecodeStep(t.buf).NeedMore? then ReadNext(if net == [] then ReadBytes([]) else net[0]) else DecodeNext;
    var next := Next(t, step);
    if step.ReadNext? {
      ReadEvents(t.buf, net, t.accept);
      NetOnce(net);
    } else {
      StepFrom(t.out + SessionEvents(t.buf + Stream(net), t.accept, Closing(net)),
               t.out, t.buf, Stream(net), t.accept, Closing(net));
    }
    if next.done {
      steps := [];
    } else if step.ReadNext? {
      steps := Finishes(next, net[1..]);
    } else {
      Shorter(t);
      steps := Finishes(next, net);
    }
    RunCons(t, step, steps);
    UncutCons(step, steps);
    steps := [step] + steps;
  }

  lemma NetOnce(net: seq<ReadOutcome>)
    ensures net == [] || net[0].ReadError? || net[0].chunk == [] ==>
              Closing(net) == (if net != [] && net[0].ReadError? then ErrorClose(net[0].code) else CleanClose)
  {
  }

  lemma Shorter(t: Task)
    requires !t.done && !DecodeStep(t.buf).NeedMore? && !Next(t, DecodeNext).done
    ensures |Next(t, DecodeNext).buf| < |t.buf|
  {
  }

  /** The read task is one of the runs of the race: a race that is never cut off sends exactly the
      session of the byte stream, and ends. */
  lemma UncutRaceIsTheSession(remainder: seq<byte>, net: seq<ReadOutcome>, accept: nat)
    ensures exists steps :: Uncut(steps) && Run(Start(remainder, accept), steps).done
              && Run(Start(remainder, accept), steps).out == SessionEvents(remainder + Stream(net), accept, Closing(net))
  {
    hide SessionEvents, Run;
    var steps := Finishes(Start(remainder, accept), net);
    AppendNothing(SessionEvents(remainder + Stream(net), accept, Closing(net)));
  }

  lemma {:induction false} DoneStays(t: Task, steps: seq<TaskStep>)
    requires t.done
    ensures Run(t, steps) == t
    decreases |steps|
  {
    if steps != [] {
      DoneStays(t, steps[1..]);
    }
  }

  /** A cut is final: the consumer going away is reported and the write side's end is not, and whatever
      the network still brings, nothing more is sent. */
  lemma CutIsFinal(t: Task, cut: TaskStep, steps: seq<TaskStep>)
    requires !t.done && IsCut(cut)
    ensures
      var end := Run(t, [cut] + steps);
      && end.done && end.received == t.received
      && end.out == t.out + if cut.ConsumerClosed? then [SessionEnded(ConsumerDropped)] else []
  {
    hide Run;
    RunCons(t, cut, steps);
    DoneStays(Next(t, cut), steps);
    AppendNothing(t.out);
  }
}
