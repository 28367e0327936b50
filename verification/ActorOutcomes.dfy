/**
  What the actor's two ways out of the ordinary lead to: a completion that comes too late,
  and the loss of the host. Also which era the actor is in, over whole runs.
 */
module ActorOutcomes {
  import opened Wrappers
  import opened Reducer
  import opened ActorRun
  import opened ActorEras
  import opened ActorResources

  /** An identity drawn between two states, and at which draw. */
  ghost predicate DrawnAt(id: Id, k: nat, a: Actor, b: Actor, entropy: Entropy) {
    a.drawn <= k < b.drawn && id == entropy(k)
  }

  /** A completion of this era whose effect is not in flight. */
  predicate IsLate(a: Actor, c: Completion) {
    !Foreign(a, c.fence) && c.fence !in Fences(a.inflight)
  }

  lemma LateIsStale(a: Actor, c: Completion, entropy: Entropy)
    requires IsLate(a, c)
    ensures HandleCompletion(a, c, entropy) == ApplyStale(a, c.stale, entropy)
  {
    PositionIff(a.inflight, c.fence);
  }

  /** A late completion never touches what is scheduled, in flight or consumed, nor the era. It leaves the
      state alone unless it may have left something behind; then the actor reconciles, in its own era if it
      has one, under a recovery identity of its own. An unknown acquisition brings its own obligation, and
      for the others the actor states one, under yet another identity: the effect is unknown. */
  lemma LateCompletion(a: Actor, c: Completion, entropy: Entropy)
    requires IsLate(a, c)
    ensures
      var b := HandleCompletion(a, c, entropy);
      && b.inflight == a.inflight && b.scheduled == a.scheduled && b.consumed == a.consumed && b.epoch == a.epoch
      && (!Recovers(c.stale) ==> b.state == a.state && b.drawn == a.drawn)
      && (Recovers(c.stale) ==>
            && b.state.Reconciling? && b.state.context.Startup?
            && (a.epoch.Some? ==> b.state.context.epoch == a.epoch.value)
            && DrawnAt(b.state.context.recovery, b.drawn - 1, a, b, entropy)
            && (a.epoch.None? ==> DrawnAt(b.state.context.epoch, b.drawn - 2, a, b, entropy))
            && if c.stale.UnknownResourceAcquisition? then b.state.obligation == c.stale.obligation
               else
                 && DrawnAt(b.state.obligation.epoch, a.drawn, a, b, entropy)
                 && b.drawn == a.drawn + (if a.epoch.Some? then 2 else 3)
                 && b.state.obligation.blocker == VpnError(EffectUnknown, RuntimeSubject(b.state.obligation.epoch)))
  {
    hide HandleCompletion, ConsumeLate;
    LateIsStale(a, c, entropy);
    if c.stale.AcquiredEphemeralResource? {
      LateFrame(a, c.stale.cleanup);
    }
  }

  /** The effect stops the protocol under the fence of an attempt. */
  predicate Stops(e: Effect, attempt: Attempt) {
    && e.request.StopProtocol? && e.fence.OfAttemptFence?
    && FencedAttempt(e.fence) == Some((attempt.epoch, attempt.attemptId))
  }

  /** Losing the host, in whatever state: the actor is in the lost host's era, stops an attempt of that era
      that nothing has used before, and schedules one effect, which stops the protocol under that attempt's
      fence. Nothing waits behind it. */
  lemma HostLossTearsDown(a: Actor, epoch: Id, entropy: Entropy)
    ensures
      var b := HandleCommand(a, HostLost(epoch), entropy);
      && b.epoch == Some(epoch) && b.state.Stopping? && b.state.queued == None
      && b.state.attempt.epoch == epoch && b.state.attempt.intent.key.epoch == epoch
      && b.state.stop.key == b.state.attempt.intent.key && b.state.stop.digest == b.state.attempt.intent.digest
      && DrawnAt(b.state.attempt.attemptId, a.drawn, a, b, entropy)
      && DrawnAt(b.state.stop.key.operation, a.drawn + 2, a, b, entropy)
      && |b.scheduled| == |a.scheduled| + 1 && a.scheduled <= b.scheduled
      && b.inflight == a.inflight + [b.scheduled[|a.scheduled|]]
      && Stops(b.scheduled[|a.scheduled|], b.state.attempt)
      && DrawnAt(FenceEffect(b.scheduled[|a.scheduled|].fence), a.drawn + 1, a, b, entropy)
      && b.consumed == a.consumed && b.late == a.late && b.cleaned == a.cleaned
  {
  }

  /** Any other command runs the reducer once, on identities drawn for it alone, and commits what it decides. */
  lemma CommandReduces(a: Actor, command: Command, entropy: Entropy)
    requires !command.HostLost?
    ensures
      var b := HandleCommand(a, command, entropy);
      exists inputs: Inputs ::
        && b.state == Reduce(a.state, command, inputs).next
        && b.scheduled == a.scheduled + Reduce(a.state, command, inputs).effects
        && b.inflight == a.inflight + Reduce(a.state, command, inputs).effects
        && DrawnAt(inputs.effect0, a.drawn, a, b, entropy) && DrawnAt(inputs.effect1, a.drawn + 1, a, b, entropy)
        && DrawnAt(inputs.effect2, a.drawn + 2, a, b, entropy) && DrawnAt(inputs.attempt, a.drawn + 3, a, b, entropy)
        && DrawnAt(inputs.interaction, a.drawn + 4, a, b, entropy)
  {
    hide Reduce;
    var inputs := FreshInputs(entropy, a.drawn, Outstanding(command));
    var b := HandleCommand(a, command, entropy);
    assert b.state == Reduce(a.state, command, inputs).next;
  }

  // ----- the era -----

  /** The era is that of the first effect ever scheduled. */
  ghost predicate FirstEra(a: Actor) {
    a.epoch == if a.scheduled == [] then None else Some(FenceEpoch(a.scheduled[0].fence))
  }

  lemma CommandFirstEra(a: Actor, command: Command, entropy: Entropy)
    requires FirstEra(a) && !command.HostLost?
    ensures FirstEra(HandleCommand(a, command, entropy))
  {
    hide Reduce, FenceEpoch;
  }

  lemma CompletionFirstEra(a: Actor, c: Completion, entropy: Entropy)
    requires FirstEra(a)
    ensures FirstEra(HandleCompletion(a, c, entropy))
  {
    hide Reduce, FenceEpoch;
    if c.stale.AcquiredEphemeralResource? {
      LateFrame(a, c.stale.cleanup);
    }
    hide ConsumeLate;
  }

  lemma {:induction false} CommandsFirstEra(a: Actor, cs: seq<Command>, entropy: Entropy)
    requires FirstEra(a) && forall i :: 0 <= i < |cs| ==> !cs[i].HostLost?
    ensures FirstEra(RunCommands(a, cs, entropy))
    decreases |cs|
  {
    hide HandleCommand, FirstEra;
    if cs != [] {
      CommandFirstEra(a, cs[0], entropy);
      CommandsFirstEra(HandleCommand(a, cs[0], entropy), cs[1..], entropy);
    }
  }

  lemma {:induction false} CompletionsFirstEra(a: Actor, cs: seq<Completion>, entropy: Entropy)
    requires FirstEra(a)
    ensures FirstEra(RunCompletions(a, cs, entropy))
    decreases |cs|
  {
    hide HandleCompletion, FirstEra;
    if cs != [] {
      CompletionFirstEra(a, cs[0], entropy);
      CompletionsFirstEra(HandleCompletion(a, cs[0], entropy), cs[1..], entropy);
    }
  }

  /** Over every run in which no host is lost, the era is that of the first effect ever scheduled, and there
      is none before. A lost host moves the actor into its own. */
  lemma {:induction false} EraOfRun(s: System, ops: seq<Op>, limits: Limits, entropy: Entropy)
    requires FirstEra(s.actor) && forall i :: 0 <= i < |s.commands| ==> !s.commands[i].HostLost?
    requires forall i :: 0 <= i < |ops| && ops[i].Submit? ==> !ops[i].command.HostLost?
    ensures FirstEra(Run(s, ops, limits, entropy).actor)
    ensures forall i :: 0 <= i < |Run(s, ops, limits, entropy).commands| ==> !Run(s, ops, limits, entropy).commands[i].HostLost?
    decreases |ops|
  {
    hide FirstEra, RunCommands, RunCompletions;
    if ops != [] {
      var front, op := ops[..|ops| - 1], ops[|ops| - 1];
      EraOfRun(s, front, limits, entropy);
      var t := Run(s, front, limits, entropy);
      if op.Pump? {
        CommandsFirstEra(t.actor, t.commands, entropy);
        CompletionsFirstEra(RunCommands(t.actor, t.commands, entropy), t.completions, entropy);
      } else if op.Register? {
        RegisterFirstEra(t.actor, op.owner, op.cleanup);
      }
    }
  }

  lemma RegisterFirstEra(a: Actor, owner: CleanupRef, cleanup: Id)
    requires FirstEra(a)
    ensures FirstEra(RegisterLate(a, owner, cleanup))
  {
  }

  // ----- the inboxes -----

  function Submitted(ops: seq<Op>): seq<Command> {
    if ops == [] then []
    else Submitted(ops[..|ops| - 1]) + if ops[|ops| - 1].Submit? then [ops[|ops| - 1].command] else []
  }

  function Completed(ops: seq<Op>): seq<Completion> {
    if ops == [] then []
    else Completed(ops[..|ops| - 1]) + if ops[|ops| - 1].CompleteEffect? then [ops[|ops| - 1].completion] else []
  }

  function First<T>(items: seq<T>, n: nat): seq<T> {
    if |items| <= n then items else items[..n]
  }

  lemma FirstSent<T>(items: seq<T>, x: T, n: nat)
    ensures Sent(First(items, n), x, n) == First(items + [x], n)
    ensures First(items + [], n) == First(items, n)
  {
    assert items + [] == items;
  }

  /** Until it is pumped, each inbox holds the first messages sent to it that fit, in the order they were
      sent, and drops the rest; neither touches the other or the state of the actor. */
  lemma {:induction false} InboxesHold(a: Actor, ops: seq<Op>, limits: Limits, entropy: Entropy)
    requires forall i :: 0 <= i < |ops| ==> !ops[i].Pump?
    ensures
      var t := Run(System(a, [], []), ops, limits, entropy);
      && t.commands == First(Submitted(ops), limits.commandMessages)
      && t.completions == First(Completed(ops), limits.completionMessages)
      && t.actor.(late := a.late) == a
    decreases |ops|
  {
    hide First;
    if ops == [] {
      NothingFirst<Command>(limits.commandMessages);
      NothingFirst<Completion>(limits.completionMessages);
    } else {
      hide Sent;
      var front, op := ops[..|ops| - 1], ops[|ops| - 1];
      InboxesHold(a, front, limits, entropy);
      if op.Submit? {
        FirstSent(Submitted(front), op.command, limits.commandMessages);
      } else if op.CompleteEffect? {
        FirstSent(Completed(front), op.completion, limits.completionMessages);
      }
      assert Completed(front) + [] == Completed(front) && Submitted(front) + [] == Submitted(front);
    }
  }

  lemma NothingFirst<T>(n: nat)
    ensures First<T>([], n) == []
  {
  }

  /** A pump then takes them all, the commands before the completions, and leaves both inboxes empty. */
  lemma PumpTakesAll(a: Actor, ops: seq<Op>, limits: Limits, entropy: Entropy)
    requires forall i :: 0 <= i < |ops| ==> !ops[i].Pump? && !ops[i].Register?
    ensures
      var t := Run(System(a, [], []), ops + [Pump], limits, entropy);
      && t.commands == [] && t.completions == []
      && t.actor == RunCompletions(RunCommands(a, First(Submitted(ops), limits.commandMessages), entropy),
                                   First(Completed(ops), limits.completionMessages), entropy)
  {
    hide Submitted, Completed, First, RunCommands, RunCompletions, Run;
    InboxesHold(a, ops, limits, entropy);
    NoHandles(a, ops, limits, entropy);
    RunSnoc(System(a, [], []), ops, Pump, limits, entropy);
  }

  lemma {:induction false} NoHandles(a: Actor, ops: seq<Op>, limits: Limits, entropy: Entropy)
    requires forall i :: 0 <= i < |ops| ==> !ops[i].Pump? && !ops[i].Register?
    ensures Run(System(a, [], []), ops, limits, entropy).actor == a
    decreases |ops|
  {
    if ops != [] {
      NoHandles(a, ops[..|ops| - 1], limits, entropy);
    }
  }
}
