/**
  Eras of the actor: which effects in flight can still be consumed, and runs that stay in
  one era.
 */
module ActorEras {
  import opened Wrappers
  import opened Reducer
  import opened ActorRun

  // ----- what can still be consumed -----

  lemma RunSnoc(s: System, ops: seq<Op>, op: Op, limits: Limits, entropy: Entropy)
    ensures Run(s, ops + [op], limits, entropy) == Step(Run(s, ops, limits, entropy), op, limits, entropy)
    ensures Run(s, [], limits, entropy) == s
  {
    assert (ops + [op])[..|ops|] == ops;
  }

  ghost predicate SomeStranded(a: Actor) {
    exists i :: 0 <= i < |a.inflight| && Stranded(a, a.inflight[i])
  }

  /** With something in flight there is an era. */
  ghost predicate HasEra(a: Actor) {
    a.inflight != [] ==> a.epoch.Some?
  }

  lemma CommandHasEra(a: Actor, command: Command, entropy: Entropy)
    requires HasEra(a)
    ensures HasEra(HandleCommand(a, command, entropy))
  {
    hide Reduce, FenceEpoch, FenceEffect;
  }

  lemma CompletionHasEra(a: Actor, c: Completion, entropy: Entropy)
    requires HasEra(a)
    ensures HasEra(HandleCompletion(a, c, entropy))
  {
    hide Reduce, FenceEpoch, FenceEffect, FindLate;
  }

  lemma {:induction false} RunHasEra(s: System, ops: seq<Op>, limits: Limits, entropy: Entropy)
    requires HasEra(s.actor)
    ensures HasEra(Run(s, ops, limits, entropy).actor)
    decreases |ops|
  {
    hide RunCommands, RunCompletions;
    if ops != [] {
      RunHasEra(s, ops[..|ops| - 1], limits, entropy);
      var t := Run(s, ops[..|ops| - 1], limits, entropy);
      if ops[|ops| - 1].Pump? {
        CommandsHaveEra(t.actor, t.commands, entropy);
        CompletionsHaveEra(RunCommands(t.actor, t.commands, entropy), t.completions, entropy);
      }
    }
  }

  lemma {:induction false} CommandsHaveEra(a: Actor, cs: seq<Command>, entropy: Entropy)
    requires HasEra(a)
    ensures HasEra(RunCommands(a, cs, entropy))
    decreases |cs|
  {
    hide HandleCommand;
    if cs != [] {
      CommandHasEra(a, cs[0], entropy);
      CommandsHaveEra(HandleCommand(a, cs[0], entropy), cs[1..], entropy);
    }
  }

  lemma {:induction false} CompletionsHaveEra(a: Actor, cs: seq<Completion>, entropy: Entropy)
    requires HasEra(a)
    ensures HasEra(RunCompletions(a, cs, entropy))
    decreases |cs|
  {
    hide HandleCompletion;
    if cs != [] {
      CompletionHasEra(a, cs[0], entropy);
      CompletionsHaveEra(HandleCompletion(a, cs[0], entropy), cs[1..], entropy);
    }
  }

  /** The completion of an effect in flight consumes it if and only if the effect is of the current era. */
  lemma ConsumesHere(a: Actor, c: Completion, entropy: Entropy)
    requires EffectsInv(a, entropy) && HasEra(a) && c.fence in Fences(a.inflight)
    ensures c.fence in HandleCompletion(a, c, entropy).consumed <==> a.epoch == Some(FenceEpoch(c.fence))
  {
    hide HandleCompletion, FenceEpoch, EffectsInv;
    ConsumedOnce(a, entropy);
    if Foreign(a, c.fence) {
      ForeignCompletionIgnored(a, c, entropy);
    } else {
      CurrentCompletion(a, c, entropy);
    }
  }

  /** Runs that do not lose the host back into the era of this effect. */
  ghost predicate StaysAway(ops: seq<Op>, e: Effect) {
    forall i :: 0 <= i < |ops| ==> ops[i] != Submit(HostLost(FenceEpoch(e.fence)))
  }

  ghost predicate EverConsumed(s: System, ops: seq<Op>, e: Effect, limits: Limits, entropy: Entropy) {
    StaysAway(ops, e) && e.fence in Run(s, ops, limits, entropy).actor.consumed
  }

  /** Between pumps, an effect in flight can still be consumed, by some run that does not lose the host
      into its era, if and only if it is of the current era. */
  lemma ConsumableHere(s: System, e: Effect, limits: Limits, entropy: Entropy)
    requires Injective(entropy) && Inv(s.actor, entropy) && HasEra(s.actor)
    requires s.commands == [] && s.completions == [] && limits.completionMessages > 0
    requires e in s.actor.inflight
    ensures (exists ops :: EverConsumed(s, ops, e, limits, entropy)) <==> s.actor.epoch == Some(FenceEpoch(e.fence))
  {
    if Foreign(s.actor, e.fence) {
      forall ops | StaysAway(ops, e)
        ensures e.fence !in Run(s, ops, limits, entropy).actor.consumed
      {
        NeverConsumed(s, ops, e, limits, entropy);
      }
    } else {
      CompleteAndPump(s, Completion(e.fence, 0, ProvenNoEffect), e, limits, entropy);
    }
  }

  /** Where every run leads: the invariant and an era for whatever is in flight. */
  lemma ReachedIsSound(initial: State, drawn: nat, ops: seq<Op>, limits: Limits, entropy: Entropy)
    requires Injective(entropy)
    ensures
      var t := Run(System(Start(initial, drawn), [], []), ops, limits, entropy);
      Inv(t.actor, entropy) && HasEra(t.actor)
  {
    hide Inv, Run;
    var s := System(Start(initial, drawn), [], []);
    StartIsSafe(initial, drawn, entropy);
    RunKeeps(s, ops, limits, entropy);
    RunHasEra(s, ops, limits, entropy);
  }

  /** Over every run: the completion of an effect in flight consumes it if and only if the effect is of
      the current era. */
  lemma ConsumesIff(initial: State, drawn: nat, ops: seq<Op>, c: Completion, limits: Limits, entropy: Entropy)
    requires Injective(entropy)
    requires c.fence in Fences(Run(System(Start(initial, drawn), [], []), ops, limits, entropy).actor.inflight)
    ensures
      var a := Run(System(Start(initial, drawn), [], []), ops, limits, entropy).actor;
      c.fence in HandleCompletion(a, c, entropy).consumed <==> a.epoch == Some(FenceEpoch(c.fence))
  {
    hide Run, HandleCompletion, FenceEpoch;
    ReachedIsSound(initial, drawn, ops, limits, entropy);
    ConsumesHere(Run(System(Start(initial, drawn), [], []), ops, limits, entropy).actor, c, entropy);
  }

  /** After every run that ends in a pump: an effect in flight can still be consumed, by some further run
      that does not lose the host into its era, if and only if it is of the current era. */
  lemma ConsumableIff(initial: State, drawn: nat, ops: seq<Op>, e: Effect, limits: Limits, entropy: Entropy)
    requires Injective(entropy) && limits.completionMessages > 0
    requires e in Run(System(Start(initial, drawn), [], []), ops + [Pump], limits, entropy).actor.inflight
    ensures
      var t := Run(System(Start(initial, drawn), [], []), ops + [Pump], limits, entropy);
      (exists more :: EverConsumed(t, more, e, limits, entropy)) <==> t.actor.epoch == Some(FenceEpoch(e.fence))
  {
    hide Inv, FenceEpoch, RunCommands, RunCompletions;
    var s := System(Start(initial, drawn), [], []);
    RunSnoc(s, ops, Pump, limits, entropy);
    ReachedIsSound(initial, drawn, ops + [Pump], limits, entropy);
    hide Run;
    ConsumableHere(Run(s, ops + [Pump], limits, entropy), e, limits, entropy);
  }

  lemma NeverConsumed(s: System, ops: seq<Op>, e: Effect, limits: Limits, entropy: Entropy)
    requires Injective(entropy) && Inv(s.actor, entropy)
    requires s.commands == [] && s.completions == []
    requires Stranded(s.actor, e) && StaysAway(ops, e)
    ensures e.fence !in Run(s, ops, limits, entropy).actor.consumed
  {
    StrandedForever(s, ops, e, limits, entropy);
    hide Run, LateInv, ConnectInv, EffectsInv, FenceEpoch;
    RunKeeps(s, ops, limits, entropy);
    var t := Run(s, ops, limits, entropy).actor;
    ConsumedOnce(t, entropy);
    FenceOf(t.inflight, e);
  }

  lemma FenceOf(es: seq<Effect>, e: Effect)
    requires e in es
    ensures e.fence in Fences(es)
  {
    var i :| 0 <= i < |es| && es[i] == e;
    assert Fences(es)[i] == e.fence;
  }

  lemma CompleteAndPump(s: System, c: Completion, e: Effect, limits: Limits, entropy: Entropy)
    requires Injective(entropy) && Inv(s.actor, entropy) && HasEra(s.actor)
    requires s.commands == [] && s.completions == [] && limits.completionMessages > 0
    requires e in s.actor.inflight && c.fence == e.fence && s.actor.epoch == Some(FenceEpoch(e.fence))
    ensures EverConsumed(s, [CompleteEffect(c)] + [Pump], e, limits, entropy)
  {
    FenceOf(s.actor.inflight, e);
    ConsumesHere(s.actor, c, entropy);
    hide HandleCompletion, FenceEpoch, EffectsInv, LateInv, ConnectInv;
    RunSnoc(s, [], CompleteEffect(c), limits, entropy);
    RunSnoc(s, [CompleteEffect(c)], Pump, limits, entropy);
    assert [] + [CompleteEffect(c)] == [CompleteEffect(c)];
    hide Run;
    PumpOne(s.actor, c, entropy);
    assert [] + [c] == [c];
  }

  lemma PumpOne(a: Actor, c: Completion, entropy: Entropy)
    ensures Pumped(System(a, [], [c]), entropy) == System(HandleCompletion(a, c, entropy), [], [])
  {
    hide HandleCompletion;
    assert [c][1..] == [];
    assert RunCompletions(a, [c], entropy) == RunCompletions(HandleCompletion(a, c, entropy), [], entropy);
  }

  // ----- one era -----

  /** What of a state can fence an effect belongs to this era. */
  predicate StateOf(s: State, era: Id) {
    match s
    case AwaitingInteraction(_, p) => p.epoch == era
    case Connected(session) => session.attempt.epoch == era
    case Stopping(_, _, queued) => queued.Some? ==> queued.value.key.epoch == era
    case _ => true
  }

  predicate CommandOf(c: Command, era: Id) {
    (c.Connect? ==> c.intent.key.epoch == era) && (c.HostLost? ==> c.epoch == era)
  }

  ghost predicate OneEra(a: Actor, era: Id) {
    && StateOf(a.state, era)
    && (a.epoch.Some? ==> a.epoch.value == era)
    && (forall i :: 0 <= i < |a.inflight| ==> FenceEpoch(a.inflight[i].fence) == era)
  }

  lemma ReduceOneEra(s: State, c: Command, inputs: Inputs, era: Id)
    requires StateOf(s, era) && CommandOf(c, era)
    ensures
      var d := Reduce(s, c, inputs);
      StateOf(d.next, era) && forall i :: 0 <= i < |d.effects| ==> FenceEpoch(d.effects[i].fence) == era
  {
  }

  lemma CommandOneEra(a: Actor, c: Command, era: Id, entropy: Entropy)
    requires OneEra(a, era) && CommandOf(c, era)
    ensures OneEra(HandleCommand(a, c, entropy), era)
  {
    if !c.HostLost? {
      ReduceOneEra(a.state, c, FreshInputs(entropy, a.drawn, Outstanding(c)), era);
      hide Reduce, StateOf, FenceEpoch;
    }
  }

  lemma CompletionOneEra(a: Actor, c: Completion, era: Id, entropy: Entropy)
    requires OneEra(a, era)
    ensures OneEra(HandleCompletion(a, c, entropy), era)
  {
    hide FindLate, FenceEffect, FenceEpoch;
  }

  lemma {:induction false} CommandsOneEra(a: Actor, cs: seq<Command>, era: Id, entropy: Entropy)
    requires OneEra(a, era) && forall i :: 0 <= i < |cs| ==> CommandOf(cs[i], era)
    ensures OneEra(RunCommands(a, cs, entropy), era)
    decreases |cs|
  {
    hide HandleCommand, OneEra, CommandOf;
    if cs != [] {
      CommandOneEra(a, cs[0], era, entropy);
      CommandsOneEra(HandleCommand(a, cs[0], entropy), cs[1..], era, entropy);
    }
  }

  lemma {:induction false} CompletionsOneEra(a: Actor, cs: seq<Completion>, era: Id, entropy: Entropy)
    requires OneEra(a, era)
    ensures OneEra(RunCompletions(a, cs, entropy), era)
    decreases |cs|
  {
    hide HandleCompletion, OneEra;
    if cs != [] {
      CompletionOneEra(a, cs[0], era, entropy);
      CompletionsOneEra(HandleCompletion(a, cs[0], entropy), cs[1..], era, entropy);
    }
  }

  lemma {:induction false} RunOneEra(s: System, ops: seq<Op>, era: Id, limits: Limits, entropy: Entropy)
    requires OneEra(s.actor, era)
    requires forall i :: 0 <= i < |s.commands| ==> CommandOf(s.commands[i], era)
    requires forall i :: 0 <= i < |ops| && ops[i].Submit? ==> CommandOf(ops[i].command, era)
    ensures
      var t := Run(s, ops, limits, entropy);
      OneEra(t.actor, era) && forall i :: 0 <= i < |t.commands| ==> CommandOf(t.commands[i], era)
    decreases |ops|
  {
    hide RunCommands, RunCompletions, CommandOf, OneEra;
    if ops != [] {
      RunOneEra(s, ops[..|ops| - 1], era, limits, entropy);
      var t := Run(s, ops[..|ops| - 1], limits, entropy);
      match ops[|ops| - 1]
      case Pump =>
        CommandsOneEra(t.actor, t.commands, era, entropy);
        CompletionsOneEra(RunCommands(t.actor, t.commands, entropy), t.completions, era, entropy);
      case Register(owner, cleanup) =>
        RegisterOneEra(t.actor, owner, cleanup, era);
      case _ =>
    }
  }

  lemma RegisterOneEra(a: Actor, owner: CleanupRef, cleanup: Id, era: Id)
    requires OneEra(a, era)
    ensures OneEra(RegisterLate(a, owner, cleanup), era)
  {
  }

  /** If every Connect and every lost host of a run carry one era, and so does what the initial state
      holds, then nothing is ever stranded. */
  lemma OneEraStrandsNothing(initial: State, drawn: nat, ops: seq<Op>, era: Id, limits: Limits, entropy: Entropy)
    requires StateOf(initial, era)
    requires forall i :: 0 <= i < |ops| && ops[i].Submit? ==> CommandOf(ops[i].command, era)
    ensures !SomeStranded(Run(System(Start(initial, drawn), [], []), ops, limits, entropy).actor)
  {
    hide Run, FenceEpoch;
    RunOneEra(System(Start(initial, drawn), [], []), ops, era, limits, entropy);
  }
}
