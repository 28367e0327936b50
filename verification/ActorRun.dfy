/**
  The runtime actor over whole runs: commands and completions are folded into one state,
  with the effects in flight, the current era and the registered late cleanups. What the
  scheduler was handed, which fences were consumed and which cleanups ran are kept as
  histories, so that the guarantees speak about everything that ever happened.

  Identities come from an entropy source; the n-th one drawn is `entropy(n)`.
 */
module ActorRun {
  import opened Wrappers
  import opened Reducer

  type Entropy = nat -> Id

  datatype LateHandle = LateHandle(owner: CleanupRef, cleanup: Option<Id>, consumed: bool)

  datatype Actor = Actor(
    state: State,
    inflight: seq<Effect>,
    epoch: Option<Id>,
    late: seq<LateHandle>,
    drawn: nat,
    scheduled: seq<Effect>,
    consumed: seq<Fence>,
    cleaned: seq<nat>)

  function Start(initial: State, drawn: nat): Actor {
    Actor(initial, [], None, [], drawn, [], [], [])
  }

  // ----- the steps -----

  function FreshInputs(entropy: Entropy, drawn: nat, outstanding: seq<Id>): Inputs {
    Inputs(entropy(drawn + 3), entropy(drawn), entropy(drawn + 1), entropy(drawn + 2), entropy(drawn + 4), outstanding)
  }

  function Commit(a: Actor, es: seq<Effect>): Actor {
    a.(epoch := if a.epoch.Some? || es == [] then a.epoch else Some(FenceEpoch(es[0].fence)),
       inflight := a.inflight + es,
       scheduled := a.scheduled + es)
  }

  function Apply(a: Actor, command: Command, outstanding: seq<Id>, entropy: Entropy): Actor {
    var d := Reduce(a.state, command, FreshInputs(entropy, a.drawn, outstanding));
    Commit(a.(state := d.next, drawn := a.drawn + 5), d.effects)
  }

  function LostKey(epoch: Id, operation: Id): LookupKey {
    LookupKey(1, 0, epoch, operation)
  }

  function LostEffect(epoch: Id, attemptId: Id, effect: Id): Effect {
    Effect(OfAttemptFence(AttemptFence(epoch, attemptId, effect)), StopProtocol(11))
  }

  /** Losing the host starts a new era and a teardown of its own, whatever the state was. */
  function LoseHost(a: Actor, epoch: Id, entropy: Entropy): Actor {
    var key := LostKey(epoch, entropy(a.drawn + 2));
    var attempt := Attempt(epoch, entropy(a.drawn), ConnectIntent(key, 2, 3));
    Commit(
      a.(epoch := Some(epoch), state := Stopping(attempt, StopIntent(key, 2), None), drawn := a.drawn + 3),
      [LostEffect(epoch, entropy(a.drawn), entropy(a.drawn + 1))])
  }

  function Outstanding(command: Command): seq<Id> {
    if command.EffectCompleted? then [FenceEffect(command.completion.fence)] else []
  }

  function HandleCommand(a: Actor, command: Command, entropy: Entropy): Actor {
    if command.HostLost? then LoseHost(a, command.epoch, entropy)
    else Apply(a, command, Outstanding(command), entropy)
  }

  /** The first effect in flight under this fence, or one past the end. */
  function Position(es: seq<Effect>, f: Fence): (i: nat)
    ensures i <= |es|
    ensures i < |es| ==> es[i].fence == f
    ensures forall j :: 0 <= j < i ==> es[j].fence != f
  {
    if es == [] then 0 else if es[0].fence == f then 0 else 1 + Position(es[1..], f)
  }

  function Without<T>(s: seq<T>, i: nat): seq<T>
    requires i < |s|
  {
    s[..i] + s[i + 1..]
  }

  function EnterReconciling(a: Actor, obligation: Obligation, entropy: Entropy): Actor {
    if a.epoch.Some? then
      a.(state := Reconciling(Startup(a.epoch.value, entropy(a.drawn)), obligation), drawn := a.drawn + 1)
    else
      a.(state := Reconciling(Startup(entropy(a.drawn), entropy(a.drawn + 1)), obligation), drawn := a.drawn + 2)
  }

  function OwnObligation(epoch: Id): Obligation {
    Obligation(epoch, VpnError(EffectUnknown, RuntimeSubject(epoch)), 5)
  }

  function RequestReconcile(a: Actor, entropy: Entropy): Actor {
    EnterReconciling(a.(drawn := a.drawn + 1), OwnObligation(entropy(a.drawn)), entropy)
  }

  function FindLate(late: seq<LateHandle>, owner: CleanupRef): (i: nat)
    ensures i <= |late|
    ensures i < |late| ==> late[i].owner == owner
    ensures forall j :: 0 <= j < i ==> late[j].owner != owner
  {
    if late == [] then 0 else if late[0].owner == owner then 0 else 1 + FindLate(late[1..], owner)
  }

  function ConsumeLate(a: Actor, owner: CleanupRef): Actor {
    var i := FindLate(a.late, owner);
    if i == |a.late| || a.late[i].consumed then a
    else
      a.(late := a.late[i := LateHandle(owner, None, true)],
         cleaned := if a.late[i].cleanup.Some? then a.cleaned + [i] else a.cleaned)
  }

  function ApplyStale(a: Actor, d: StaleDisposition, entropy: Entropy): Actor {
    match d
    case ProvenNoEffect => a
    case AcquiredEphemeralResource(owner) =>
      var b := ConsumeLate(a, owner);
      if owner.kind == PacketLateHandle then RequestReconcile(b, entropy) else b
    case JournaledExternalEffect(_) => RequestReconcile(a, entropy)
    case UnknownResourceAcquisition(obligation) => EnterReconciling(a, obligation, entropy)
  }

  predicate Foreign(a: Actor, f: Fence) {
    a.epoch.Some? && FenceEpoch(f) != a.epoch.value
  }

  function HandleCompletion(a: Actor, c: Completion, entropy: Entropy): Actor {
    if Foreign(a, c.fence) then a
    else
      var i := Position(a.inflight, c.fence);
      if i < |a.inflight| then
        Apply(a.(inflight := Without(a.inflight, i), consumed := a.consumed + [c.fence]), EffectCompleted(c), [FenceEffect(c.fence)], entropy)
      else ApplyStale(a, c.stale, entropy)
  }

  function RunCommands(a: Actor, cs: seq<Command>, entropy: Entropy): Actor
    decreases |cs|
  {
    if cs == [] then a else RunCommands(HandleCommand(a, cs[0], entropy), cs[1..], entropy)
  }

  function RunCompletions(a: Actor, cs: seq<Completion>, entropy: Entropy): Actor
    decreases |cs|
  {
    if cs == [] then a else RunCompletions(HandleCompletion(a, cs[0], entropy), cs[1..], entropy)
  }

  function RegisterLate(a: Actor, owner: CleanupRef, cleanup: Id): Actor {
    a.(late := a.late + [LateHandle(owner, Some(cleanup), false)])
  }

  // ----- what every reachable actor keeps -----

  ghost predicate Injective(entropy: Entropy) {
    forall i: nat, j: nat :: i != j ==> entropy(i) != entropy(j)
  }

  function Fences(es: seq<Effect>): (r: seq<Fence>)
    ensures |r| == |es| && forall i :: 0 <= i < |es| ==> r[i] == es[i].fence
  {
    seq(|es|, i requires 0 <= i < |es| => es[i].fence)
  }

  ghost predicate DistinctIds(es: seq<Effect>) {
    forall i, j :: 0 <= i < j < |es| ==> FenceEffect(es[i].fence) != FenceEffect(es[j].fence)
  }

  /** No identity still to be drawn has been used. */
  ghost predicate Unused(es: seq<Effect>, entropy: Entropy, drawn: nat) {
    forall i, k: nat :: 0 <= i < |es| && k >= drawn ==> FenceEffect(es[i].fence) != entropy(k)
  }

  ghost predicate AllConsistent(es: seq<Effect>) {
    forall i :: 0 <= i < |es| ==> FenceIsConsistent(es[i])
  }

  /** Everything scheduled is in flight or was consumed, once. */
  ghost predicate Conserved(a: Actor) {
    multiset(Fences(a.scheduled)) == multiset(Fences(a.inflight)) + multiset(a.consumed)
  }

  ghost predicate EffectsInv(a: Actor, entropy: Entropy) {
    && DistinctIds(a.scheduled)
    && Unused(a.scheduled, entropy, a.drawn)
    && AllConsistent(a.scheduled)
    && Conserved(a)
  }

  ghost predicate NoRepeats<T>(s: seq<T>) {
    forall i, j :: 0 <= i < j < |s| ==> s[i] != s[j]
  }

  /** A cleanup ran exactly if its entry is consumed, at most once, and only the first entry registered
      for a resource ever does. */
  ghost predicate LateInv(a: Actor) {
    && NoRepeats(a.cleaned)
    && (forall i :: i in a.cleaned ==> i < |a.late|)
    && (forall i :: 0 <= i < |a.late| ==> (a.late[i].consumed <==> i in a.cleaned))
    && (forall i :: 0 <= i < |a.late| ==> (a.late[i].consumed <==> a.late[i].cleanup.None?))
    && (forall i, j :: 0 <= i < j < |a.late| && a.late[i].owner == a.late[j].owner ==> !a.late[j].consumed)
  }

  predicate Rested(s: State) {
    s.Idle? || s.FailedClean?
  }

  /** A protocol connection is started at most once, and only by leaving a rested state. */
  ghost predicate ConnectInv(a: Actor) {
    && (forall i, j :: 0 <= i < j < |a.scheduled| ==> !(a.scheduled[i].request.ConnectProtocol? && a.scheduled[j].request.ConnectProtocol?))
    && (Rested(a.state) ==> forall i :: 0 <= i < |a.scheduled| ==> !a.scheduled[i].request.ConnectProtocol?)
  }

  ghost predicate Inv(a: Actor, entropy: Entropy) {
    EffectsInv(a, entropy) && LateInv(a) && ConnectInv(a)
  }

  lemma FencesAppend(a: seq<Effect>, b: seq<Effect>)
    ensures Fences(a + b) == Fences(a) + Fences(b)
  {
  }

  /** Effects whose identities are freshly drawn keep the history sound. */
  lemma CommitKeepsEffects(a: Actor, b: Actor, es: seq<Effect>, entropy: Entropy)
    requires Injective(entropy) && EffectsInv(a, entropy)
    requires b.inflight == a.inflight && b.scheduled == a.scheduled && b.consumed == a.consumed
    requires b.drawn >= a.drawn + |es|
    requires DistinctIds(es) && AllConsistent(es) && Unused(es, entropy, b.drawn)
    requires forall i, j :: 0 <= i < |a.scheduled| && 0 <= j < |es| ==> FenceEffect(a.scheduled[i].fence) != FenceEffect(es[j].fence)
    ensures EffectsInv(Commit(b, es), entropy)
  {
    hide FenceEffect, FenceEpoch, FenceIsConsistent;
    FencesAppend(a.scheduled, es);
    FencesAppend(a.inflight, es);
  }

  /** The reducer numbers its effects with the three identities drawn for it. */
  lemma ReducedIds(s: State, command: Command, entropy: Entropy, drawn: nat, outstanding: seq<Id>)
    ensures
      var es := Reduce(s, command, FreshInputs(entropy, drawn, outstanding)).effects;
      |es| <= 3 && AllConsistent(es) && forall i :: 0 <= i < |es| ==> FenceEffect(es[i].fence) == entropy(drawn + i)
  {
    var inputs := FreshInputs(entropy, drawn, outstanding);
    EmittedEffectsAreFenced(s, command, inputs);
    var es := Reduce(s, command, inputs).effects;
    hide Reduce, FenceEffect, FenceIsConsistent;
    forall i | 0 <= i < |es|
      ensures FenceEffect(es[i].fence) == entropy(drawn + i)
    {
      assert EffectIds(es)[i] == IssuedEffects(inputs)[i];
    }
  }

  lemma ApplyKeepsEffects(a: Actor, command: Command, outstanding: seq<Id>, entropy: Entropy)
    requires Injective(entropy) && EffectsInv(a, entropy)
    ensures EffectsInv(Apply(a, command, outstanding, entropy), entropy)
  {
    ReducedIds(a.state, command, entropy, a.drawn, outstanding);
    hide Reduce, FenceEffect, FenceIsConsistent, AllConsistent, Conserved, FreshInputs;
    var d := Reduce(a.state, command, FreshInputs(entropy, a.drawn, outstanding));
    assert Conserved(a);
    CommitKeepsEffects(a, a.(state := d.next, drawn := a.drawn + 5), d.effects, entropy);
  }

  lemma LoseHostKeepsEffects(a: Actor, epoch: Id, entropy: Entropy)
    requires Injective(entropy) && EffectsInv(a, entropy)
    ensures EffectsInv(LoseHost(a, epoch, entropy), entropy)
  {
    hide Conserved;
    var e := LostEffect(epoch, entropy(a.drawn), entropy(a.drawn + 1));
    var key := LostKey(epoch, entropy(a.drawn + 2));
    var attempt := Attempt(epoch, entropy(a.drawn), ConnectIntent(key, 2, 3));
    assert FenceEffect(e.fence) == entropy(a.drawn + 1);
    CommitKeepsEffects(a, a.(epoch := Some(epoch), state := Stopping(attempt, StopIntent(key, 2), None), drawn := a.drawn + 3), [e], entropy);
  }

  lemma WithoutMultiset<T>(s: seq<T>, i: nat)
    requires i < |s|
    ensures multiset(s) == multiset(Without(s, i)) + multiset{s[i]}
  {
    assert s == s[..i] + [s[i]] + s[i + 1..];
  }

  /** Consuming a fence moves it from the effects in flight to the consumed ones. */
  lemma ConsumeKeepsEffects(a: Actor, i: nat, entropy: Entropy)
    requires EffectsInv(a, entropy) && i < |a.inflight|
    ensures EffectsInv(a.(inflight := Without(a.inflight, i), consumed := a.consumed + [a.inflight[i].fence]), entropy)
  {
    hide FenceEffect, FenceIsConsistent, AllConsistent, Unused, DistinctIds;
    var f := a.inflight[i].fence;
    WithoutMultiset(Fences(a.inflight), i);
    assert Fences(Without(a.inflight, i)) == Without(Fences(a.inflight), i);
  }

  lemma EnterKeepsEffects(a: Actor, obligation: Obligation, entropy: Entropy)
    requires EffectsInv(a, entropy)
    ensures EffectsInv(EnterReconciling(a, obligation, entropy), entropy)
    ensures EffectsInv(RequestReconcile(a, entropy), entropy)
  {
    hide FenceEffect, FenceIsConsistent, AllConsistent, DistinctIds;
  }

  lemma CompletionKeepsEffects(a: Actor, c: Completion, entropy: Entropy)
    requires Injective(entropy) && EffectsInv(a, entropy)
    ensures EffectsInv(HandleCompletion(a, c, entropy), entropy)
  {
    var i := Position(a.inflight, c.fence);
    if Foreign(a, c.fence) {
    } else if i < |a.inflight| {
      hide Apply, EffectsInv;
      ConsumeKeepsEffects(a, i, entropy);
      ApplyKeepsEffects(a.(inflight := Without(a.inflight, i), consumed := a.consumed + [c.fence]), EffectCompleted(c), [FenceEffect(c.fence)], entropy);
    } else {
      StaleKeepsEffects(a, c.stale, entropy);
    }
  }

  lemma StaleKeepsEffects(a: Actor, d: StaleDisposition, entropy: Entropy)
    requires EffectsInv(a, entropy)
    ensures EffectsInv(ApplyStale(a, d, entropy), entropy)
  {
    hide FenceEffect, FenceIsConsistent, AllConsistent, DistinctIds, Unused, Fences, EnterReconciling, RequestReconcile;
    match d
    case AcquiredEphemeralResource(owner) =>
      EnterKeepsEffects(ConsumeLate(a, owner), OwnObligation(0), entropy);
    case JournaledExternalEffect(_) =>
      EnterKeepsEffects(a, OwnObligation(0), entropy);
    case UnknownResourceAcquisition(obligation) =>
      EnterKeepsEffects(a, obligation, entropy);
    case _ =>
  }

  // ----- late cleanups -----

  lemma ConsumeLateKeeps(a: Actor, owner: CleanupRef)
    requires LateInv(a)
    ensures LateInv(ConsumeLate(a, owner))
  {
    var i := FindLate(a.late, owner);
    if i < |a.late| && !a.late[i].consumed {
      assert i !in a.cleaned;
      var b := ConsumeLate(a, owner);
      assert b.cleaned == a.cleaned + [i];
      forall j | 0 <= j < |b.late|
        ensures b.late[j].consumed <==> j in b.cleaned
      {
        assert j in b.cleaned <==> j in a.cleaned || j == i;
      }
    }
  }

  lemma CompletionKeepsLate(a: Actor, c: Completion, entropy: Entropy)
    requires LateInv(a)
    ensures LateInv(HandleCompletion(a, c, entropy))
  {
    hide LateInv, Reduce, FindLate, ConsumeLate;
    if c.stale.AcquiredEphemeralResource? {
      ConsumeLateKeeps(a, c.stale.cleanup);
      LateFrame(a, c.stale.cleanup);
    }
    var b := HandleCompletion(a, c, entropy);
    var from := if c.stale.AcquiredEphemeralResource? then ConsumeLate(a, c.stale.cleanup) else a;
    assert (b.late == a.late && b.cleaned == a.cleaned) || (b.late == from.late && b.cleaned == from.cleaned);
    if b.late == a.late && b.cleaned == a.cleaned {
      SameLate(a, b);
    } else {
      SameLate(from, b);
    }
  }

  lemma LateFrame(a: Actor, owner: CleanupRef)
    ensures ConsumeLate(a, owner).(late := a.late, cleaned := a.cleaned) == a
  {
  }

  lemma SameLate(a: Actor, b: Actor)
    requires LateInv(a) && b.late == a.late && b.cleaned == a.cleaned
    ensures LateInv(b)
  {
  }

  // ----- the connection is started once -----

  lemma ReduceConnects(s: State, command: Command, inputs: Inputs)
    ensures
      var d := Reduce(s, command, inputs);
      && (forall i :: 0 <= i < |d.effects| && d.effects[i].request.ConnectProtocol? ==> i == 0 && Rested(s) && !Rested(d.next))
      && (Rested(d.next) ==> Rested(s) && d.effects == [])
  {
  }

  lemma ApplyKeepsConnect(a: Actor, command: Command, outstanding: seq<Id>, entropy: Entropy)
    requires ConnectInv(a)
    ensures ConnectInv(Apply(a, command, outstanding, entropy))
  {
    ReduceConnects(a.state, command, FreshInputs(entropy, a.drawn, outstanding));
    hide Reduce, Rested;
  }

  lemma CommandKeeps(a: Actor, command: Command, entropy: Entropy)
    requires Injective(entropy) && Inv(a, entropy)
    ensures Inv(HandleCommand(a, command, entropy), entropy)
  {
    hide EffectsInv, LateInv, ConnectInv, Reduce;
    var b := HandleCommand(a, command, entropy);
    SameLate(a, b);
    if command.HostLost? {
      LoseHostKeepsEffects(a, command.epoch, entropy);
      LoseHostKeepsConnect(a, command.epoch, entropy);
    } else {
      ApplyKeepsEffects(a, command, Outstanding(command), entropy);
      ApplyKeepsConnect(a, command, Outstanding(command), entropy);
    }
  }

  lemma LoseHostKeepsConnect(a: Actor, epoch: Id, entropy: Entropy)
    requires ConnectInv(a)
    ensures ConnectInv(LoseHost(a, epoch, entropy))
  {
  }

  lemma CompletionKeepsConnect(a: Actor, c: Completion, entropy: Entropy)
    requires ConnectInv(a)
    ensures ConnectInv(HandleCompletion(a, c, entropy))
  {
    var i := Position(a.inflight, c.fence);
    if !Foreign(a, c.fence) && i < |a.inflight| {
      hide Apply;
      ApplyKeepsConnect(a.(inflight := Without(a.inflight, i), consumed := a.consumed + [c.fence]), EffectCompleted(c), [FenceEffect(c.fence)], entropy);
    } else {
      hide FindLate, FenceEffect, FenceEpoch;
    }
  }

  lemma CompletionKeeps(a: Actor, c: Completion, entropy: Entropy)
    requires Injective(entropy) && Inv(a, entropy)
    ensures Inv(HandleCompletion(a, c, entropy), entropy)
  {
    hide EffectsInv, LateInv, ConnectInv, HandleCompletion;
    CompletionKeepsEffects(a, c, entropy);
    CompletionKeepsLate(a, c, entropy);
    CompletionKeepsConnect(a, c, entropy);
  }

  lemma RegisterKeeps(a: Actor, owner: CleanupRef, cleanup: Id, entropy: Entropy)
    requires Inv(a, entropy)
    ensures Inv(RegisterLate(a, owner, cleanup), entropy)
  {
    hide DistinctIds, Unused, AllConsistent, Fences, ConnectInv;
    var b := RegisterLate(a, owner, cleanup);
    assert ConnectInv(b) by { SameConnect(a, b); }
    assert |a.late| !in a.cleaned;
  }

  lemma SameConnect(a: Actor, b: Actor)
    requires ConnectInv(a) && b.state == a.state && b.scheduled == a.scheduled
    ensures ConnectInv(b)
  {
  }

  // ----- whole runs -----

  datatype System = System(actor: Actor, commands: seq<Command>, completions: seq<Completion>)

  datatype Limits = Limits(commandMessages: nat, completionMessages: nat)

  datatype Op = Submit(command: Command) | CompleteEffect(completion: Completion) | Register(owner: CleanupRef, cleanup: Id) | Pump

  /** A mailbox takes what fits and drops the rest. */
  function Sent<T>(items: seq<T>, item: T, capacity: nat): seq<T> {
    if |items| >= capacity then items else items + [item]
  }

  /** Commands are drained before completions. */
  function Pumped(s: System, entropy: Entropy): System {
    System(RunCompletions(RunCommands(s.actor, s.commands, entropy), s.completions, entropy), [], [])
  }

  function Step(s: System, op: Op, limits: Limits, entropy: Entropy): System {
    match op
    case Submit(command) => s.(commands := Sent(s.commands, command, limits.commandMessages))
    case CompleteEffect(completion) => s.(completions := Sent(s.completions, completion, limits.completionMessages))
    case Register(owner, cleanup) => s.(actor := RegisterLate(s.actor, owner, cleanup))
    case Pump => Pumped(s, entropy)
  }

  function Run(s: System, ops: seq<Op>, limits: Limits, entropy: Entropy): System {
    if ops == [] then s
    else Step(Run(s, ops[..|ops| - 1], limits, entropy), ops[|ops| - 1], limits, entropy)
  }

  lemma {:induction false} CommandsKeep(a: Actor, cs: seq<Command>, entropy: Entropy)
    requires Injective(entropy) && Inv(a, entropy)
    ensures Inv(RunCommands(a, cs, entropy), entropy)
    decreases |cs|
  {
    hide Inv, HandleCommand;
    if cs != [] {
      CommandKeeps(a, cs[0], entropy);
      CommandsKeep(HandleCommand(a, cs[0], entropy), cs[1..], entropy);
    }
  }

  lemma {:induction false} CompletionsKeep(a: Actor, cs: seq<Completion>, entropy: Entropy)
    requires Injective(entropy) && Inv(a, entropy)
    ensures Inv(RunCompletions(a, cs, entropy), entropy)
    decreases |cs|
  {
    hide Inv, HandleCompletion;
    if cs != [] {
      CompletionKeeps(a, cs[0], entropy);
      CompletionsKeep(HandleCompletion(a, cs[0], entropy), cs[1..], entropy);
    }
  }

  lemma {:induction false} RunKeeps(s: System, ops: seq<Op>, limits: Limits, entropy: Entropy)
    requires Injective(entropy) && Inv(s.actor, entropy)
    requires |s.commands| <= limits.commandMessages && |s.completions| <= limits.completionMessages
    ensures
      var t := Run(s, ops, limits, entropy);
      Inv(t.actor, entropy) && |t.commands| <= limits.commandMessages && |t.completions| <= limits.completionMessages
    decreases |ops|
  {
    hide Inv, HandleCompletion, HandleCommand, RunCommands, RunCompletions, RegisterLate;
    if ops != [] {
      RunKeeps(s, ops[..|ops| - 1], limits, entropy);
      var t := Run(s, ops[..|ops| - 1], limits, entropy);
      match ops[|ops| - 1]
      case Register(owner, cleanup) => RegisterKeeps(t.actor, owner, cleanup, entropy);
      case Pump =>
        CommandsKeep(t.actor, t.commands, entropy);
        CompletionsKeep(RunCommands(t.actor, t.commands, entropy), t.completions, entropy);
      case _ =>
    }
  }

  lemma MultisetNoRepeats<T>(s: seq<T>)
    requires forall x :: multiset(s)[x] <= 1
    ensures NoRepeats(s)
  {
    forall i, j | 0 <= i < j < |s|
      ensures s[i] != s[j]
    {
      assert s == s[..j] + [s[j]] + s[j + 1..];
      assert multiset(s) == multiset(s[..j]) + multiset{s[j]} + multiset(s[j + 1..]);
      assert s[i] == s[..j][i] && s[i] in multiset(s[..j]);
      assert multiset(s)[s[j]] == multiset(s[..j])[s[j]] + 1 + multiset(s[j + 1..])[s[j]];
    }
  }

  lemma {:induction false} NoRepeatsMultiset<T>(s: seq<T>, x: T)
    requires NoRepeats(s)
    ensures multiset(s)[x] <= 1
  {
    if s != [] {
      var n := |s| - 1;
      assert s == s[..n] + [s[n]];
      NoRepeatsMultiset(s[..n], x);
      if x == s[n] {
        assert x !in s[..n];
      }
    }
  }

  /** Of what was ever scheduled, no fence is twice in flight, none is consumed twice, and a consumed
      fence is in flight no more. */
  lemma ConsumedOnce(a: Actor, entropy: Entropy)
    requires EffectsInv(a, entropy)
    ensures NoRepeats(Fences(a.inflight))
    ensures NoRepeats(a.consumed)
    ensures forall f :: f in a.consumed ==> f in Fences(a.scheduled) && f !in Fences(a.inflight)
  {
    var all, flying, done := Fences(a.scheduled), Fences(a.inflight), a.consumed;
    assert NoRepeats(all);
    forall f
      ensures multiset(all)[f] <= 1
    {
      NoRepeatsMultiset(all, f);
    }
    assert forall f :: multiset(all)[f] == multiset(flying)[f] + multiset(done)[f];
    MultisetNoRepeats(flying);
    MultisetNoRepeats(done);
    forall f | f in done
      ensures f in all && f !in flying
    {
      assert f in multiset(done);
      assert f in multiset(all);
    }
  }

  /** Over every run from any initial state, with identities that never repeat. */
  lemma EveryRunIsSafe(initial: State, drawn: nat, ops: seq<Op>, limits: Limits, entropy: Entropy)
    requires Injective(entropy)
    ensures
      var t := Run(System(Start(initial, drawn), [], []), ops, limits, entropy);
      && NoRepeats(Fences(t.actor.inflight))
      && NoRepeats(t.actor.consumed)
      && (forall f :: f in t.actor.consumed ==> f in Fences(t.actor.scheduled) && f !in Fences(t.actor.inflight))
      && AllConsistent(t.actor.scheduled)
      && LateInv(t.actor)
      && ConnectInv(t.actor)
      && |t.commands| <= limits.commandMessages
      && |t.completions| <= limits.completionMessages
  {
    var s := System(Start(initial, drawn), [], []);
    StartIsSafe(initial, drawn, entropy);
    hide LateInv, ConnectInv, EffectsInv, Run, AllConsistent, Fences;
    RunKeeps(s, ops, limits, entropy);
    ConsumedOnce(Run(s, ops, limits, entropy).actor, entropy);
    assert EffectsInv(Run(s, ops, limits, entropy).actor, entropy);
    ConsistentOf(Run(s, ops, limits, entropy).actor, entropy);
  }

  lemma StartIsSafe(initial: State, drawn: nat, entropy: Entropy)
    ensures Inv(Start(initial, drawn), entropy)
  {
    assert Fences([]) == [];
  }

  lemma ConsistentOf(a: Actor, entropy: Entropy)
    requires EffectsInv(a, entropy)
    ensures AllConsistent(a.scheduled)
  {
  }

  // ----- where a run can go -----

  /** A run only moves onwards: from rest, to an attempt, to teardown or recovery. */
  function Rank(s: State): nat {
    if Rested(s) then 0 else if s.Stopping? || s.Reconciling? then 2 else 1
  }

  /** From a state no attempt has completed in, none is ever seen connected. */
  predicate NeverConnected(s: State) {
    s.Idle? || s.Connecting? || s.Stopping? || s.Reconciling?
  }

  /** Onwards, and never to an established session that was not there before. */
  ghost predicate Onwards(a: State, b: State) {
    Rank(a) <= Rank(b) && (NeverConnected(a) ==> NeverConnected(b)) && (b.Connected? ==> a == b)
  }

  lemma CommandMovesOn(a: Actor, command: Command, entropy: Entropy)
    ensures Onwards(a.state, HandleCommand(a, command, entropy).state)
  {
  }

  lemma CompletionMovesOn(a: Actor, c: Completion, entropy: Entropy)
    ensures Onwards(a.state, HandleCompletion(a, c, entropy).state)
  {
    hide Position, FindLate, FenceEpoch, FenceEffect;
  }

  lemma {:induction false} CommandsMoveOn(a: Actor, cs: seq<Command>, entropy: Entropy)
    ensures Onwards(a.state, RunCommands(a, cs, entropy).state)
    decreases |cs|
  {
    hide HandleCommand;
    if cs != [] {
      CommandMovesOn(a, cs[0], entropy);
      CommandsMoveOn(HandleCommand(a, cs[0], entropy), cs[1..], entropy);
    }
  }

  lemma {:induction false} CompletionsMoveOn(a: Actor, cs: seq<Completion>, entropy: Entropy)
    ensures Onwards(a.state, RunCompletions(a, cs, entropy).state)
    decreases |cs|
  {
    hide HandleCompletion;
    if cs != [] {
      CompletionMovesOn(a, cs[0], entropy);
      CompletionsMoveOn(HandleCompletion(a, cs[0], entropy), cs[1..], entropy);
    }
  }

  /** Over every run the state only moves onwards: teardown is never left for a new attempt, a session
      seen connected was connected all along, and a run from rest never connects. */
  lemma {:induction false} RunMovesOn(s: System, ops: seq<Op>, limits: Limits, entropy: Entropy)
    ensures Onwards(s.actor.state, Run(s, ops, limits, entropy).actor.state)
    decreases |ops|
  {
    hide RunCommands, RunCompletions;
    if ops != [] {
      RunMovesOn(s, ops[..|ops| - 1], limits, entropy);
      var t := Run(s, ops[..|ops| - 1], limits, entropy);
      if ops[|ops| - 1].Pump? {
        CommandsMoveOn(t.actor, t.commands, entropy);
        CompletionsMoveOn(RunCommands(t.actor, t.commands, entropy), t.completions, entropy);
      }
    }
  }

  // ----- eras -----

  /** A completion of another era changes nothing at all, whatever it carries. */
  lemma ForeignCompletionIgnored(a: Actor, c: Completion, entropy: Entropy)
    requires Foreign(a, c.fence)
    ensures HandleCompletion(a, c, entropy) == a
  {
  }

  /** A completion of this era is consumed exactly if its effect is in flight; consuming it removes
      that effect alone and leaves the state, the schedule and the cleanups as they were. */
  lemma CurrentCompletion(a: Actor, c: Completion, entropy: Entropy)
    requires NoRepeats(Fences(a.inflight)) && !Foreign(a, c.fence) && c.fence in Fences(a.inflight)
    ensures
      var b := HandleCompletion(a, c, entropy);
      && multiset(Fences(a.inflight)) == multiset(Fences(b.inflight)) + multiset{c.fence}
      && b.consumed == a.consumed + [c.fence]
      && b.state == a.state && b.scheduled == a.scheduled && b.epoch == a.epoch
      && b.late == a.late && b.cleaned == a.cleaned
  {
    var i := Position(a.inflight, c.fence);
    assert i < |a.inflight|;
    WithoutMultiset(Fences(a.inflight), i);
    assert Fences(Without(a.inflight, i)) == Without(Fences(a.inflight), i);
    assert Without(a.inflight, i) + [] == Without(a.inflight, i);
  }

  /** A completion runs a late cleanup if and only if it is stale in this era, names a registered
      resource and that resource's first entry has not been consumed; it runs that entry's, once. */
  lemma LateCleanupRunsIff(a: Actor, c: Completion, entropy: Entropy)
    requires LateInv(a)
    ensures
      var b := HandleCompletion(a, c, entropy);
      var stale := !Foreign(a, c.fence) && c.fence !in Fences(a.inflight);
      var i := if c.stale.AcquiredEphemeralResource? then FindLate(a.late, c.stale.cleanup) else |a.late|;
      b.cleaned == if stale && i < |a.late| && !a.late[i].consumed then a.cleaned + [i] else a.cleaned
  {
    hide Reduce, FenceEpoch, FenceEffect, LateInv;
    assert c.fence in Fences(a.inflight) <==> Position(a.inflight, c.fence) < |a.inflight| by {
      PositionIff(a.inflight, c.fence);
    }
    if c.stale.AcquiredEphemeralResource? {
      UnconsumedHasCleanup(a, FindLate(a.late, c.stale.cleanup));
    }
  }

  lemma PositionIff(es: seq<Effect>, f: Fence)
    ensures f in Fences(es) <==> Position(es, f) < |es|
  {
    if Position(es, f) < |es| {
      assert Fences(es)[Position(es, f)] == f;
    }
  }

  lemma UnconsumedHasCleanup(a: Actor, i: nat)
    requires LateInv(a)
    ensures i < |a.late| && !a.late[i].consumed ==> a.late[i].cleanup.Some?
  {
  }

  ghost predicate SameEra(a: Actor) {
    forall i :: 0 <= i < |a.inflight| ==> !Foreign(a, a.inflight[i].fence)
  }

  function CompletionFences(cs: seq<Completion>): (r: seq<Fence>) {
    if cs == [] then [] else [cs[0].fence] + CompletionFences(cs[1..])
  }

  /** Completions of everything in flight drain it, in whatever order they arrive. */
  lemma {:induction false} CompletionsDrain(a: Actor, cs: seq<Completion>, entropy: Entropy)
    requires Injective(entropy) && Inv(a, entropy) && SameEra(a)
    requires multiset(CompletionFences(cs)) == multiset(Fences(a.inflight))
    ensures
      var b := RunCompletions(a, cs, entropy);
      && b.inflight == [] && b.state == a.state && b.scheduled == a.scheduled
      && b.consumed == a.consumed + CompletionFences(cs)
    decreases |cs|
  {
    hide HandleCompletion, EffectsInv, LateInv, ConnectInv, SameEra;
    if cs == [] {
      NoFences(a.inflight);
    } else {
      var c := cs[0];
      ConsumedOnce(a, entropy);
      assert CompletionFences(cs) == [c.fence] + CompletionFences(cs[1..]);
      FirstOfMultiset(c.fence, CompletionFences(cs[1..]));
      assert c.fence in multiset(Fences(a.inflight));
      InThisEra(a, c.fence);
      CurrentCompletion(a, c, entropy);
      CompletionKeeps(a, c, entropy);
      var b := HandleCompletion(a, c, entropy);
      FewerInEra(a, b, c.fence);
      SameRest(multiset(CompletionFences(cs[1..])), multiset(Fences(b.inflight)), c.fence);
      CompletionsDrain(b, cs[1..], entropy);
    }
  }

  lemma FirstOfMultiset<T>(x: T, s: seq<T>)
    ensures multiset([x] + s) == multiset(s) + multiset{x}
  {
  }

  lemma SameRest<T>(a: multiset<T>, b: multiset<T>, x: T)
    requires a + multiset{x} == b + multiset{x}
    ensures a == b
  {
    assert a == (a + multiset{x}) - multiset{x};
    assert b == (b + multiset{x}) - multiset{x};
  }

  lemma NoFences(es: seq<Effect>)
    requires multiset(Fences(es)) == multiset{}
    ensures es == []
  {
    assert |multiset(Fences(es))| == |es|;
  }

  lemma InThisEra(a: Actor, f: Fence)
    requires SameEra(a) && f in Fences(a.inflight)
    ensures !Foreign(a, f)
  {
  }

  lemma FewerInEra(a: Actor, b: Actor, f: Fence)
    requires SameEra(a) && b.epoch == a.epoch
    requires multiset(Fences(a.inflight)) == multiset(Fences(b.inflight)) + multiset{f}
    ensures SameEra(b)
  {
    forall i | 0 <= i < |b.inflight|
      ensures !Foreign(b, b.inflight[i].fence)
    {
      var g := Fences(b.inflight)[i];
      assert g in multiset(Fences(b.inflight));
      assert g in multiset(Fences(a.inflight));
      InThisEra(a, g);
    }
  }

  ghost predicate Stranded(a: Actor, e: Effect) {
    e in a.inflight && Foreign(a, e.fence)
  }

  ghost predicate NoReturn(cs: seq<Command>, epoch: Id) {
    forall i :: 0 <= i < |cs| ==> cs[i] != HostLost(epoch)
  }

  lemma CommandStrands(a: Actor, command: Command, e: Effect, entropy: Entropy)
    requires Stranded(a, e) && command != HostLost(FenceEpoch(e.fence))
    ensures Stranded(HandleCommand(a, command, entropy), e)
  {
    hide Reduce, FenceEpoch, FenceEffect;
  }

  lemma CompletionStrands(a: Actor, c: Completion, e: Effect, entropy: Entropy)
    requires Stranded(a, e)
    ensures Stranded(HandleCompletion(a, c, entropy), e)
  {
    hide Reduce, FenceEpoch, FenceEffect, FindLate;
    var i := Position(a.inflight, c.fence);
    var k :| 0 <= k < |a.inflight| && a.inflight[k] == e;
    if !Foreign(a, c.fence) && i < |a.inflight| {
      assert k != i;
      assert e in Without(a.inflight, i) by {
        assert k < i ==> Without(a.inflight, i)[k] == e;
        assert k > i ==> Without(a.inflight, i)[k - 1] == e;
      }
    }
  }

  lemma {:induction false} CommandsStrand(a: Actor, cs: seq<Command>, e: Effect, entropy: Entropy)
    requires Stranded(a, e) && NoReturn(cs, FenceEpoch(e.fence))
    ensures Stranded(RunCommands(a, cs, entropy), e)
    decreases |cs|
  {
    hide HandleCommand, Stranded, FenceEpoch;
    if cs != [] {
      CommandStrands(a, cs[0], e, entropy);
      CommandsStrand(HandleCommand(a, cs[0], entropy), cs[1..], e, entropy);
    }
  }

  lemma {:induction false} CompletionsStrand(a: Actor, cs: seq<Completion>, e: Effect, entropy: Entropy)
    requires Stranded(a, e)
    ensures Stranded(RunCompletions(a, cs, entropy), e)
    decreases |cs|
  {
    hide HandleCompletion, Stranded;
    if cs != [] {
      CompletionStrands(a, cs[0], e, entropy);
      CompletionsStrand(HandleCompletion(a, cs[0], entropy), cs[1..], e, entropy);
    }
  }

  /** An effect in flight under another era is never consumed: it stays in flight over every run that
      does not lose the host back to its own era. */
  lemma {:induction false} StrandedForever(s: System, ops: seq<Op>, e: Effect, limits: Limits, entropy: Entropy)
    requires Stranded(s.actor, e) && NoReturn(s.commands, FenceEpoch(e.fence))
    requires forall i :: 0 <= i < |ops| ==> ops[i] != Submit(HostLost(FenceEpoch(e.fence)))
    ensures
      var t := Run(s, ops, limits, entropy);
      Stranded(t.actor, e) && NoReturn(t.commands, FenceEpoch(e.fence))
    decreases |ops|
  {
    hide RunCommands, RunCompletions, FenceEpoch;
    if ops != [] {
      StrandedForever(s, ops[..|ops| - 1], e, limits, entropy);
      var t := Run(s, ops[..|ops| - 1], limits, entropy);
      if ops[|ops| - 1].Pump? {
        CommandsStrand(t.actor, t.commands, e, entropy);
        CompletionsStrand(RunCommands(t.actor, t.commands, entropy), t.completions, e, entropy);
      }
    }
  }
}
