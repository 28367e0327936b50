/**
  The pure transition of the connection runtime: a state, a command and freshly issued
  identities give the next state, the effects to run, the operation outcomes and the
  events. Digests, identities and platform references are plain identifiers.
 */
module Reducer {
  import opened Wrappers

  type Id = nat

  datatype LookupKey = LookupKey(principal: Id, callMethod: Id, epoch: Id, operation: Id)
  datatype ConnectIntent = ConnectIntent(key: LookupKey, digest: Id, profile: Id)
  datatype StopIntent = StopIntent(key: LookupKey, digest: Id)
  datatype Attempt = Attempt(epoch: Id, attemptId: Id, intent: ConnectIntent)
  datatype Prompt = Prompt(interaction: Id, epoch: Id, attemptId: Id, deadline: nat)
  datatype ConnectedSession = ConnectedSession(attempt: Attempt, protocolSession: Id, ownership: Id, lease: Id)
  datatype Context = Startup(epoch: Id, recovery: Id) | OfAttempt(cause: Id, attempt: Attempt)
  datatype Obligation = Obligation(epoch: Id, blocker: VpnError, inventory: Id)
  datatype Subject = ExternalSubject(key: LookupKey) | AttemptSubject(epoch: Id, attemptId: Id) | RuntimeSubject(epoch: Id)
  datatype ErrorCode = IdempotencyConflict | ConnectInProgress | SessionBusy | ReconnectAlreadyQueued | EffectUnknown | OtherCode(code: Id)
  datatype VpnError = VpnError(code: ErrorCode, subject: Subject)
  datatype Phase = ConnectingControl | LaterPhase(phase: Id)

  datatype State =
    | Idle(lastCleanup: Option<Id>)
    | Connecting(attempt: Attempt, phase: Phase)
    | AwaitingInteraction(attempt: Attempt, prompt: Prompt)
    | Connected(session: ConnectedSession)
    | Stopping(attempt: Attempt, stop: StopIntent, queued: Option<ConnectIntent>)
    | Reconciling(context: Context, obligation: Obligation)
    | FailedClean(lastError: VpnError, proof: Id)
    | FailedDirty(lastError: VpnError, context: Context, obligation: Obligation)

  // ----- effects and their fences -----

  datatype AttemptFence = AttemptFence(epoch: Id, attemptId: Id, effect: Id)
  datatype OwnedFence = OwnedFence(attemptEffect: AttemptFence, ownership: Id)

  datatype RecoveryFence =
    | Observe(epoch: Id, recovery: Id, effect: Id)
    | OwnedRecovery(epoch: Id, recovery: Id, effect: Id, ownership: Id)
    | Retirement(epoch: Id, recovery: Id, effect: Id, retirement: Id, ownership: Id)

  datatype Fence =
    | ExternalFence(epoch: Id, effect: Id, key: LookupKey, digest: Id)
    | OfAttemptFence(attemptFence: AttemptFence)
    | OfOwnedFence(owned: OwnedFence)
    | InteractionFence(attemptFence: AttemptFence, interaction: Id, deadline: nat)
    | OfRecoveryFence(recoveryFence: RecoveryFence)

  datatype PacketStopFence = Active(owned: OwnedFence) | InRecovery(epoch: Id, recovery: Id, retirement: Id, ownership: Id)

  datatype Request =
    | AcquireOwnership(fence: AttemptFence)
    | ConnectProtocol(intent: ConnectIntent)
    | ApplyTunnel(owned: OwnedFence)
    | StopProtocol(protocolSession: Id)
    | StopPacket(packetFence: PacketStopFence, lease: Id)
    | BeginPlatformStop(key: LookupKey, digest: Id, origin: Subject, epoch: Id, ownership: Id)
    | RevokeInteraction
    | RevokeQueuedConnect(intent: ConnectIntent)
    | OtherRequest(request: Id)

  datatype Effect = Effect(fence: Fence, request: Request)

  function FenceEpoch(f: Fence): Id {
    match f
    case ExternalFence(epoch, _, _, _) => epoch
    case OfAttemptFence(a) => a.epoch
    case OfOwnedFence(o) => o.attemptEffect.epoch
    case InteractionFence(a, _, _) => a.epoch
    case OfRecoveryFence(r) => r.epoch
  }

  function FenceEffect(f: Fence): Id {
    match f
    case ExternalFence(_, effect, _, _) => effect
    case OfAttemptFence(a) => a.effect
    case OfOwnedFence(o) => o.attemptEffect.effect
    case InteractionFence(a, _, _) => a.effect
    case OfRecoveryFence(r) => r.effect
  }

  /** The effect a request's own fence names, when it carries one. */
  function InnerEffect(r: Request): Option<Id> {
    match r
    case AcquireOwnership(f) => Some(f.effect)
    case ApplyTunnel(o) => Some(o.attemptEffect.effect)
    case StopPacket(f, _) => if f.Active? then Some(f.owned.attemptEffect.effect) else None
    case _ => None
  }

  /** The scheduler runs an effect only if its two fences name the same effect. */
  predicate FenceIsConsistent(e: Effect) {
    var inner := InnerEffect(e.request);
    inner.Some? ==> inner.value == FenceEffect(e.fence)
  }

  // ----- commands and decisions -----

  datatype EphemeralKind = PlatformOwnershipToken | ProtocolLateHandle | PacketLateHandle | DataPlaneTask
  datatype CleanupRef = CleanupRef(effect: Id, kind: EphemeralKind)

  datatype StaleDisposition =
    | ProvenNoEffect
    | AcquiredEphemeralResource(cleanup: CleanupRef)
    | JournaledExternalEffect(operation: Id)
    | UnknownResourceAcquisition(obligation: Obligation)

  datatype Completion = Completion(fence: Fence, outcome: Id, stale: StaleDisposition)

  datatype Command =
    | Connect(intent: ConnectIntent)
    | RespondInteraction(key: LookupKey, digest: Id, interaction: Id)
    | Stop(stopIntent: StopIntent)
    | Reconcile(key: LookupKey, digest: Id)
    | HostLost(epoch: Id)
    | PlatformOwnerLost(ownerLease: Id)
    | PacketRelayLost(lease: Id)
    | EffectCompleted(completion: Completion)

  datatype Inputs = Inputs(attempt: Id, effect0: Id, effect1: Id, effect2: Id, interaction: Id, outstanding: seq<Id>)

  datatype Disposition =
    | Accepted
    | AcceptedQueued
    | AlreadyCurrent
    | AlreadyStopped(proof: Option<Id>)
    | CancelledBeforeStart
    | Failed(error: VpnError)
    | RequiresReconcile(obligation: Obligation)

  datatype Outcome = Outcome(key: LookupKey, digest: Id, disposition: Disposition)
  datatype Event = InteractionRevoked(interaction: Id, subject: Subject) | ErrorObserved(error: VpnError)
  datatype Decision = Decision(next: State, effects: seq<Effect>, outcomes: seq<Outcome>, events: seq<Event>)

  // ----- the transition -----

  function OpError(code: ErrorCode, key: LookupKey): VpnError {
    VpnError(code, ExternalSubject(key))
  }

  function Leaf(next: State, intent: ConnectIntent, d: Disposition): Decision {
    Decision(next, [], [Outcome(intent.key, intent.digest, d)], [])
  }

  /** What a Connect hears while `current` is live: idempotent, conflicting or busy. */
  function ConnectDisposition(current: ConnectIntent, intent: ConnectIntent, busy: ErrorCode): Disposition {
    if current == intent then AlreadyCurrent
    else if current.key == intent.key then Failed(OpError(IdempotencyConflict, intent.key))
    else Failed(OpError(busy, intent.key))
  }

  function StartConnect(intent: ConnectIntent, inputs: Inputs, events: seq<Event>): Decision {
    var epoch := intent.key.epoch;
    Decision(
      Connecting(Attempt(epoch, inputs.attempt, intent), ConnectingControl),
      [Effect(OfAttemptFence(AttemptFence(epoch, inputs.attempt, inputs.effect0)), ConnectProtocol(intent))],
      [Outcome(intent.key, intent.digest, Accepted)],
      events)
  }

  function ReduceConnect(s: State, intent: ConnectIntent, inputs: Inputs): Decision {
    match s
    case Idle(_) => StartConnect(intent, inputs, [])
    case FailedClean(e, _) => StartConnect(intent, inputs, [ErrorObserved(e)])
    case Connecting(a, _) => Leaf(s, intent, ConnectDisposition(a.intent, intent, ConnectInProgress))
    case AwaitingInteraction(a, _) => Leaf(s, intent, ConnectDisposition(a.intent, intent, ConnectInProgress))
    case Connected(session) => Leaf(s, intent, ConnectDisposition(session.attempt.intent, intent, SessionBusy))
    case Stopping(a, stop, queued) =>
      if queued.None? then Leaf(Stopping(a, stop, Some(intent)), intent, AcceptedQueued)
      else if queued.value.key == intent.key && queued.value.digest == intent.digest then Leaf(s, intent, AlreadyCurrent)
      else Leaf(s, intent, Failed(OpError(ReconnectAlreadyQueued, intent.key)))
    case Reconciling(_, obligation) => Leaf(s, intent, RequiresReconcile(obligation))
    case FailedDirty(_, _, obligation) => Leaf(s, intent, RequiresReconcile(obligation))
  }

  /** Tearing a live session down: protocol, packets and platform, each under its own fence. */
  function TeardownEffects(session: ConnectedSession, inputs: Inputs): seq<Effect> {
    var a := session.attempt;
    var owned := OwnedFence(AttemptFence(a.epoch, a.attemptId, inputs.effect1), session.ownership);
    [ Effect(OfAttemptFence(AttemptFence(a.epoch, a.attemptId, inputs.effect0)), StopProtocol(session.protocolSession)),
      Effect(OfOwnedFence(owned), StopPacket(Active(owned), session.lease)),
      Effect(ExternalFence(a.epoch, inputs.effect2, a.intent.key, a.intent.digest),
             BeginPlatformStop(a.intent.key, a.intent.digest, AttemptSubject(a.epoch, a.attemptId), a.epoch, session.ownership)) ]
  }

  function ReduceStop(s: State, stop: StopIntent, inputs: Inputs): Decision {
    match s
    case Idle(_) => Decision(s, [], [Outcome(stop.key, stop.digest, AlreadyStopped(None))], [])
    case Connecting(a, _) => Decision(Stopping(a, stop, None), [], [], [])
    case AwaitingInteraction(a, p) =>
      Decision(
        Stopping(a, stop, None),
        [Effect(InteractionFence(AttemptFence(p.epoch, p.attemptId, inputs.effect0), p.interaction, p.deadline), RevokeInteraction)],
        [],
        [InteractionRevoked(p.interaction, AttemptSubject(p.epoch, p.attemptId))])
    case Connected(session) => Decision(Stopping(session.attempt, stop, None), TeardownEffects(session, inputs), [], [])
    case Stopping(a, current, queued) =>
      if queued.None? then Decision(s, [], [], [])
      else
        var q := queued.value;
        Decision(
          Stopping(a, current, None),
          [Effect(ExternalFence(q.key.epoch, inputs.effect0, q.key, q.digest), RevokeQueuedConnect(q))],
          [Outcome(q.key, q.digest, CancelledBeforeStart)],
          [])
    case _ => Decision(s, [], [], [])
  }

  function Reduce(s: State, command: Command, inputs: Inputs): Decision {
    match command
    case Connect(intent) => ReduceConnect(s, intent, inputs)
    case Stop(stop) => ReduceStop(s, stop, inputs)
    case _ => Decision(s, [], [], [])
  }

  // ----- what a decision guarantees -----

  function LiveAttempt(s: State): Option<Attempt> {
    match s
    case Connecting(a, _) => Some(a)
    case AwaitingInteraction(a, _) => Some(a)
    case Connected(session) => Some(session.attempt)
    case Stopping(a, _, _) => Some(a)
    case _ => None
  }

  function IssuedEffects(inputs: Inputs): seq<Id> {
    [inputs.effect0, inputs.effect1, inputs.effect2]
  }

  function EffectIds(es: seq<Effect>): (r: seq<Id>)
    ensures |r| == |es| && forall i :: 0 <= i < |es| ==> r[i] == FenceEffect(es[i].fence)
  {
    if es == [] then [] else EffectIds(es[..|es| - 1]) + [FenceEffect(es[|es| - 1].fence)]
  }

  /** Every emitted effect passes the scheduler's check, and the effects are numbered by the issued
      identities in order: no identity is skipped, reused or invented. */
  lemma EmittedEffectsAreFenced(s: State, command: Command, inputs: Inputs)
    ensures
      var d := Reduce(s, command, inputs);
      && |d.effects| <= 3
      && EffectIds(d.effects) == IssuedEffects(inputs)[..|d.effects|]
      && forall i :: 0 <= i < |d.effects| ==> FenceIsConsistent(d.effects[i])
  {
    var d := Reduce(s, command, inputs);
    assert forall i :: 0 <= i < |d.effects| ==> FenceEffect(d.effects[i].fence) == IssuedEffects(inputs)[i];
  }

  /** What the scheduler lets through: of the requests that carry a fence of their own, exactly those whose
      effect is the one the effect itself is fenced under, and every other request. */
  lemma SchedulerRunsIff(f: Fence, inner: AttemptFence, ownership: Id, lease: Id, r: Request)
    ensures FenceIsConsistent(Effect(f, AcquireOwnership(inner))) <==> inner.effect == FenceEffect(f)
    ensures FenceIsConsistent(Effect(f, ApplyTunnel(OwnedFence(inner, ownership)))) <==> inner.effect == FenceEffect(f)
    ensures FenceIsConsistent(Effect(f, StopPacket(Active(OwnedFence(inner, ownership)), lease))) <==> inner.effect == FenceEffect(f)
    ensures r.AcquireOwnership? || r.ApplyTunnel? || (r.StopPacket? && r.packetFence.Active?) || FenceIsConsistent(Effect(f, r))
  {
  }

  /** A Connect never replaces a live attempt and never starts work beside it. */
  lemma ConnectKeepsLiveAttempt(s: State, intent: ConnectIntent, inputs: Inputs)
    ensures
      var d := Reduce(s, Connect(intent), inputs);
      && (LiveAttempt(s).Some? ==> LiveAttempt(d.next) == LiveAttempt(s))
      && (d.effects != [] <==> s.Idle? || s.FailedClean?)
      && (d.effects != [] <==> d.outcomes[0].disposition == Accepted)
      && (s.Connecting? || s.AwaitingInteraction? || s.Connected? ==>
            (d.outcomes[0].disposition == AlreadyCurrent <==> LiveAttempt(s).value.intent == intent))
      && |d.outcomes| == 1 && d.outcomes[0].key == intent.key && d.outcomes[0].digest == intent.digest
  {
  }

  // ----- teardown -----

  /** What a state holds that a teardown must give up. */
  datatype Resource =
    | ProtocolOf(session: Id)
    | PacketOf(lease: Id)
    | PlatformOf(ownership: Id)
    | PromptOf(interaction: Id)
    | QueuedOf(intent: ConnectIntent)

  function Held(s: State): seq<Resource> {
    match s
    case Connected(c) => [ProtocolOf(c.protocolSession), PacketOf(c.lease), PlatformOf(c.ownership)]
    case AwaitingInteraction(_, p) => [PromptOf(p.interaction)]
    case Stopping(_, _, queued) => if queued.Some? then [QueuedOf(queued.value)] else []
    case _ => []
  }

  function GivesUp(e: Effect): Option<Resource> {
    match e.request
    case StopProtocol(session) => Some(ProtocolOf(session))
    case StopPacket(_, lease) => Some(PacketOf(lease))
    case BeginPlatformStop(_, _, _, _, ownership) => Some(PlatformOf(ownership))
    case RevokeInteraction => if e.fence.InteractionFence? then Some(PromptOf(e.fence.interaction)) else None
    case RevokeQueuedConnect(intent) => Some(QueuedOf(intent))
    case _ => None
  }

  /** The era a resource belongs to. */
  function EraOf(s: State): Option<Id> {
    match s
    case Connected(c) => Some(c.attempt.epoch)
    case AwaitingInteraction(_, p) => Some(p.epoch)
    case Stopping(_, _, queued) => if queued.Some? then Some(queued.value.key.epoch) else None
    case _ => None
  }

  /** In the reducer, a Stop gives up every held resource exactly once, each under a fence of the
      resource's own era, holds nothing afterwards, and keeps the attempt it tears down. */
  lemma StopGivesUpWhatIsHeld(s: State, stop: StopIntent, inputs: Inputs)
    ensures
      var d := Reduce(s, Stop(stop), inputs);
      && |d.effects| == |Held(s)|
      && (forall i :: 0 <= i < |d.effects| ==> GivesUp(d.effects[i]) == Some(Held(s)[i]) && EraOf(s) == Some(FenceEpoch(d.effects[i].fence)))
      && Held(d.next) == []
      && LiveAttempt(d.next) == LiveAttempt(s)
      && (LiveAttempt(s).Some? <==> d.next.Stopping?)
  {
  }

  // ----- whole runs of the reducer -----

  datatype Move = Move(command: Command, inputs: Inputs)
  datatype Told = Told(key: LookupKey, digest: Id)

  /** Every outcome of a run of commands, in order, and the state it ends in. */
  datatype Course = Course(state: State, outcomes: seq<Outcome>)

  function RunMoves(s: State, moves: seq<Move>): Course
    decreases |moves|
  {
    if moves == [] then Course(s, [])
    else
      var d := Reduce(s, moves[0].command, moves[0].inputs);
      var rest := RunMoves(d.next, moves[1..]);
      Course(rest.state, d.outcomes + rest.outcomes)
  }

  /** Who was told this, in order. */
  function Heard(outcomes: seq<Outcome>, d: Disposition): seq<Told> {
    if outcomes == [] then []
    else (if outcomes[0].disposition == d then [Told(outcomes[0].key, outcomes[0].digest)] else []) + Heard(outcomes[1..], d)
  }

  function Waiting(s: State): seq<Told> {
    if s.Stopping? && s.queued.Some? then [Told(s.queued.value.key, s.queued.value.digest)] else []
  }

  lemma {:induction false} HeardAppend(a: seq<Outcome>, b: seq<Outcome>, d: Disposition)
    ensures Heard(a + b, d) == Heard(a, d) + Heard(b, d)
    decreases |a|
  {
    if a == [] {
      assert a + b == b;
    } else {
      assert (a + b)[1..] == a[1..] + b;
      HeardAppend(a[1..], b, d);
    }
  }

  lemma MoveAccounts(s: State, m: Move)
    ensures
      var d := Reduce(s, m.command, m.inputs);
      Waiting(s) + Heard(d.outcomes, AcceptedQueued) == Heard(d.outcomes, CancelledBeforeStart) + Waiting(d.next)
  {
    var d := Reduce(s, m.command, m.inputs);
    if d.outcomes != [] {
      assert d.outcomes[1..] == [];
    }
  }

  lemma Chained<T>(w: seq<T>, q: seq<T>, c: seq<T>, w': seq<T>, q': seq<T>, c': seq<T>, w'': seq<T>)
    requires w + q == c + w' && w' + q' == c' + w''
    ensures w + (q + q') == (c + c') + w''
  {
    assert w + (q + q') == (w + q) + q';
    assert (c + w') + q' == c + (w' + q');
  }

  /** Over every sequence of commands to the reducer: the Connects told they were queued are, in order,
      those told they were cancelled before they started and the one still waiting. None is lost, none
      is told twice. */
  lemma {:induction false} QueuedConnectsAccounted(s: State, moves: seq<Move>)
    ensures
      var c := RunMoves(s, moves);
      Waiting(s) + Heard(c.outcomes, AcceptedQueued) == Heard(c.outcomes, CancelledBeforeStart) + Waiting(c.state)
    decreases |moves|
  {
    hide Reduce, Waiting;
    if moves != [] {
      var d := Reduce(s, moves[0].command, moves[0].inputs);
      var rest := RunMoves(d.next, moves[1..]);
      MoveAccounts(s, moves[0]);
      QueuedConnectsAccounted(d.next, moves[1..]);
      HeardAppend(d.outcomes, rest.outcomes, AcceptedQueued);
      HeardAppend(d.outcomes, rest.outcomes, CancelledBeforeStart);
      Chained(Waiting(s), Heard(d.outcomes, AcceptedQueued), Heard(d.outcomes, CancelledBeforeStart), Waiting(d.next),
              Heard(rest.outcomes, AcceptedQueued), Heard(rest.outcomes, CancelledBeforeStart), Waiting(rest.state));
    }
  }

  // ----- what a Connect is told -----

  /** The intent is the one the state works for, or the one that waits for its turn. */
  predicate Holds(s: State, intent: ConnectIntent) {
    if s.Stopping? then Waiting(s) == [Told(intent.key, intent.digest)]
    else LiveAttempt(s).Some? && LiveAttempt(s).value.intent == intent
  }

  function Answer(s: State, intent: ConnectIntent, inputs: Inputs): Disposition {
    Reduce(s, Connect(intent), inputs).outcomes[0].disposition
  }

  /** Every answer a Connect can get, and exactly when it gets it. Only an accepted or a queued Connect
      changes the state; the queued one waits behind the attempt that is being stopped. */
  lemma ConnectAnswers(s: State, intent: ConnectIntent, inputs: Inputs)
    ensures
      var d := Answer(s, intent, inputs);
      var live := LiveAttempt(s);
      var running := live.Some? && !s.Stopping?;
      var refused := (code: ErrorCode) => Failed(VpnError(code, ExternalSubject(intent.key)));
      && (d == Accepted <==> s.Idle? || s.FailedClean?)
      && (d == AlreadyCurrent <==> Holds(s, intent))
      && (d == refused(IdempotencyConflict) <==> running && !Holds(s, intent) && live.value.intent.key == intent.key)
      && (d == refused(SessionBusy) <==> s.Connected? && live.value.intent.key != intent.key)
      && (d == refused(ConnectInProgress) <==> running && !s.Connected? && live.value.intent.key != intent.key)
      && (d == AcceptedQueued <==> s.Stopping? && Waiting(s) == [])
      && (d == refused(ReconnectAlreadyQueued) <==> s.Stopping? && Waiting(s) != [] && !Holds(s, intent))
      && (d.RequiresReconcile? <==> s.Reconciling? || s.FailedDirty?)
      && (d.RequiresReconcile? ==> d.obligation == s.obligation)
    ensures
      var next := Reduce(s, Connect(intent), inputs).next;
      && (next != s <==> Answer(s, intent, inputs) in {Accepted, AcceptedQueued})
      && (next != s ==> Holds(next, intent))
      && (s.Stopping? ==> next.Stopping? && next.attempt == s.attempt && next.stop == s.stop)
  {
    var next := Reduce(s, Connect(intent), inputs).next;
    if s.Stopping? && s.queued.None? {
      assert next.queued == Some(intent);
    }
  }

  predicate IsStop(m: Move) {
    m.command.Stop?
  }

  lemma ConnectsKeep(s: State, intent: ConnectIntent, m: Move)
    requires Holds(s, intent) && !IsStop(m)
    ensures Reduce(s, m.command, m.inputs).next == s
  {
    if m.command.Connect? {
      ConnectAnswers(s, m.command.intent, m.inputs);
    }
  }

  /** Sending a Connect again is harmless over every run that has no Stop in it: once it was accepted or
      queued it is told that it is current, nothing is started, and the state stays. */
  lemma {:induction false} RepeatedConnectIsHarmless(s: State, intent: ConnectIntent, moves: seq<Move>, inputs: Inputs)
    requires Holds(s, intent) && forall i :: 0 <= i < |moves| ==> !IsStop(moves[i])
    ensures
      var later := RunMoves(s, moves).state;
      Reduce(later, Connect(intent), inputs)
      == Decision(later, [], [Outcome(intent.key, intent.digest, AlreadyCurrent)], [])
    decreases |moves|
  {
    if moves == [] {
      ConnectAnswers(s, intent, inputs);
    } else {
      hide Reduce, Holds;
      ConnectsKeep(s, intent, moves[0]);
      RepeatedConnectIsHarmless(s, intent, moves[1..], inputs);
    }
  }

  // ----- whom the effects and events name -----

  /** The attempt a fence is tied to, by its era and number. */
  function FencedAttempt(f: Fence): Option<(Id, Id)> {
    match f
    case OfAttemptFence(a) => Some((a.epoch, a.attemptId))
    case OfOwnedFence(o) => Some((o.attemptEffect.epoch, o.attemptEffect.attemptId))
    case InteractionFence(a, _, _) => Some((a.epoch, a.attemptId))
    case _ => None
  }

  /** The operation a fence is tied to. */
  function FencedOperation(f: Fence): Option<Told> {
    if f.ExternalFence? then Some(Told(f.key, f.digest)) else None
  }

  /** A Connect that starts works under the identities issued for it and for the intent it was given, and
      shows the failure it recovers from. */
  lemma StartNamesItsAttempt(s: State, intent: ConnectIntent, inputs: Inputs)
    requires s.Idle? || s.FailedClean?
    ensures
      var d := Reduce(s, Connect(intent), inputs);
      && d.next.Connecting? && d.next.phase == ConnectingControl
      && LiveAttempt(d.next) == Some(Attempt(intent.key.epoch, inputs.attempt, intent))
      && |d.effects| == 1 && d.effects[0].request == ConnectProtocol(intent)
      && FencedAttempt(d.effects[0].fence) == Some((intent.key.epoch, inputs.attempt))
      && d.events == (if s.FailedClean? then [ErrorObserved(s.lastError)] else [])
  {
  }

  /** Stopping a live session works under the fences of that session's attempt, the platform under the
      operation that opened it, and hands the platform that attempt as the origin. */
  lemma StopNamesItsAttempt(s: State, stop: StopIntent, inputs: Inputs)
    requires s.Connected?
    ensures
      var d := Reduce(s, Stop(stop), inputs);
      var a := s.session.attempt;
      && d.next == Stopping(a, stop, None) && |d.effects| == 3
      && FencedAttempt(d.effects[0].fence) == FencedAttempt(d.effects[1].fence) == Some((a.epoch, a.attemptId))
      && d.effects[1].request.StopPacket? && d.effects[1].request.packetFence.Active?
      && d.effects[1].fence == OfOwnedFence(d.effects[1].request.packetFence.owned)
      && d.effects[1].fence.owned.ownership == s.session.ownership
      && FencedOperation(d.effects[2].fence) == Some(Told(a.intent.key, a.intent.digest))
      && d.effects[2].request.BeginPlatformStop? && d.effects[2].request.key == a.intent.key
      && d.effects[2].request.digest == a.intent.digest
      && d.effects[2].request.origin == AttemptSubject(a.epoch, a.attemptId) && d.effects[2].request.epoch == a.epoch
  {
  }

  /** What else a Stop says: a prompt is revoked under its own fence and announced, a waiting Connect is
      revoked under its own operation, a stop in progress keeps its own intent, and only a state at rest
      answers that it is stopped already. */
  lemma StopSays(s: State, stop: StopIntent, inputs: Inputs)
    ensures
      var d := Reduce(s, Stop(stop), inputs);
      && (s.AwaitingInteraction? ==>
            && d.next == Stopping(s.attempt, stop, None)
            && d.effects[0].fence.InteractionFence? && d.effects[0].fence.deadline == s.prompt.deadline
            && FencedAttempt(d.effects[0].fence) == Some((s.prompt.epoch, s.prompt.attemptId))
            && d.events == [InteractionRevoked(s.prompt.interaction, AttemptSubject(s.prompt.epoch, s.prompt.attemptId))])
      && (d.events != [] <==> s.AwaitingInteraction?)
      && (s.Connecting? ==> d.next == Stopping(s.attempt, stop, None))
      && (s.Stopping? ==> d.next == Stopping(s.attempt, s.stop, None))
      && (s.Stopping? && s.queued.Some? ==> FencedOperation(d.effects[0].fence) == Some(Waiting(s)[0]))
      && (Outcome(stop.key, stop.digest, AlreadyStopped(None)) in d.outcomes <==> s.Idle?)
  {
  }
}
