/**
  The two-sided teardown barrier and the host composition that is fenced by it. Host
  events may arrive in any order; the guarantee is about every sequence of them.
 */
module Teardown {
  import opened Wrappers

  type Id = nat

  datatype Side = ProtocolControl | PacketData
  datatype JoinOutcome = Pending | Released | Rejected
  datatype Barrier = Barrier(protocolJoined: bool, packetJoined: bool, released: bool)

  const Fenced: Barrier := Barrier(false, false, false)

  predicate HasJoined(b: Barrier, side: Side) {
    if side == ProtocolControl then b.protocolJoined else b.packetJoined
  }

  datatype JoinResult = JoinResult(barrier: Barrier, outcome: JoinOutcome)

  function JoinBarrier(b: Barrier, side: Side): JoinResult {
    if b.released || HasJoined(b, side) then JoinResult(b, Rejected)
    else
      var c := if side == ProtocolControl then b.(protocolJoined := true) else b.(packetJoined := true);
      if c.protocolJoined && c.packetJoined then JoinResult(c.(released := true), Released) else JoinResult(c, Pending)
  }

  class TeardownBarrier {
    var protocolJoined: bool
    var packetJoined: bool
    var released: bool

    ghost function Abstract(): Barrier
      reads this
    {
      Barrier(protocolJoined, packetJoined, released)
    }

    constructor ()
      ensures Abstract() == Fenced
    {
      protocolJoined, packetJoined, released := false, false, false;
    }

    method Join(side: Side) returns (outcome: JoinOutcome)
      modifies this
      ensures JoinResult(Abstract(), outcome) == JoinBarrier(old(Abstract()), side)
    {
      if released { return Rejected; }
      if (if side == ProtocolControl then protocolJoined else packetJoined) { return Rejected; }
      if side == ProtocolControl { protocolJoined := true; } else { packetJoined := true; }
      if protocolJoined && packetJoined {
        released := true;
        return Released;
      }
      return Pending;
    }
  }

  // ----- the host -----

  datatype Phase = Idle | Connecting | Connected | Reconciling | Stopping | Stopped | Failed
  datatype ConnectPhase = ObservingOwnedState | StartingDataPlane | OtherPhase(phase: Id)
  datatype Refusal = AdmissionClosed | NoPeerCapability | TeardownInProgress

  datatype Event =
    | BindPeer(capability: Id)
    | Connect
    | ProtocolEstablished
    | Disconnect
    | HelperLinkLost
    | StopNewAdmission
    | TeardownSideJoined(side: Side)
    | ConnectFailed(error: Id)
    | ConnectionLost(error: Id)
    | ConnectPhaseProgress(phase: ConnectPhase)
    | ReopenAdmission

  datatype Effect =
    | PeerBound
    | ConnectAdmitted
    | ConnectRefused(reason: Refusal)
    | NowConnected
    | ReconcilingEntered
    | AdmissionStopped
    | TeardownInitiated
    | TeardownPending
    | NowStopped
    | AttemptFailed
    | PhaseProgressed
    | AdmissionReopened
    | AdmissionReopenIgnored

  datatype Host = Host(
    phase: Phase,
    admissionOpen: bool,
    barrier: Barrier,
    capability: Option<Id>,
    connectPhase: Option<ConnectPhase>,
    lastError: Option<Id>)

  const NewHost: Host := Host(Idle, true, Fenced, None, None, None)

  datatype Applied = Applied(host: Host, effect: Effect)

  function Apply(h: Host, e: Event): Applied {
    match e
    case BindPeer(c) => Applied(h.(capability := Some(c)), PeerBound)
    case Connect =>
      if !h.admissionOpen then Applied(h, ConnectRefused(AdmissionClosed))
      else if h.capability.None? then Applied(h, ConnectRefused(NoPeerCapability))
      else if h.phase == Stopping || h.phase == Reconciling then Applied(h, ConnectRefused(TeardownInProgress))
      else Applied(h.(phase := Connecting, connectPhase := Some(ObservingOwnedState), lastError := None), ConnectAdmitted)
    case ProtocolEstablished =>
      Applied(h.(phase := Connected, connectPhase := Some(StartingDataPlane), lastError := None), NowConnected)
    case ConnectPhaseProgress(p) => Applied(h.(connectPhase := Some(p)), PhaseProgressed)
    case ConnectFailed(error) =>
      Applied(h.(lastError := Some(error), phase := if h.phase == Connecting then Failed else h.phase), AttemptFailed)
    case ConnectionLost(error) =>
      var failed := h.(lastError := Some(error));
      Applied(if h.phase == Connected || h.phase == Connecting then failed.(phase := Failed, connectPhase := None) else failed, AttemptFailed)
    case Disconnect => Applied(h.(admissionOpen := false, phase := Stopping, barrier := Fenced), TeardownInitiated)
    case HelperLinkLost =>
      if h.phase == Connecting || h.phase == Connected then Applied(h.(admissionOpen := false, phase := Reconciling), ReconcilingEntered)
      else Applied(h, AdmissionStopped)
    case StopNewAdmission => Applied(h.(admissionOpen := false), AdmissionStopped)
    case TeardownSideJoined(side) =>
      var j := JoinBarrier(h.barrier, side);
      if j.outcome == Released then Applied(h.(barrier := j.barrier, phase := Stopped), NowStopped)
      else Applied(h.(barrier := j.barrier), TeardownPending)
    case ReopenAdmission =>
      if h.phase == Stopped then Applied(h.(admissionOpen := true, phase := Idle, connectPhase := None), AdmissionReopened)
      else Applied(h, AdmissionReopenIgnored)
  }

  function Run(h: Host, events: seq<Event>): Host {
    if events == [] then h else Apply(Run(h, events[..|events| - 1]), events[|events| - 1]).host
  }

  // ----- reconnecting needs a finished teardown -----

  /** Both sides joined behind `from`, and admission was reopened after that, in Stopped. */
  ghost predicate TornDownAndReopened(events: seq<Event>, from: nat, reopen: nat) {
    && from < reopen < |events|
    && events[reopen] == ReopenAdmission
    && Run(NewHost, events[..reopen]).phase == Stopped
    && TeardownSideJoined(ProtocolControl) in events[from..reopen]
    && TeardownSideJoined(PacketData) in events[from..reopen]
  }

  ghost predicate LatestDisconnect(events: seq<Event>, d: nat) {
    d < |events| && events[d] == Disconnect && Disconnect !in events[d + 1..]
  }

  /** Since the latest Disconnect at `d`: the barrier records the joins, Stopped needs both, and
      admission is open only after a finished teardown was reopened. */
  ghost predicate SinceDisconnect(events: seq<Event>, d: nat)
    requires d < |events|
  {
    var h := Run(NewHost, events);
    && (h.barrier.protocolJoined ==> TeardownSideJoined(ProtocolControl) in events[d..])
    && (h.barrier.packetJoined ==> TeardownSideJoined(PacketData) in events[d..])
    && (h.barrier.released ==> h.barrier.protocolJoined && h.barrier.packetJoined)
    && (h.phase == Stopped ==> h.barrier.released)
    && (h.admissionOpen ==> exists r :: TornDownAndReopened(events, d, r))
  }

  lemma TornDownStays(events: seq<Event>, e: Event, d: nat, r: nat)
    requires TornDownAndReopened(events, d, r)
    ensures TornDownAndReopened(events + [e], d, r)
  {
    assert (events + [e])[..r] == events[..r];
    assert (events + [e])[d..r] == events[d..r];
  }

  lemma AppendTail(events: seq<Event>, e: Event, d: nat)
    requires d <= |events|
    ensures (events + [e])[d..] == events[d..] + [e]
  {
  }

  lemma RunAppend(h: Host, events: seq<Event>, e: Event)
    ensures Run(h, events + [e]) == Apply(Run(h, events), e).host
  {
    assert (events + [e])[..|events|] == events;
  }

  lemma StepSinceDisconnect(events: seq<Event>, e: Event, d: nat)
    requires d < |events| && e != Disconnect && SinceDisconnect(events, d)
    ensures SinceDisconnect(events + [e], d)
  {
    var h := Run(NewHost, events);
    var more := events + [e];
    RunAppend(NewHost, events, e);
    AppendTail(events, e, d);
    hide Run, TornDownAndReopened;
    var g := Run(NewHost, more);
    if g.admissionOpen {
      if h.admissionOpen {
        var r :| TornDownAndReopened(events, d, r);
        TornDownStays(events, e, d, r);
      } else {
        assert e == ReopenAdmission && h.phase == Stopped;
        Reopened(events, d);
      }
    }
  }

  lemma Reopened(events: seq<Event>, d: nat)
    requires d < |events| && SinceDisconnect(events, d) && Run(NewHost, events).phase == Stopped
    ensures TornDownAndReopened(events + [ReopenAdmission], d, |events|)
  {
    var more := events + [ReopenAdmission];
    assert more[..|events|] == events && more[d..|events|] == events[d..];
  }

  lemma {:induction false} EveryRunSinceDisconnect(events: seq<Event>, d: nat)
    requires LatestDisconnect(events, d)
    ensures SinceDisconnect(events, d)
    decreases |events|
  {
    var n := |events| - 1;
    var before := events[..n];
    assert events == before + [events[n]];
    RunAppend(NewHost, before, events[n]);
    if d != n {
      assert events[n] == events[d + 1..][n - d - 1];
      assert events[d + 1..] == before[d + 1..] + [events[n]];
      EveryRunSinceDisconnect(before, d);
      StepSinceDisconnect(before, events[n], d);
    }
  }

  /** Over every run: a Connect that is admitted after a Disconnect comes behind both barrier joins
      since the latest Disconnect, and behind a reopening in Stopped that followed them. */
  lemma ReconnectNeedsTeardown(events: seq<Event>, d: nat)
    requires LatestDisconnect(events, d)
    requires Apply(Run(NewHost, events), Connect).effect == ConnectAdmitted
    ensures exists r :: TornDownAndReopened(events, d, r)
  {
    EveryRunSinceDisconnect(events, d);
  }

  /** And a finished teardown is enough: whatever happened before, both joins in either order and a
      reopening admit the next Connect, if and only if a peer is bound. */
  lemma TeardownReadmits(h: Host, first: Side, second: Side)
    requires first != second
    ensures
      var stopped := Apply(Apply(Apply(h, Disconnect).host, TeardownSideJoined(first)).host, TeardownSideJoined(second)).host;
      var reopened := Apply(stopped, ReopenAdmission).host;
      && stopped.phase == Stopped && reopened.phase == Idle
      && (Apply(reopened, Connect).effect == ConnectAdmitted <==> h.capability.Some?)
  {
  }

  /** Closed for good: the barrier is used up and Stopped was left without reopening. */
  ghost predicate Stuck(h: Host) {
    !h.admissionOpen && h.barrier.released && h.phase != Stopped
  }

  /** No run without a Disconnect reopens a stuck host. */
  lemma {:induction false} StuckUntilDisconnect(h: Host, events: seq<Event>)
    requires Stuck(h) && Disconnect !in events
    ensures Stuck(Run(h, events)) && Apply(Run(h, events), Connect).effect == ConnectRefused(AdmissionClosed)
    decreases |events|
  {
    if events != [] {
      var n := |events| - 1;
      assert forall e :: e in events[..n] ==> e in events;
      StuckUntilDisconnect(h, events[..n]);
      assert events[n] in events;
    }
  }

  /** The barrier is released exactly when both sides have joined. */
  ghost predicate BarrierInv(b: Barrier) {
    b.released <==> b.protocolJoined && b.packetJoined
  }

  lemma {:induction false} EveryRunKeepsBarrier(events: seq<Event>)
    ensures BarrierInv(Run(NewHost, events).barrier)
  {
    if events != [] {
      EveryRunKeepsBarrier(events[..|events| - 1]);
    }
  }

  /** What reopens a host that is not stuck: a peer, what is missing of the teardown, and the reopening;
      for one that still admits, a peer and an established protocol. */
  function WayBack(h: Host): seq<Event> {
    if h.admissionOpen then [BindPeer(0)] + [ProtocolEstablished]
    else [BindPeer(0)] + [TeardownSideJoined(ProtocolControl)] + [TeardownSideJoined(PacketData)] + [ReopenAdmission]
  }

  lemma RunNone(h: Host)
    ensures Run(h, []) == h
  {
  }

  lemma WayBackAdmits(h: Host)
    requires BarrierInv(h.barrier) && !Stuck(h)
    ensures Disconnect !in WayBack(h) && Apply(Run(h, WayBack(h)), Connect).effect == ConnectAdmitted
  {
    RunNone(h);
    hide Run;
    var a := [BindPeer(0)];
    assert a == [] + [BindPeer(0)];
    RunAppend(h, [], BindPeer(0));
    if h.admissionOpen {
      RunAppend(h, a, ProtocolEstablished);
    } else {
      var b := a + [TeardownSideJoined(ProtocolControl)];
      var c := b + [TeardownSideJoined(PacketData)];
      RunAppend(h, a, TeardownSideJoined(ProtocolControl));
      RunAppend(h, b, TeardownSideJoined(PacketData));
      RunAppend(h, c, ReopenAdmission);
    }
  }

  /** Which hosts can still come to admit a Connect without another Disconnect: exactly those that are
      not stuck. Stuck is a matter of three fields: closed, with a used-up barrier, and not Stopped. */
  lemma ReopenableIff(h: Host)
    requires BarrierInv(h.barrier)
    ensures (exists events :: Disconnect !in events && Apply(Run(h, events), Connect).effect == ConnectAdmitted) <==> !Stuck(h)
  {
    if Stuck(h) {
      forall events | Disconnect !in events
        ensures Apply(Run(h, events), Connect).effect != ConnectAdmitted
      {
        StuckUntilDisconnect(h, events);
      }
    } else {
      WayBackAdmits(h);
    }
  }

  /** A host gets stuck: after a whole teardown, a late ProtocolEstablished leaves Stopped. */
  lemma LateEstablishedSticks()
    ensures
      Stuck(Run(NewHost, [Disconnect] + [TeardownSideJoined(ProtocolControl)] + [TeardownSideJoined(PacketData)] + [ProtocolEstablished]))
  {
    RunNone(NewHost);
    hide Run;
    var a := [Disconnect];
    var b := a + [TeardownSideJoined(ProtocolControl)];
    var c := b + [TeardownSideJoined(PacketData)];
    assert a == [] + [Disconnect];
    RunAppend(NewHost, [], Disconnect);
    RunAppend(NewHost, a, TeardownSideJoined(ProtocolControl));
    RunAppend(NewHost, b, TeardownSideJoined(PacketData));
    RunAppend(NewHost, c, ProtocolEstablished);
  }

  // ----- the registers over whole runs -----

  /** The value the latest write left, or the initial one. */
  function Latest<T>(writes: seq<Option<T>>, init: T): T {
    if writes == [] then init
    else if writes[|writes| - 1].Some? then writes[|writes| - 1].value
    else Latest(writes[..|writes| - 1], init)
  }

  predicate Admits(h: Host) {
    h.admissionOpen && h.capability.Some? && h.phase != Stopping && h.phase != Reconciling
  }

  /** The other side has joined already, and this one has not. */
  predicate Completes(b: Barrier, side: Side) {
    !b.released && (if side == ProtocolControl then !b.protocolJoined && b.packetJoined else !b.packetJoined && b.protocolJoined)
  }

  /** The phase an event brings about in a host, if it decides one. */
  function PhaseWrite(h: Host, e: Event): Option<Phase> {
    match e
    case Connect => if Admits(h) then Some(Connecting) else None
    case ProtocolEstablished => Some(Connected)
    case Disconnect => Some(Stopping)
    case HelperLinkLost => if h.phase in {Connecting, Connected} then Some(Reconciling) else None
    case ConnectFailed(_) => if h.phase in {Connecting} then Some(Failed) else None
    case ConnectionLost(_) => if h.phase in {Connecting, Connected} then Some(Failed) else None
    case TeardownSideJoined(side) => if Completes(h.barrier, side) then Some(Stopped) else None
    case ReopenAdmission => if h.phase in {Stopped} then Some(Idle) else None
    case _ => None
  }

  function ErrorWrite(h: Host, e: Event): Option<Option<Id>> {
    match e
    case ConnectFailed(error) => Some(Some(error))
    case ConnectionLost(error) => Some(Some(error))
    case ProtocolEstablished => Some(None)
    case Connect => if Admits(h) then Some(None) else None
    case _ => None
  }

  function ProgressWrite(h: Host, e: Event): Option<Option<ConnectPhase>> {
    match e
    case ConnectPhaseProgress(p) => Some(Some(p))
    case ProtocolEstablished => Some(Some(StartingDataPlane))
    case Connect => if Admits(h) then Some(Some(ObservingOwnedState)) else None
    case ConnectionLost(_) => if h.phase in {Connecting, Connected} then Some(None) else None
    case ReopenAdmission => if h.phase in {Stopped} then Some(None) else None
    case _ => None
  }

  function AdmissionWrite(h: Host, e: Event): Option<bool> {
    match e
    case Disconnect => Some(false)
    case StopNewAdmission => Some(false)
    case HelperLinkLost => if h.phase in {Connecting, Connected} then Some(false) else None
    case ReopenAdmission => if h.phase in {Stopped} then Some(true) else None
    case _ => None
  }

  function PeerWrite(e: Event): Option<Option<Id>> {
    if e.BindPeer? then Some(Some(e.capability)) else None
  }

  /** The host in front of each event of a run. */
  function Before(events: seq<Event>, i: nat): Host
    requires i <= |events|
  {
    Run(NewHost, events[..i])
  }

  function PhaseWrites(events: seq<Event>): seq<Option<Phase>> {
    seq(|events|, i requires 0 <= i < |events| => PhaseWrite(Before(events, i), events[i]))
  }

  function ErrorWrites(events: seq<Event>): seq<Option<Option<Id>>> {
    seq(|events|, i requires 0 <= i < |events| => ErrorWrite(Before(events, i), events[i]))
  }

  function ProgressWrites(events: seq<Event>): seq<Option<Option<ConnectPhase>>> {
    seq(|events|, i requires 0 <= i < |events| => ProgressWrite(Before(events, i), events[i]))
  }

  function AdmissionWrites(events: seq<Event>): seq<Option<bool>> {
    seq(|events|, i requires 0 <= i < |events| => AdmissionWrite(Before(events, i), events[i]))
  }

  function PeerWrites(events: seq<Event>): seq<Option<Option<Id>>> {
    seq(|events|, i requires 0 <= i < |events| => PeerWrite(events[i]))
  }

  /** One event writes the registers it is said to write, and no others. */
  lemma StepWrites(h: Host, e: Event)
    ensures
      var g := Apply(h, e).host;
      && g.phase == Latest([PhaseWrite(h, e)], h.phase)
      && g.lastError == Latest([ErrorWrite(h, e)], h.lastError)
      && g.connectPhase == Latest([ProgressWrite(h, e)], h.connectPhase)
      && g.admissionOpen == Latest([AdmissionWrite(h, e)], h.admissionOpen)
      && g.capability == Latest([PeerWrite(e)], h.capability)
  {
  }

  lemma LatestSnoc<T>(writes: seq<Option<T>>, w: Option<T>, init: T)
    ensures Latest(writes + [w], init) == Latest([w], Latest(writes, init))
  {
    assert (writes + [w])[..|writes|] == writes;
  }

  lemma WritesSnoc(events: seq<Event>, e: Event)
    ensures
      var h := Run(NewHost, events);
      && PhaseWrites(events + [e]) == PhaseWrites(events) + [PhaseWrite(h, e)]
      && ErrorWrites(events + [e]) == ErrorWrites(events) + [ErrorWrite(h, e)]
      && ProgressWrites(events + [e]) == ProgressWrites(events) + [ProgressWrite(h, e)]
      && AdmissionWrites(events + [e]) == AdmissionWrites(events) + [AdmissionWrite(h, e)]
      && PeerWrites(events + [e]) == PeerWrites(events) + [PeerWrite(e)]
  {
    hide Run, PhaseWrite, ErrorWrite, ProgressWrite, AdmissionWrite;
    var all := events + [e];
    assert forall i :: 0 <= i <= |events| ==> all[..i] == events[..i];
    assert events[..|events|] == events;
  }

  /** Over every run, in any order of events, each register holds what the latest event that decides it
      wrote: the phase, the error shown, the progress shown, whether Connects are admitted, and the peer. */
  lemma {:induction false} RegistersOfRun(events: seq<Event>)
    ensures
      var h := Run(NewHost, events);
      && h.phase == Latest(PhaseWrites(events), Idle)
      && h.lastError == Latest(ErrorWrites(events), None)
      && h.connectPhase == Latest(ProgressWrites(events), None)
      && h.admissionOpen == Latest(AdmissionWrites(events), true)
      && h.capability == Latest(PeerWrites(events), None)
    decreases |events|
  {
    if events != [] {
      hide PhaseWrites, ErrorWrites, ProgressWrites, AdmissionWrites, PeerWrites, Apply, Latest;
      var front, e := events[..|events| - 1], events[|events| - 1];
      assert events == front + [e];
      var h := Run(NewHost, front);
      RegistersOfRun(front);
      StepWrites(h, e);
      WritesSnoc(front, e);
      LatestSnoc(PhaseWrites(front), PhaseWrite(h, e), Idle);
      LatestSnoc(ErrorWrites(front), ErrorWrite(h, e), None);
      LatestSnoc(ProgressWrites(front), ProgressWrite(h, e), None);
      LatestSnoc(AdmissionWrites(front), AdmissionWrite(h, e), true);
      LatestSnoc(PeerWrites(front), PeerWrite(e), None);
    }
  }

  /** What the caller hears: each effect exactly when the change it stands for takes place. */
  lemma EffectsTell(h: Host, e: Event)
    ensures
      var effect := Apply(h, e).effect;
      && (effect == ConnectAdmitted <==> e == Connect && Admits(h))
      && (effect == ConnectRefused(AdmissionClosed) <==> e == Connect && !h.admissionOpen)
      && (effect == ConnectRefused(NoPeerCapability) <==> e == Connect && h.admissionOpen && h.capability.None?)
      && (effect == NowConnected <==> e == ProtocolEstablished)
      && (effect == TeardownInitiated <==> e == Disconnect)
      && (effect == ReconcilingEntered <==> e == HelperLinkLost && PhaseWrite(h, e) == Some(Reconciling))
      && (effect == AdmissionStopped <==> e == StopNewAdmission || (e == HelperLinkLost && PhaseWrite(h, e).None?))
      && (effect == NowStopped <==> e.TeardownSideJoined? && PhaseWrite(h, e) == Some(Stopped))
      && (effect == TeardownPending <==> e.TeardownSideJoined? && PhaseWrite(h, e).None?)
      && (effect == AttemptFailed <==> e.ConnectFailed? || e.ConnectionLost?)
      && (effect == PhaseProgressed <==> e.ConnectPhaseProgress?)
      && (effect == AdmissionReopened <==> e == ReopenAdmission && h.phase == Stopped)
      && (effect == AdmissionReopenIgnored <==> e == ReopenAdmission && h.phase != Stopped)
      && (effect == PeerBound <==> e.BindPeer?)
  {
  }

  /** A host that is stopping or reconciling does not admit, so the refusal that names a teardown in
      progress is never heard: over every run the closed admission is noticed first. */
  lemma {:induction false} TeardownRefusalNeverHeard(events: seq<Event>)
    ensures
      var h := Run(NewHost, events);
      && (h.phase == Stopping || h.phase == Reconciling ==> !h.admissionOpen)
      && Apply(h, Connect).effect != ConnectRefused(TeardownInProgress)
    decreases |events|
  {
    if events != [] {
      TeardownRefusalNeverHeard(events[..|events| - 1]);
    }
  }

  class HostComposition {
    var phase: Phase
    var admissionOpen: bool
    var teardown: TeardownBarrier
    var capability: Option<Id>
    var connectPhase: Option<ConnectPhase>
    var lastError: Option<Id>

    ghost function Abstract(): Host
      reads this, teardown
    {
      Host(phase, admissionOpen, teardown.Abstract(), capability, connectPhase, lastError)
    }

    constructor ()
      ensures Abstract() == NewHost && fresh(teardown)
    {
      phase, admissionOpen, capability, connectPhase, lastError := Idle, true, None, None, None;
      teardown := new TeardownBarrier();
    }

    method Dispatch(event: Event) returns (effect: Effect)
      modifies this, teardown
      ensures Applied(Abstract(), effect) == Apply(old(Abstract()), event)
      ensures teardown == old(teardown) || fresh(teardown)
    {
      match event
      case BindPeer(c) =>
        capability := Some(c);
        effect := PeerBound;
      case Connect =>
        effect := AdmitConnect();
      case ProtocolEstablished =>
        phase, connectPhase, lastError := Connected, Some(StartingDataPlane), None;
        effect := NowConnected;
      case ConnectPhaseProgress(p) =>
        connectPhase := Some(p);
        effect := PhaseProgressed;
      case ConnectFailed(error) =>
        lastError := Some(error);
        if phase == Connecting { phase := Failed; }
        effect := AttemptFailed;
      case ConnectionLost(error) =>
        lastError := Some(error);
        if phase == Connected || phase == Connecting { phase, connectPhase := Failed, None; }
        effect := AttemptFailed;
      case Disconnect =>
        admissionOpen, phase := false, Stopping;
        teardown := new TeardownBarrier();
        effect := TeardownInitiated;
      case HelperLinkLost =>
        effect := AdmissionStopped;
        if phase == Connecting || phase == Connected {
          admissionOpen, phase := false, Reconciling;
          effect := ReconcilingEntered;
        }
      case StopNewAdmission =>
        admissionOpen := false;
        effect := AdmissionStopped;
      case TeardownSideJoined(side) =>
        var outcome := teardown.Join(side);
        effect := TeardownPending;
        if outcome == Released {
          phase := Stopped;
          effect := NowStopped;
        }
      case ReopenAdmission =>
        effect := AdmissionReopenIgnored;
        if phase == Stopped {
          admissionOpen, phase, connectPhase := true, Idle, None;
          effect := AdmissionReopened;
        }
    }

    method AdmitConnect() returns (effect: Effect)
      modifies this
      ensures Applied(Abstract(), effect) == Apply(old(Abstract()), Connect) && teardown == old(teardown)
    {
      if !admissionOpen { return ConnectRefused(AdmissionClosed); }
      if capability.None? { return ConnectRefused(NoPeerCapability); }
      if phase == Stopping || phase == Reconciling { return ConnectRefused(TeardownInProgress); }
      phase, connectPhase, lastError := Connecting, Some(ObservingOwnedState), None;
      return ConnectAdmitted;
    }
  }
}
