/**
  The event bus: publishers serialised by a gate, and subscribers that are not. A publish
  mints a tick, writes the latest event and broadcasts it as three separate steps; a
  subscribe reads the latest event and joins the broadcast as two. Every interleaving of
  these steps is a run.
 */
module EventBus {
  import opened Wrappers

  type Id = nat

  const CHANNEL_CAPACITY := 64

  datatype Kind = SnapshotKind | TransitionKind
  datatype Stats = Stats(sampleTick: nat, sample: Id)
  datatype Phase = Connected(session: Id) | OtherPhase(phase: Id)
  datatype Snapshot = Snapshot(phase: Option<Phase>, stats: Option<Stats>, operation: Option<Id>)
  datatype Event = Event(tick: nat, kind: Kind, snapshot: Snapshot, operation: Option<Id>)

  function EventOf(tick: nat, kind: Kind, s: Snapshot): Event {
    Event(tick, kind, s, s.operation)
  }

  predicate IsConnected(s: Option<Snapshot>) {
    s.Some? && s.value.phase.Some? && s.value.phase.value.Connected?
  }

  /** Where the publisher that holds the gate has got to. */
  datatype Publisher =
    | Free
    | Entered(kind: Kind, compose: nat -> Snapshot)
    | Minted(event: Event)
    | Written(event: Event)
    | Sampling(stats: Stats, latest: Option<Snapshot>)
    | Stamped(stats: Stats, latest: Option<Snapshot>)
    | Stored(stats: Stats, latest: Option<Snapshot>)

  /** `live` and `samples` are everything ever broadcast on the two lanes. */
  datatype Bus = Bus(
    tick: nat,
    current: Option<Event>,
    statsCurrent: Option<Stats>,
    live: seq<Event>,
    samples: seq<Stats>,
    gate: Publisher)

  datatype Subscriber =
    | Absent
    | Looked(resume: nat, current: Option<Event>)
    | Joined(resume: nat, looked: Option<Event>, start: nat, next: nat, lagged: bool, seen: seq<Event>)

  datatype World = World(bus: Bus, sub: Subscriber)

  datatype Action =
    | Publish(kind: Kind, compose: nat -> Snapshot)
    | PublishStats(stats: Stats)
    | Advance
    | Look(resume: nat)
    | Join
    | Receive

  function Start(): World {
    World(Bus(0, None, None, [], [], Free), Absent)
  }

  // ----- publishing -----

  function SnapshotOf(e: Option<Event>): Option<Snapshot> {
    if e.Some? then Some(e.value.snapshot) else None
  }

  /** The event that republishes a connected snapshot with a new sample. */
  function Republished(latest: Snapshot, stats: Stats): Event {
    EventOf(stats.sampleTick, SnapshotKind, latest.(stats := Some(stats)))
  }

  /** The next step of the publisher inside the gate. */
  function Advanced(b: Bus): Bus {
    match b.gate
    case Free => b
    case Entered(kind, compose) =>
      b.(tick := b.tick + 1, gate := Minted(EventOf(b.tick + 1, kind, compose(b.tick + 1))))
    case Minted(e) => b.(current := Some(e), gate := Written(e))
    case Written(e) => b.(live := b.live + [e], gate := Free)
    case Sampling(stats, latest) =>
      var tick := if IsConnected(latest) then b.tick + 1 else b.tick;
      b.(tick := tick, gate := Stamped(stats.(sampleTick := tick), latest))
    case Stamped(stats, latest) => b.(statsCurrent := Some(stats), gate := Stored(stats, latest))
    case Stored(stats, latest) =>
      b.(samples := b.samples + [stats],
         gate := if IsConnected(latest) then Minted(Republished(latest.value, stats)) else Free)
  }

  // ----- subscribing -----

  function Replay(resume: nat, current: Option<Event>): seq<Event> {
    if current.Some? && (resume == 0 || current.value.tick > resume) then [current.value] else []
  }

  /** The channel keeps its last events; a receiver that fell behind is moved to the oldest one kept. */
  function Received(live: seq<Event>, s: Subscriber): Subscriber
    requires s.Joined?
  {
    if s.next + CHANNEL_CAPACITY < |live| then s.(next := |live| - CHANNEL_CAPACITY, lagged := true)
    else if s.next < |live| then
      s.(next := s.next + 1, seen := s.seen + if live[s.next].tick > s.resume then [live[s.next]] else [])
    else s
  }

  function Step(w: World, a: Action): World {
    match a
    case Publish(kind, compose) => if w.bus.gate.Free? then w.(bus := w.bus.(gate := Entered(kind, compose))) else w
    case PublishStats(stats) =>
      if w.bus.gate.Free? then w.(bus := w.bus.(gate := Sampling(stats, SnapshotOf(w.bus.current)))) else w
    case Advance => w.(bus := Advanced(w.bus))
    case Look(resume) => if w.sub.Absent? then w.(sub := Looked(resume, w.bus.current)) else w
    case Join =>
      if w.sub.Looked? then
        w.(sub := Joined(w.sub.resume, w.sub.current, |w.bus.live|, |w.bus.live|, false, Replay(w.sub.resume, w.sub.current)))
      else w
    case Receive => if w.sub.Joined? then w.(sub := Received(w.bus.live, w.sub)) else w
  }

  function Run(w: World, actions: seq<Action>): World {
    if actions == [] then w else Step(Run(w, actions[..|actions| - 1]), actions[|actions| - 1])
  }

  // ----- what every interleaving keeps -----

  predicate Pending(b: Bus) {
    || b.gate.Minted?
    || b.gate.Written?
    || ((b.gate.Stamped? || b.gate.Stored?) && IsConnected(b.gate.latest))
  }

  function LastOf(live: seq<Event>): Option<Event> {
    if live == [] then None else Some(live[|live| - 1])
  }

  /** Broadcast order is tick order: the n-th event carries tick n, and the counter is ahead of the
      channel exactly while a publisher holds a minted tick. */
  ghost predicate BusInv(b: Bus) {
    && (forall i :: 0 <= i < |b.live| ==> b.live[i].tick == i + 1)
    && b.tick == |b.live| + (if Pending(b) then 1 else 0)
    && (b.gate.Minted? || b.gate.Written? ==> b.gate.event.tick == b.tick)
    && b.current == (if b.gate.Written? then Some(b.gate.event) else LastOf(b.live))
    && (b.gate.Sampling? || b.gate.Stamped? || b.gate.Stored? ==> b.gate.latest == SnapshotOf(b.current))
    && (b.gate.Stamped? || b.gate.Stored? ==> b.gate.stats.sampleTick == b.tick)
  }

  lemma AdvanceKeepsBus(b: Bus)
    requires BusInv(b)
    ensures BusInv(Advanced(b)) && b.live <= Advanced(b).live
  {
  }

  lemma StepKeepsBus(w: World, a: Action)
    requires BusInv(w.bus)
    ensures BusInv(Step(w, a).bus) && w.bus.live <= Step(w, a).bus.live
  {
    AdvanceKeepsBus(w.bus);
  }

  function LookedTick(e: Option<Event>): nat {
    if e.Some? then e.value.tick else 0
  }

  /** What was looked at is the event of its tick, already broadcast or about to be. */
  ghost predicate LookedAt(b: Bus, e: Option<Event>) {
    e.Some? ==>
      && 1 <= e.value.tick <= |b.live| + 1
      && (if e.value.tick <= |b.live| then e.value == b.live[e.value.tick - 1] else b.gate == Written(e.value))
  }

  function Matching(events: seq<Event>, resume: nat): seq<Event> {
    if events == [] then []
    else
      var n := |events| - 1;
      Matching(events[..n], resume) + if events[n].tick > resume then [events[n]] else []
  }

  /** What a joined subscriber holds is its replay, then live events from its joining on. */
  ghost predicate SubInv(b: Bus, s: Subscriber) {
    match s
    case Absent => true
    case Looked(_, e) => LookedAt(b, e)
    case Joined(resume, e, start, next, lagged, seen) =>
      && LookedAt(b, e)
      && start <= next <= |b.live|
      && LookedTick(e) <= start + 1
      && SeenOk(b.live, Replay(resume, e), seen, start, next, resume, lagged)
  }

  /** A run of live events, in broadcast order, from a stretch of the channel. */
  ghost predicate Within(live: seq<Event>, seen: seq<Event>, start: nat, next: nat, resume: nat) {
    && (forall i :: 0 <= i < |seen| ==> start < seen[i].tick <= next && seen[i].tick <= |live| && seen[i] == live[seen[i].tick - 1] && seen[i].tick > resume)
    && (forall i, j :: 0 <= i < j < |seen| ==> seen[i].tick < seen[j].tick)
  }

  lemma LookedStays(b: Bus, c: Bus, e: Option<Event>)
    requires BusInv(b) && BusInv(c) && LookedAt(b, e) && b.live <= c.live
    requires c == Advanced(b) || (c.live == b.live && (b.gate.Written? ==> c.gate == b.gate))
    ensures LookedAt(c, e)
  {
  }

  lemma WithinGrows(live: seq<Event>, more: seq<Event>, seen: seq<Event>, start: nat, next: nat, resume: nat)
    requires live <= more && Within(live, seen, start, next, resume)
    ensures Within(more, seen, start, next, resume)
  {
  }

  lemma StepKeepsSub(w: World, a: Action)
    requires BusInv(w.bus) && SubInv(w.bus, w.sub)
    ensures SubInv(Step(w, a).bus, Step(w, a).sub)
  {
    var v := Step(w, a);
    StepKeepsBus(w, a);
    if a.Receive? && w.sub.Joined? {
      ReceiveKeeps(w.bus, w.sub);
    } else if a.Join? && w.sub.Looked? {
      assert w.bus.live[|w.bus.live|..|w.bus.live|] == [];
    } else if a.Look? && w.sub.Absent? {
    } else {
      SubStays(w, a);
    }
  }

  lemma SubStays(w: World, a: Action)
    requires BusInv(w.bus) && SubInv(w.bus, w.sub) && Step(w, a).sub == w.sub
    ensures SubInv(Step(w, a).bus, w.sub)
  {
    var v := Step(w, a);
    StepKeepsBus(w, a);
    if w.sub.Joined? {
      LookedStays(w.bus, v.bus, w.sub.looked);
      hide BusInv, LookedAt, Within, Advanced, Matching, Step;
      var start, next := w.sub.start, w.sub.next;
      WithinGrows(w.bus.live, v.bus.live, w.sub.seen[|Replay(w.sub.resume, w.sub.looked)|..], start, next, w.sub.resume);
      assert v.bus.live[start..next] == w.bus.live[start..next];
    } else if w.sub.Looked? {
      LookedStays(w.bus, v.bus, w.sub.current);
    }
  }

  lemma WithinNext(live: seq<Event>, seen: seq<Event>, start: nat, next: nat, resume: nat)
    requires start <= next < |live| && live[next].tick == next + 1
    requires Within(live, seen, start, next, resume)
    ensures Within(live, seen, start, next + 1, resume)
    ensures live[next].tick > resume ==> Within(live, seen + [live[next]], start, next + 1, resume)
  {
  }

  lemma MatchingNext(live: seq<Event>, start: nat, next: nat, resume: nat)
    requires start <= next < |live|
    ensures Matching(live[start..next + 1], resume)
            == Matching(live[start..next], resume) + if live[next].tick > resume then [live[next]] else []
  {
    assert live[start..next + 1][..next - start] == live[start..next];
  }

  lemma AfterHead<T>(head: seq<T>, seen: seq<T>, more: seq<T>)
    requires head <= seen
    ensures head <= seen + more && (seen + more)[|head|..] == seen[|head|..] + more
  {
  }

  /** The replay, then live events in order, and all of them unless some were lost to lag. */
  ghost predicate SeenOk(live: seq<Event>, head: seq<Event>, seen: seq<Event>, start: nat, next: nat, resume: nat, lagged: bool)
    requires start <= next <= |live|
  {
    && head <= seen
    && Within(live, seen[|head|..], start, next, resume)
    && (!lagged ==> seen == head + Matching(live[start..next], resume))
  }

  lemma SeenNext(live: seq<Event>, head: seq<Event>, seen: seq<Event>, start: nat, next: nat, resume: nat, lagged: bool)
    requires start <= next < |live| && live[next].tick == next + 1
    requires SeenOk(live, head, seen, start, next, resume, lagged)
    ensures SeenOk(live, head, seen + (if live[next].tick > resume then [live[next]] else []), start, next + 1, resume, lagged)
  {
    hide Matching, Within;
    var more := if live[next].tick > resume then [live[next]] else [];
    AfterHead(head, seen, more);
    WithinNext(live, seen[|head|..], start, next, resume);
    MatchingNext(live, start, next, resume);
    assert seen[|head|..] + [] == seen[|head|..];
    if !lagged {
      Regroup(head, Matching(live[start..next], resume), more);
    }
  }

  lemma Regroup<T>(a: seq<T>, b: seq<T>, c: seq<T>)
    ensures (a + b) + c == a + (b + c)
  {
  }

  lemma ReceiveKeeps(b: Bus, s: Subscriber)
    requires BusInv(b) && s.Joined? && SubInv(b, s)
    ensures SubInv(b, Received(b.live, s))
  {
    hide SeenOk, LookedAt, Replay, LookedTick;
    var head := Replay(s.resume, s.looked);
    if s.next + CHANNEL_CAPACITY < |b.live| {
      SeenLag(b.live, head, s.seen, s.start, s.next, |b.live| - CHANNEL_CAPACITY, s.resume, s.lagged);
    } else if s.next < |b.live| {
      TickAt(b, s.next);
      hide BusInv;
      SeenNext(b.live, head, s.seen, s.start, s.next, s.resume, s.lagged);
    }
  }

  lemma TickAt(b: Bus, i: nat)
    requires BusInv(b) && i < |b.live|
    ensures b.live[i].tick == i + 1
  {
  }

  lemma SeenLag(live: seq<Event>, head: seq<Event>, seen: seq<Event>, start: nat, next: nat, later: nat, resume: nat, lagged: bool)
    requires start <= next <= later <= |live|
    requires SeenOk(live, head, seen, start, next, resume, lagged)
    ensures SeenOk(live, head, seen, start, later, resume, true)
  {
  }

  // ----- the stats lane -----

  /** The event of a connected sample's tick carries it, and is otherwise the event before it. */
  ghost predicate Shows(live: seq<Event>, e: Event, s: Stats) {
    && e.tick == s.sampleTick >= 2
    && s.sampleTick - 2 < |live|
    && IsConnected(Some(live[s.sampleTick - 2].snapshot))
    && var before := live[s.sampleTick - 2].snapshot;
       && e.kind == SnapshotKind && e.snapshot.stats == Some(s) && e.snapshot.phase == before.phase
       && e.snapshot.operation == before.operation && e.operation == before.operation
  }

  /** A sample is shown by the event of its own fresh tick, or was taken out of a connected phase and
      left the event of its tick alone. */
  ghost predicate SampleShown(b: Bus, s: Stats) {
    var t := s.sampleTick;
    if t <= |b.live| then t == 0 || Shows(b.live, b.live[t - 1], s) || !IsConnected(Some(b.live[t - 1].snapshot))
    else (b.gate.Minted? || b.gate.Written?) && Shows(b.live, b.gate.event, s)
  }

  ghost predicate SamplesInv(b: Bus) {
    forall i :: 0 <= i < |b.samples| ==> SampleShown(b, b.samples[i])
  }

  lemma SampleStays(b: Bus, s: Stats)
    requires BusInv(b) && SampleShown(b, s)
    ensures SampleShown(Advanced(b), s)
  {
  }

  lemma AdvanceKeepsSamples(b: Bus)
    requires BusInv(b) && SamplesInv(b)
    ensures SamplesInv(Advanced(b))
  {
    var c := Advanced(b);
    forall i | 0 <= i < |c.samples|
      ensures SampleShown(c, c.samples[i])
    {
      if i < |b.samples| {
        hide SampleShown, BusInv;
        assert c.samples[i] == b.samples[i];
        SampleStays(b, b.samples[i]);
      }
    }
  }

  lemma StepKeepsSamples(w: World, a: Action)
    requires BusInv(w.bus) && SamplesInv(w.bus)
    ensures SamplesInv(Step(w, a).bus)
  {
    AdvanceKeepsSamples(w.bus);
    if !a.Advance? {
      var b := Step(w, a).bus;
      forall i | 0 <= i < |b.samples|
        ensures SampleShown(b, b.samples[i])
      {
        assert SampleShown(w.bus, w.bus.samples[i]);
      }
    }
  }

  // ----- every run -----

  ghost predicate Inv(w: World) {
    BusInv(w.bus) && SubInv(w.bus, w.sub) && SamplesInv(w.bus)
  }

  lemma {:induction false} RunKeeps(actions: seq<Action>)
    ensures Inv(Run(Start(), actions))
    decreases |actions|
  {
    if actions != [] {
      hide Step, BusInv, SubInv, SamplesInv;
      RunKeeps(actions[..|actions| - 1]);
      var w := Run(Start(), actions[..|actions| - 1]);
      StepKeepsBus(w, actions[|actions| - 1]);
      StepKeepsSub(w, actions[|actions| - 1]);
      StepKeepsSamples(w, actions[|actions| - 1]);
    }
  }

  /** Over every interleaving a subscriber sees ticks that never go back, and the only tick it can see
      twice is the replayed one. */
  lemma SeenInOrder(actions: seq<Action>)
    requires Run(Start(), actions).sub.Joined?
    ensures
      var s := Run(Start(), actions).sub;
      forall i, j :: 0 <= i < j < |s.seen| ==>
        s.seen[i].tick < s.seen[j].tick || (s.seen[i].tick == s.seen[j].tick && i == 0 && j == 1 && Replay(s.resume, s.looked) == [s.seen[0]])
  {
    hide Run, BusInv, SubInv, Within, Replay, LookedTick;
    RunKeeps(actions);
    var w := Run(Start(), actions);
    var s := w.sub;
    SubFacts(w.bus, s);
    ReplayShape(s.resume, s.looked);
    HeadThenWithin(w.bus.live, Replay(s.resume, s.looked), s.seen, s.start, s.next, s.resume);
  }

  lemma ReplayShape(resume: nat, looked: Option<Event>)
    ensures |Replay(resume, looked)| <= 1
    ensures Replay(resume, looked) != [] ==> Replay(resume, looked)[0].tick == LookedTick(looked)
  {
  }

  /** One event that is not ahead of the live ones, then live ones in order. */
  lemma HeadThenWithin(live: seq<Event>, head: seq<Event>, seen: seq<Event>, start: nat, next: nat, resume: nat)
    requires |head| <= 1 && head <= seen && (head != [] ==> head[0].tick <= start + 1)
    requires Within(live, seen[|head|..], start, next, resume)
    ensures forall i, j :: 0 <= i < j < |seen| ==>
              seen[i].tick < seen[j].tick || (seen[i].tick == seen[j].tick && i == 0 && j == 1 && head == [seen[0]])
  {
    var rest := seen[|head|..];
    forall i, j | 0 <= i < j < |seen|
      ensures seen[i].tick < seen[j].tick || (seen[i].tick == seen[j].tick && i == 0 && j == 1 && head == [seen[0]])
    {
      assert seen[j] == rest[j - |head|];
      if i < |head| {
        assert head == [seen[0]];
        assert j >= 2 ==> rest[0].tick < rest[j - 1].tick;
      } else {
        assert seen[i] == rest[i - |head|];
      }
    }
  }

  lemma SubFacts(b: Bus, s: Subscriber)
    requires s.Joined? && SubInv(b, s)
    ensures Replay(s.resume, s.looked) <= s.seen
    ensures Within(b.live, s.seen[|Replay(s.resume, s.looked)|..], s.start, s.next, s.resume)
    ensures LookedTick(s.looked) <= s.start + 1
  {
  }

  // ----- lag -----

  /** A live event that a subscriber has passed and not been given was out of the channel by then. */
  ghost predicate LossOk(live: seq<Event>, s: Subscriber) {
    s.Joined? ==>
      forall i :: s.start <= i < s.next && i < |live| && live[i].tick > s.resume && live[i] !in s.seen ==>
        i + 64 < |live|
  }

  lemma LossGrows(live: seq<Event>, more: seq<Event>, s: Subscriber)
    requires live <= more && LossOk(live, s) && (s.Joined? ==> s.next <= |live|)
    ensures LossOk(more, s)
  {
  }

  lemma LossReceived(live: seq<Event>, s: Subscriber)
    requires s.Joined? && LossOk(live, s)
    ensures LossOk(live, Received(live, s))
  {
  }

  lemma StepKeepsLoss(w: World, a: Action)
    requires BusInv(w.bus) && SubInv(w.bus, w.sub) && LossOk(w.bus.live, w.sub)
    ensures LossOk(Step(w, a).bus.live, Step(w, a).sub)
  {
    StepKeepsBus(w, a);
    hide BusInv, SubInv, Advanced, LossOk, Received, Replay;
    if w.sub.Joined? {
      NextInside(w.bus, w.sub);
      if a.Receive? {
        LossReceived(w.bus.live, w.sub);
      } else {
        LossGrows(w.bus.live, Step(w, a).bus.live, w.sub);
      }
    } else {
      NothingPassed(Step(w, a).bus.live, Step(w, a).sub);
    }
  }

  lemma NothingPassed(live: seq<Event>, s: Subscriber)
    requires s.Joined? ==> s.start == s.next
    ensures LossOk(live, s)
  {
  }

  lemma NextInside(b: Bus, s: Subscriber)
    requires s.Joined? && SubInv(b, s)
    ensures s.next <= |b.live|
  {
  }

  /** Over every interleaving a subscriber loses only events that sixty-four newer ones have pushed out of
      the channel: everything else it has passed and asked for, it was given. */
  lemma {:induction false} LostOnlyIfPushedOut(actions: seq<Action>)
    ensures LossOk(Run(Start(), actions).bus.live, Run(Start(), actions).sub)
    decreases |actions|
  {
    hide LossOk;
    if actions == [] {
      NothingPassed(Start().bus.live, Start().sub);
    } else {
      hide Step, BusInv, SubInv, SamplesInv;
      var front := actions[..|actions| - 1];
      LostOnlyIfPushedOut(front);
      RunKeeps(front);
      StepKeepsLoss(Run(Start(), front), actions[|actions| - 1]);
    }
  }

  /** A receive that finds anything new moves on, says so exactly when it skipped something, and skips no
      further than it has to. */
  lemma ReceiveMovesOn(live: seq<Event>, s: Subscriber)
    requires s.Joined? && !s.lagged && s.next < |live|
    ensures
      var r := Received(live, s);
      && s.next < r.next <= |live|
      && (r.lagged <==> s.next + 64 < |live|)
      && (r.lagged ==> r.next + 64 == |live| && r.seen == s.seen)
      && (!r.lagged ==> r.next == s.next + 1)
  {
  }

  /** Over every interleaving the latest sample that can be asked for is the last one sent on its lane, or
      the one about to be. */
  lemma {:induction false} LatestSample(actions: seq<Action>)
    ensures
      var b := Run(Start(), actions).bus;
      b.statsCurrent ==
        if b.gate.Stored? then Some(b.gate.stats) else if b.samples == [] then None else Some(b.samples[|b.samples| - 1])
    decreases |actions|
  {
    if actions != [] {
      LatestSample(actions[..|actions| - 1]);
    }
  }

  // ----- when nothing is missed or repeated -----

  /** The first event due to a subscriber: the one it looked at, or the one behind its resume point,
      whichever is later. */
  function FirstDue(resume: nat, looked: nat, published: nat): (k: nat)
    ensures k <= published || k < looked
  {
    if looked > resume then looked - 1 else if resume < published then resume else published
  }

  lemma {:induction false} MatchingTicks(live: seq<Event>, from: nat, upto: nat, resume: nat)
    requires from <= upto <= |live| && forall i :: 0 <= i < |live| ==> live[i].tick == i + 1
    ensures |Matching(live[from..upto], resume)| == upto - (if resume < from then from else if resume > upto then upto else resume)
    decreases upto
  {
    if from != upto {
      assert live[from..upto][..upto - 1 - from] == live[from..upto - 1];
      MatchingTicks(live, from, upto - 1, resume);
    }
  }

  /** Without lag, a subscriber that has received everything has seen exactly the events due to it, once
      each and without a gap, if and only if no event was written or broadcast between its looking and
      its joining, or none above its resume point was. */
  lemma CompleteIff(actions: seq<Action>)
    requires
      var w := Run(Start(), actions);
      w.sub.Joined? && !w.sub.lagged && w.sub.next == |w.bus.live| && LookedTick(w.sub.looked) <= |w.bus.live|
    ensures
      var w := Run(Start(), actions);
      var looked, start, resume := LookedTick(w.sub.looked), w.sub.start, w.sub.resume;
      w.sub.seen == w.bus.live[FirstDue(resume, looked, |w.bus.live|)..]
      <==> looked == start || (looked <= resume && start <= resume)
  {
    hide Run, BusInv, SubInv, Matching, FirstDue, LookedTick;
    RunKeeps(actions);
    var w := Run(Start(), actions);
    var live, s := w.bus.live, w.sub;
    SeenIs(w.bus, s);
    MatchingIs(live, s.start, s.resume);
    DueIff(live, s.seen, LookedTick(s.looked), s.start, s.resume);
  }

  /** Where the tail of a published list, behind a replayed event, is what is due. */
  lemma DueIff(live: seq<Event>, seen: seq<Event>, looked: nat, start: nat, resume: nat)
    requires looked <= |live| && start <= |live| && looked <= start + 1
    requires seen == (if looked > resume then [live[looked - 1]] else []) + live[if resume < start then start else if resume > |live| then |live| else resume..]
    ensures seen == live[FirstDue(resume, looked, |live|)..] <==> looked == start || (looked <= resume && start <= resume)
  {
    if looked > resume && looked == start {
      assert live[looked - 1..] == [live[looked - 1]] + live[looked..];
    }
  }

  lemma SeenIs(b: Bus, s: Subscriber)
    requires BusInv(b) && s.Joined? && SubInv(b, s) && !s.lagged && s.next == |b.live| && LookedTick(s.looked) <= |b.live|
    ensures s.start <= |b.live| && LookedTick(s.looked) <= s.start + 1
    ensures forall i :: 0 <= i < |b.live| ==> b.live[i].tick == i + 1
    ensures s.seen == (if LookedTick(s.looked) > s.resume then [b.live[LookedTick(s.looked) - 1]] else []) + Matching(b.live[s.start..], s.resume)
  {
    hide Matching;
    assert b.live[s.start..] == b.live[s.start..|b.live|];
  }

  /** What matches from a place on is a suffix. */
  lemma MatchingIs(live: seq<Event>, from: nat, resume: nat)
    requires from <= |live| && forall i :: 0 <= i < |live| ==> live[i].tick == i + 1
    ensures Matching(live[from..], resume) == live[if resume < from then from else if resume > |live| then |live| else resume..]
  {
    assert live[from..] == live[from..|live|];
    var k := if resume < from then from else if resume > |live| then |live| else resume;
    SkipsMatching(live, from, k, |live|, resume);
    if resume <= k {
      AllMatch(live, k, |live|, resume);
    } else {
      assert live[k..|live|] == [];
    }
    assert live[k..] == live[k..|live|];
  }

  lemma {:induction false} SkipsMatching(live: seq<Event>, from: nat, upto: nat, end: nat, resume: nat)
    requires from <= upto <= end <= |live| && (from == upto || upto <= resume) && forall i :: 0 <= i < |live| ==> live[i].tick == i + 1
    ensures Matching(live[from..end], resume) == Matching(live[upto..end], resume)
    decreases end
  {
    if upto != end {
      SkipsMatching(live, from, upto, end - 1, resume);
      MatchingNext(live, from, end - 1, resume);
      MatchingNext(live, upto, end - 1, resume);
    } else {
      MatchingTicks(live, from, end, resume);
    }
  }

  lemma SliceSnoc<T>(s: seq<T>, from: nat, upto: nat)
    requires from < upto <= |s|
    ensures s[from..upto] == s[from..upto - 1] + [s[upto - 1]]
  {
  }

  lemma {:induction false} AllMatch(live: seq<Event>, from: nat, upto: nat, resume: nat)
    requires from <= upto <= |live| && resume <= from && forall i :: 0 <= i < |live| ==> live[i].tick == i + 1
    ensures Matching(live[from..upto], resume) == live[from..upto]
    decreases upto
  {
    if from == upto {
      assert live[from..upto] == [];
    } else {
      hide Matching;
      AllMatch(live, from, upto - 1, resume);
      MatchingNext(live, from, upto - 1, resume);
      SliceSnoc(live, from, upto);
    }
  }

  /** Joining after a publish that came behind the look misses its event. */
  lemma PublishBetweenIsMissed(kind: Kind, compose: nat -> Snapshot)
    ensures
      var looked := Step(Start(), Look(0));
      var published := Step(Step(Step(Step(looked, Publish(kind, compose)), Advance), Advance), Advance);
      var end := Step(Step(published, Join), Receive);
      |end.bus.live| == 1 && end.sub.seen == [] && end.sub.next == 1
  {
  }

  /** Joining between a publisher's write and its broadcast sees the event twice. */
  lemma JoinDuringPublishRepeats(kind: Kind, compose: nat -> Snapshot)
    ensures
      var written := Step(Step(Step(Start(), Publish(kind, compose)), Advance), Advance);
      var joined := Step(Step(written, Look(0)), Join);
      var end := Step(Step(joined, Advance), Receive);
      |end.bus.live| == 1 && end.sub.seen == [end.bus.live[0], end.bus.live[0]]
  {
    var written := Step(Step(Step(Start(), Publish(kind, compose)), Advance), Advance);
    var e := EventOf(1, kind, compose(1));
    assert written == World(Bus(1, Some(e), None, [], [], Written(e)), Absent);
    var joined := Step(Step(written, Look(0)), Join);
    assert joined.sub == Joined(0, Some(e), 0, 0, false, [e]);
    assert Step(joined, Advance).bus.live == [e];
  }

  // ----- the object -----

  /** The bus as its callers hold it. Each call runs inside the gate, so it is the gate's steps in a row. */
  class Channel {
    var tick: nat
    var current: Option<Event>
    var statsCurrent: Option<Stats>
    var live: seq<Event>
    var samples: seq<Stats>

    ghost function Abstract(): Bus
      reads this
    {
      Bus(tick, current, statsCurrent, live, samples, Free)
    }

    constructor ()
      ensures Abstract() == Start().bus
    {
      tick, current, statsCurrent, live, samples := 0, None, None, [], [];
    }

    method PublishComposing(kind: Kind, compose: nat -> Snapshot) returns (event: Event)
      modifies this
      ensures Abstract() == Advanced(Advanced(Advanced(old(Abstract()).(gate := Entered(kind, compose)))))
      ensures live == old(live) + [event] && current == Some(event) && event.tick == old(tick) + 1
      ensures event.snapshot == compose(event.tick) && event.operation == event.snapshot.operation
    {
      tick := tick + 1;
      event := EventOf(tick, kind, compose(tick));
      current := Some(event);
      live := live + [event];
    }

    method PublishSample(sample: Stats) returns (stats: Stats)
      modifies this
      ensures
        var sampled := Advanced(Advanced(Advanced(old(Abstract()).(gate := Sampling(sample, SnapshotOf(old(current)))))));
        Abstract() == if IsConnected(SnapshotOf(old(current))) then Advanced(Advanced(sampled)) else sampled
      ensures stats == sample.(sampleTick := tick) && samples == old(samples) + [stats]
      ensures IsConnected(SnapshotOf(old(current))) ==>
                && tick == old(tick) + 1
                && live == old(live) + [Republished(old(current).value.snapshot, stats)]
                && current.value.snapshot.phase == old(current).value.snapshot.phase
      ensures !IsConnected(SnapshotOf(old(current))) ==> tick == old(tick) && live == old(live) && current == old(current)
    {
      var latest := SnapshotOf(current);
      if IsConnected(latest) { tick := tick + 1; }
      stats := sample.(sampleTick := tick);
      statsCurrent := Some(stats);
      samples := samples + [stats];
      if IsConnected(latest) {
        var event := Republished(latest.value, stats);
        current := Some(event);
        live := live + [event];
      }
    }
  }
}
