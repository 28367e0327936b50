/**
  The helper composition: ownership, packet attachment and frame admission, and a
  retirement that releases only when the teardown barrier and the saga are both through.
 */
module Helper {
  import opened Wrappers
  import Teardown
  import Retirement

  type Id = nat

  datatype Phase = Idle | Acquired | Active | Retiring | Retired

  datatype Helper = Helper(
    phase: Phase,
    version: Option<Id>,
    attached: bool,
    barrier: Teardown.Barrier,
    saga: Option<Retirement.Saga>,
    operation: Option<Id>,
    expected: seq<Retirement.Label>)

  const NewHelper: Helper := Helper(Idle, None, false, Teardown.Fenced, None, None, [])

  datatype Op =
    | AcquireOwnership(version: Id)
    | AttachPacket
    | BeginRetirement(authority: Retirement.Authority, prior: Id, operation: Id, obligations: seq<Retirement.Label>, inventory: Id)
    | JoinTeardown(side: Teardown.Side)
    | ObserveAndProve(evidence: Id)
    | RetireSaga(next: Id)
    | ReleaseOwnership
    | AdmitFrame(frame: Id)

  /** The call's effect and whether it was accepted; a refused call changes nothing. */
  datatype Stepped = Stepped(helper: Helper, ok: bool)

  /** The saga driven from wherever it stands to Retired, if its inventory can be completed. */
  ghost predicate Retirable(s: Retirement.Saga) {
    || (s.phase == Retirement.Started && Retirement.NoRepeats(s.expected) && s.operation.Some?)
    || (s.phase == Retirement.Observed && s.operation.Some?)
    || s.phase == Retirement.Proved
  }

  ghost function Step(h: Helper, op: Op): Stepped {
    match op
    case AcquireOwnership(version) =>
      if h.phase == Idle then Stepped(h.(phase := Acquired, version := Some(version)), true) else Stepped(h, false)
    case AttachPacket =>
      if h.phase == Acquired then Stepped(h.(phase := Active, attached := true), true) else Stepped(h, false)
    case BeginRetirement(authority, prior, operation, obligations, inventory) =>
      if h.phase == Acquired || h.phase == Active then
        var saga := Retirement.Saga(authority, prior, Some(operation), obligations, inventory, None, Retirement.Started);
        Stepped(h.(phase := Retiring, saga := Some(saga), operation := Some(operation), expected := obligations), true)
      else Stepped(h, false)
    case JoinTeardown(side) =>
      var j := Teardown.JoinBarrier(h.barrier, side);
      Stepped(h.(barrier := j.barrier), j.outcome != Teardown.Rejected)
    case ObserveAndProve(_) =>
      if h.phase == Retiring && h.saga.Some? && h.saga.value.phase == Retirement.Started && Retirement.NoRepeats(h.expected) && h.saga.value.operation.Some?
      then Stepped(h.(saga := Some(h.saga.value.(phase := Retirement.Proved))), true)
      else Stepped(h, false)
    case RetireSaga(next) =>
      if h.phase == Retiring && h.saga.Some? && Retirable(h.saga.value)
      then Stepped(h.(saga := Some(h.saga.value.(phase := Retirement.Retired, nextVersion := Some(next)))), true)
      else Stepped(h, false)
    case ReleaseOwnership =>
      if h.barrier.released && h.saga.Some? && h.saga.value.phase == Retirement.Retired
      then Stepped(h.(phase := Retired, attached := false), true)
      else Stepped(h, false)
    case AdmitFrame(frame) =>
      Stepped(h, h.attached && h.phase != Retiring && h.phase != Retired && h.version == Some(frame))
  }

  ghost function Run(h: Helper, ops: seq<Op>): Helper {
    if ops == [] then h else Step(Run(h, ops[..|ops| - 1]), ops[|ops| - 1]).helper
  }

  /** What every reachable helper keeps. */
  ghost predicate Inv(h: Helper) {
    && (h.version.Some? <==> h.phase != Idle)
    && (h.saga.Some? <==> h.phase == Retiring || h.phase == Retired)
    && (h.attached ==> h.phase == Active || h.phase == Retiring)
    && (h.phase == Active ==> h.attached)
    && (h.barrier.released <==> h.barrier.protocolJoined && h.barrier.packetJoined)
    && (h.phase == Retired ==> h.barrier.released && h.saga.value.phase == Retirement.Retired)
    && (h.saga.Some? ==> SagaInv(h.saga.value) && h.saga.value.expected == h.expected && h.saga.value.operation == h.operation)
  }

  /** A saga that got past its start had an inventory that could be completed. */
  ghost predicate SagaInv(s: Retirement.Saga) {
    && s.operation.Some?
    && s.phase in {Retirement.Started, Retirement.Proved, Retirement.Retired}
    && (s.phase != Retirement.Started ==> Retirement.NoRepeats(s.expected))
    && (s.nextVersion.Some? <==> s.phase == Retirement.Retired)
  }

  lemma StepKeeps(h: Helper, op: Op)
    requires Inv(h)
    ensures Inv(Step(h, op).helper)
  {
    hide Retirement.NoRepeats;
  }

  lemma {:induction false} RunKeeps(h: Helper, ops: seq<Op>)
    requires Inv(h)
    ensures Inv(Run(h, ops))
    decreases |ops|
  {
    hide Inv, Step;
    if ops != [] {
      RunKeeps(h, ops[..|ops| - 1]);
      StepKeeps(Run(h, ops[..|ops| - 1]), ops[|ops| - 1]);
    }
  }

  lemma {:induction false} JoinsAreCalls(ops: seq<Op>, side: Teardown.Side)
    requires Teardown.HasJoined(Run(NewHelper, ops).barrier, side)
    ensures JoinTeardown(side) in ops
    decreases |ops|
  {
    if ops != [] {
      var before := ops[..|ops| - 1];
      if Teardown.HasJoined(Run(NewHelper, before).barrier, side) {
        JoinsAreCalls(before, side);
        assert ops == before + [ops[|ops| - 1]];
      } else {
        assert ops[|ops| - 1] == JoinTeardown(side);
      }
    }
  }

  /** Over every run, ownership is released only after both sides joined and the saga retired over a
      complete inventory; nothing stays attached. */
  lemma ReleaseIsClean(ops: seq<Op>)
    requires Run(NewHelper, ops).phase == Retired
    ensures
      var h := Run(NewHelper, ops);
      && JoinTeardown(Teardown.ProtocolControl) in ops && JoinTeardown(Teardown.PacketData) in ops
      && h.saga.Some? && h.saga.value.phase == Retirement.Retired && Retirement.NoRepeats(h.expected)
      && !h.attached
  {
    RunKeeps(NewHelper, ops);
    hide Run;
    JoinsAreCalls(ops, Teardown.ProtocolControl);
    JoinsAreCalls(ops, Teardown.PacketData);
  }

  /** Release succeeds if and only if both sides joined and the saga is Retired. */
  lemma ReleaseIff(ops: seq<Op>)
    ensures
      var h := Run(NewHelper, ops);
      Step(h, ReleaseOwnership).ok <==>
        Teardown.HasJoined(h.barrier, Teardown.ProtocolControl) && Teardown.HasJoined(h.barrier, Teardown.PacketData)
        && h.saga.Some? && h.saga.value.phase == Retirement.Retired
  {
    RunKeeps(NewHelper, ops);
    hide Run;
  }

  predicate Ending(h: Helper) {
    h.phase == Retiring || h.phase == Retired
  }

  /** Once a retirement begins, no later call admits a frame, attaches packets, acquires ownership or
      begins another retirement, and the obligations are fixed. */
  lemma {:induction false} NothingAfterRetirement(h: Helper, ops: seq<Op>, op: Op)
    requires Ending(h)
    ensures Ending(Run(h, ops)) && Run(h, ops).expected == h.expected
    ensures op.AdmitFrame? || op.AttachPacket? || op.AcquireOwnership? || op.BeginRetirement? ==> !Step(Run(h, ops), op).ok
    decreases |ops|
  {
    if ops != [] {
      hide Retirement.NoRepeats, Retirable;
      NothingAfterRetirement(h, ops[..|ops| - 1], op);
    }
  }

  ghost predicate AcquiredVersion(ops: seq<Op>, v: Id) {
    exists i :: 0 <= i < |ops| && ops[i] == AcquireOwnership(v) && Run(NewHelper, ops[..i]).phase == Idle
  }

  lemma {:induction false} VersionWasAcquired(ops: seq<Op>, v: Id)
    requires Run(NewHelper, ops).version == Some(v)
    ensures AcquiredVersion(ops, v)
    decreases |ops|
  {
    var n := |ops| - 1;
    var before := ops[..n];
    if Run(NewHelper, before).version == Some(v) {
      VersionWasAcquired(before, v);
      var i :| 0 <= i < |before| && before[i] == AcquireOwnership(v) && Run(NewHelper, before[..i]).phase == Idle;
      assert before[..i] == ops[..i];
    } else {
      assert ops[n] == AcquireOwnership(v) && Run(NewHelper, ops[..n]).phase == Idle;
    }
  }

  /** Over every run, a frame is admitted only under the version that was acquired, after attaching and
      before any retirement. */
  lemma FrameIsOwned(ops: seq<Op>, frame: Id)
    requires Step(Run(NewHelper, ops), AdmitFrame(frame)).ok
    ensures Run(NewHelper, ops).phase == Active && AcquiredVersion(ops, frame)
  {
    RunKeeps(NewHelper, ops);
    VersionWasAcquired(ops, frame);
  }

  /** Nothing with a repeated obligation is ever released, whatever is called. */
  lemma {:induction false} RepeatsNeverRelease(h: Helper, ops: seq<Op>)
    requires Inv(h) && h.phase == Retiring && !Retirement.NoRepeats(h.expected)
    ensures Run(h, ops).phase == Retiring
    decreases |ops|
  {
    if ops != [] {
      RunKeeps(h, ops[..|ops| - 1]);
      NothingAfterRetirement(h, ops[..|ops| - 1], ReleaseOwnership);
      RepeatsNeverRelease(h, ops[..|ops| - 1]);
      hide Retirement.NoRepeats;
    }
  }

  /** A retirement can be completed exactly if its obligations do not repeat: then these calls complete
      it from any point, and otherwise none do. */
  lemma ReleaseReachableIff(h: Helper, next: Id)
    requires Inv(h) && h.phase == Retiring
    ensures (exists ops :: Run(h, ops).phase == Retired) <==> Retirement.NoRepeats(h.expected)
  {
    if Retirement.NoRepeats(h.expected) {
      FinishingRun(h, next);
      assert Run(h, Finish(next)).phase == Retired;
    } else {
      forall ops: seq<Op>
        ensures Run(h, ops).phase != Retired
      {
        RepeatsNeverRelease(h, ops);
      }
    }
  }

  function Finish(next: Id): seq<Op> {
    [JoinTeardown(Teardown.ProtocolControl)] + [JoinTeardown(Teardown.PacketData)] + [RetireSaga(next)] + [ReleaseOwnership]
  }

  lemma RunSnoc(h: Helper, ops: seq<Op>, op: Op)
    ensures Run(h, ops + [op]) == Step(Run(h, ops), op).helper
  {
    assert (ops + [op])[..|ops|] == ops;
  }

  lemma FinishingRun(h: Helper, next: Id)
    requires Inv(h) && h.phase == Retiring && Retirement.NoRepeats(h.expected)
    ensures Run(h, Finish(next)).phase == Retired
  {
    hide Run, Retirement.NoRepeats;
    var a := [JoinTeardown(Teardown.ProtocolControl)];
    var b := a + [JoinTeardown(Teardown.PacketData)];
    var c := b + [RetireSaga(next)];
    RunNone(h);
    RunSnoc(h, [], JoinTeardown(Teardown.ProtocolControl));
    assert [] + a == a;
    RunSnoc(h, a, JoinTeardown(Teardown.PacketData));
    RunSnoc(h, b, RetireSaga(next));
    RunSnoc(h, c, ReleaseOwnership);
    BothJoined(h.barrier);
  }

  lemma RunNone(h: Helper)
    ensures Run(h, []) == h
  {
  }

  lemma BothJoined(b: Teardown.Barrier)
    requires b.released <==> b.protocolJoined && b.packetJoined
    ensures Teardown.JoinBarrier(Teardown.JoinBarrier(b, Teardown.ProtocolControl).barrier, Teardown.PacketData).barrier.released
  {
  }

  // ----- which joins belong to the retirement -----

  /** A join that took effect, at this place of the run. */
  ghost predicate Joins(ops: seq<Op>, i: nat, side: Teardown.Side) {
    i < |ops| && ops[i] == JoinTeardown(side) && Step(Run(NewHelper, ops[..i]), ops[i]).ok
  }

  ghost predicate JoinedBy(ops: seq<Op>, n: nat, side: Teardown.Side)
    requires n <= |ops|
  {
    Teardown.HasJoined(Run(NewHelper, ops[..n]).barrier, side)
  }

  lemma RunPrefix(ops: seq<Op>, n: nat)
    requires n < |ops|
    ensures Run(NewHelper, ops[..n + 1]) == Step(Run(NewHelper, ops[..n]), ops[n]).helper
  {
    assert ops[..n + 1][..n] == ops[..n];
  }

  lemma OneStepJoins(h: Helper, op: Op, side: Teardown.Side)
    requires Inv(h)
    ensures Teardown.HasJoined(Step(h, op).helper.barrier, side)
       <==> Teardown.HasJoined(h.barrier, side) || (op == JoinTeardown(side) && Step(h, op).ok)
    ensures op == JoinTeardown(side) && Step(h, op).ok ==> !Teardown.HasJoined(h.barrier, side)
  {
    hide Retirement.NoRepeats, Retirable;
  }

  /** A side has joined by the end if and only if it had by some point or joins after it. */
  lemma {:induction false} JoinedLater(ops: seq<Op>, from: nat, n: nat, side: Teardown.Side)
    requires from <= n <= |ops|
    ensures JoinedBy(ops, n, side) <==> JoinedBy(ops, from, side) || exists i :: from <= i < n && Joins(ops, i, side)
    decreases n
  {
    if from != n {
      JoinedLater(ops, from, n - 1, side);
      RunPrefix(ops, n - 1);
      RunKeeps(NewHelper, ops[..n - 1]);
      hide Run;
      OneStepJoins(Run(NewHelper, ops[..n - 1]), ops[n - 1], side);
      if JoinedBy(ops, n, side) && !JoinedBy(ops, n - 1, side) {
        assert Joins(ops, n - 1, side);
      }
    }
  }

  /** Over every released run: a side's join comes behind any given point, such as the start of the
      retirement, if and only if that side had not joined by then. */
  lemma JoinFollowsIff(ops: seq<Op>, from: nat, side: Teardown.Side)
    requires from <= |ops| && Run(NewHelper, ops).phase == Retired
    ensures (exists i :: from <= i < |ops| && Joins(ops, i, side)) <==> !JoinedBy(ops, from, side)
  {
    RunKeeps(NewHelper, ops);
    assert ops[..|ops|] == ops;
    assert JoinedBy(ops, |ops|, side);
    hide Run;
    JoinedLater(ops, from, |ops|, side);
    if i :| from <= i < |ops| && Joins(ops, i, side) {
      RunKeeps(NewHelper, ops[..i]);
      OneStepJoins(Run(NewHelper, ops[..i]), ops[i], side);
      JoinedLater(ops, from, i, side);
    }
  }

  /** Both sides can join before anything is owned, and the release then waits for nothing. */
  lemma JoinsBeforeOwning(authority: Retirement.Authority, version: Id, operation: Id, inventory: Id, next: Id)
    ensures
      var early := [JoinTeardown(Teardown.ProtocolControl)] + [JoinTeardown(Teardown.PacketData)];
      var owned := early + [AcquireOwnership(version)] + [AttachPacket];
      var ended := owned + [BeginRetirement(authority, version, operation, [], inventory)] + [RetireSaga(next)] + [ReleaseOwnership];
      Run(NewHelper, owned).phase == Active && Run(NewHelper, ended).phase == Retired
  {
    hide Run;
    RunNone(NewHelper);
    var a := [JoinTeardown(Teardown.ProtocolControl)];
    assert [] + a == a;
    RunSnoc(NewHelper, [], JoinTeardown(Teardown.ProtocolControl));
    var b := a + [JoinTeardown(Teardown.PacketData)];
    RunSnoc(NewHelper, a, JoinTeardown(Teardown.PacketData));
    var c := b + [AcquireOwnership(version)];
    RunSnoc(NewHelper, b, AcquireOwnership(version));
    var d := c + [AttachPacket];
    RunSnoc(NewHelper, c, AttachPacket);
    var begin := BeginRetirement(authority, version, operation, [], inventory);
    var e := d + [begin];
    RunSnoc(NewHelper, d, begin);
    var f := e + [RetireSaga(next)];
    RunSnoc(NewHelper, e, RetireSaga(next));
    RunSnoc(NewHelper, f, ReleaseOwnership);
  }

  /** A retirement begun with an obligation named twice is never completed. */
  lemma TwiceNamedNeverReleases(authority: Retirement.Authority, version: Id, operation: Id, inventory: Id, ops: seq<Op>)
    ensures
      var begun := Run(NewHelper, [AcquireOwnership(version)] + [BeginRetirement(authority, version, operation, [1, 1], inventory)]);
      begun.phase == Retiring && Run(begun, ops).phase == Retiring
  {
    var begin := BeginRetirement(authority, version, operation, [1, 1], inventory);
    var a := [AcquireOwnership(version)];
    assert [] + a == a;
    RunNone(NewHelper);
    RunSnoc(NewHelper, [], AcquireOwnership(version));
    RunSnoc(NewHelper, a, begin);
    RunKeeps(NewHelper, a + [begin]);
    hide Run;
    var h := Run(NewHelper, a + [begin]);
    assert h.expected == [1, 1] && h.expected[0] == h.expected[1];
    RepeatsNeverRelease(h, ops);
  }

  // ----- the object -----

  class HelperComposition {
    var phase: Phase
    var version: Option<Id>
    var attached: bool
    const teardown: Teardown.TeardownBarrier
    var retirement: Retirement.RetirementSaga?
    var operation: Option<Id>
    var expected: seq<Retirement.Label>

    ghost function Sealed(): Option<Retirement.Saga>
      reads this, retirement
    {
      if retirement == null then None else Some(retirement.Abstract())
    }

    ghost function Abstract(): Helper
      reads this, teardown, retirement
    {
      Helper(phase, version, attached, teardown.Abstract(), Sealed(), operation, expected)
    }

    constructor ()
      ensures Abstract() == NewHelper && fresh(teardown)
    {
      phase, version, attached, retirement, operation, expected := Idle, None, false, null, None, [];
      teardown := new Teardown.TeardownBarrier();
    }

    method Acquire(v: Id) returns (ok: bool)
      modifies this
      ensures Stepped(Abstract(), ok) == Step(old(Abstract()), AcquireOwnership(v)) && retirement == old(retirement)
    {
      if phase != Idle { return false; }
      phase, version := Acquired, Some(v);
      return true;
    }

    method Attach() returns (ok: bool)
      modifies this
      ensures Stepped(Abstract(), ok) == Step(old(Abstract()), AttachPacket) && retirement == old(retirement)
    {
      if phase != Acquired { return false; }
      phase, attached := Active, true;
      return true;
    }

    method Begin(authority: Retirement.Authority, prior: Id, op: Id, obligations: seq<Retirement.Label>, inventory: Id) returns (ok: bool)
      modifies this
      ensures Stepped(Abstract(), ok) == Step(old(Abstract()), BeginRetirement(authority, prior, op, obligations, inventory))
      ensures retirement == old(retirement) || fresh(retirement)
    {
      if phase != Acquired && phase != Active { return false; }
      var saga := new Retirement.RetirementSaga(authority, prior);
      var begun := saga.Begin(op, obligations, inventory);
      if begun.Err? { return false; }
      retirement, operation, expected, phase := saga, Some(op), obligations, Retiring;
      return true;
    }

    method Join(side: Teardown.Side) returns (outcome: Teardown.JoinOutcome)
      modifies teardown
      ensures Stepped(Abstract(), outcome != Teardown.Rejected) == Step(old(Abstract()), JoinTeardown(side))
      ensures Teardown.JoinResult(teardown.Abstract(), outcome) == Teardown.JoinBarrier(old(teardown.Abstract()), side)
    {
      outcome := teardown.Join(side);
    }

    /** Every expected obligation, as re-verified. */
    method Inventory() returns (observed: seq<Retirement.Seen>)
      ensures Retirement.Complete(observed, expected) <==> Retirement.NoRepeats(expected)
    {
      var labels := expected;
      observed := seq(|labels|, i requires 0 <= i < |labels| => Retirement.Seen(labels[i], true));
      assert Retirement.SeenLabels(observed) == expected;
    }

    method ObserveThenProve(evidence: Id) returns (r: Option<Retirement.CleanProof>)
      requires Inv(Abstract())
      modifies retirement
      ensures Stepped(Abstract(), r.Some?) == Step(old(Abstract()), ObserveAndProve(evidence))
    {
      hide Retirement.Complete, Retirement.NoRepeats;
      if phase != Retiring || retirement == null { return None; }
      var observed := Inventory();
      var seen := retirement.ObserveCleanup(observed);
      if seen.Err? { return None; }
      var proof := retirement.ProveClean(evidence);
      return if proof.Ok? then Some(proof.value) else None;
    }

    method Retire(next: Id, evidence: Id) returns (ok: bool)
      requires Inv(Abstract())
      modifies retirement
      ensures Stepped(Abstract(), ok) == Step(old(Abstract()), RetireSaga(next))
    {
      hide Retirement.Complete, Retirement.NoRepeats;
      if phase != Retiring || retirement == null { return false; }
      if retirement.phase == Retirement.Started {
        var observed := Inventory();
        var seen := retirement.ObserveCleanup(observed);
        if seen.Err? { return false; }
      }
      if retirement.phase == Retirement.Observed {
        var proof := retirement.ProveClean(evidence);
        if proof.Err? { return false; }
      }
      var retired := retirement.RetireOwnership(next);
      return retired.Ok?;
    }

    method Release() returns (ok: bool)
      modifies this
      ensures Stepped(Abstract(), ok) == Step(old(Abstract()), ReleaseOwnership) && retirement == old(retirement)
    {
      if !teardown.released { return false; }
      if retirement == null || retirement.phase != Retirement.Retired { return false; }
      phase, attached := Retired, false;
      return true;
    }

    method Admit(frame: Id) returns (ok: bool)
      ensures ok <==> Step(Abstract(), AdmitFrame(frame)).ok
    {
      if !attached { return false; }
      if phase == Retiring || phase == Retired { return false; }
      return version == Some(frame);
    }
  }
}
