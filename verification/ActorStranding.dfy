/**
  Two runs from rest after which an effect in flight can no longer be consumed.
 */
module ActorStranding {
  import opened Wrappers
  import opened Reducer
  import opened ActorRun
  import opened ActorEras

  // ----- how effects get stranded -----

  function Submits(cs: seq<Command>): (r: seq<Op>)
    ensures |r| == |cs| && forall i :: 0 <= i < |r| ==> r[i] == Submit(cs[i])
  {
    seq(|cs|, i requires 0 <= i < |cs| => Submit(cs[i]))
  }

  /** Submitting some commands and pumping runs them. */
  lemma {:induction false} SubmitAll(s: System, cs: seq<Command>, limits: Limits, entropy: Entropy)
    requires s.commands == [] && |cs| <= limits.commandMessages
    ensures Run(s, Submits(cs), limits, entropy) == s.(commands := cs)
    decreases |cs|
  {
    hide Step;
    if cs == [] {
      assert Submits(cs) == [];
      RunSnoc(s, [], Pump, limits, entropy);
    } else {
      var n := |cs| - 1;
      SubmitAll(s, cs[..n], limits, entropy);
      assert Submits(cs) == Submits(cs[..n]) + [Submit(cs[n])];
      RunSnoc(s, Submits(cs[..n]), Submit(cs[n]), limits, entropy);
      assert cs == cs[..n] + [cs[n]];
      SubmitStep(s.(commands := cs[..n]), cs[n], limits, entropy);
    }
  }

  lemma SubmitStep(s: System, c: Command, limits: Limits, entropy: Entropy)
    requires |s.commands| < limits.commandMessages
    ensures Step(s, Submit(c), limits, entropy) == s.(commands := s.commands + [c])
  {
  }

  lemma SubmitAndPump(s: System, cs: seq<Command>, limits: Limits, entropy: Entropy)
    requires s.commands == [] && s.completions == [] && |cs| <= limits.commandMessages
    ensures Run(s, Submits(cs) + [Pump], limits, entropy).actor == RunCommands(s.actor, cs, entropy)
  {
    hide RunCommands;
    SubmitAll(s, cs, limits, entropy);
    RunSnoc(s, Submits(cs), Pump, limits, entropy);
  }

  lemma RunPair(initial: Actor, entropy: Entropy, a: Command, b: Command)
    ensures RunCommands(initial, [a, b], entropy) == HandleCommand(HandleCommand(initial, a, entropy), b, entropy)
  {
    hide HandleCommand;
    assert [a, b][1..] == [b] && [b][1..] == [];
    assert RunCommands(initial, [a, b], entropy) == RunCommands(HandleCommand(initial, a, entropy), [b], entropy);
    assert RunCommands(HandleCommand(initial, a, entropy), [b], entropy)
        == RunCommands(HandleCommand(HandleCommand(initial, a, entropy), b, entropy), [], entropy);
  }

  /** From rest: a Connect in one era, then the host lost into another, strands the connection effect. */
  lemma HostLossStrands(intent: ConnectIntent, epoch: Id, limits: Limits, entropy: Entropy)
    requires intent.key.epoch != epoch && limits.commandMessages >= 2
    ensures SomeStranded(Run(System(Start(Idle(None), 0), [], []), Submits([Connect(intent), HostLost(epoch)]) + [Pump], limits, entropy).actor)
  {
    var s := System(Start(Idle(None), 0), [], []);
    SubmitAndPump(s, [Connect(intent), HostLost(epoch)], limits, entropy);
    hide Run;
    RunPair(s.actor, entropy, Connect(intent), HostLost(epoch));
    hide RunCommands;
    var a := HandleCommand(s.actor, Connect(intent), entropy);
    assert |a.inflight| == 1 && FenceEpoch(a.inflight[0].fence) == intent.key.epoch;
    var b := HandleCommand(a, HostLost(epoch), entropy);
    assert b.inflight[0] == a.inflight[0] && Stranded(b, b.inflight[0]);
  }

  /** From rest and with no host lost: a Connect of another era, queued behind a Stop and revoked by the
      next one, is revoked under its own era, which is not the current one. */
  lemma RevokedConnectStrands(first: ConnectIntent, stop: StopIntent, second: ConnectIntent, limits: Limits, entropy: Entropy)
    requires first.key.epoch != second.key.epoch && limits.commandMessages >= 4
    ensures
      SomeStranded(
        Run(System(Start(Idle(None), 0), [], []), Submits([Connect(first), Stop(stop), Connect(second), Stop(stop)]) + [Pump], limits, entropy).actor)
  {
    var s := System(Start(Idle(None), 0), [], []);
    var cs := [Connect(first), Stop(stop), Connect(second), Stop(stop)];
    SubmitAndPump(s, cs, limits, entropy);
    hide Run;
    RunTwo(s.actor, cs, entropy);
    RunPair(s.actor, entropy, Connect(first), Stop(stop));
    hide RunCommands;
    var b := HandleCommand(HandleCommand(s.actor, Connect(first), entropy), Stop(stop), entropy);
    ConnectThenStop(first, stop, entropy);
    RunPair(b, entropy, Connect(second), Stop(stop));
    QueueThenStop(b, second, stop, entropy);
  }

  lemma ConnectThenStop(first: ConnectIntent, stop: StopIntent, entropy: Entropy)
    ensures
      var b := HandleCommand(HandleCommand(Start(Idle(None), 0), Connect(first), entropy), Stop(stop), entropy);
      b.epoch == Some(first.key.epoch) && b.state.Stopping? && b.state.queued == None
  {
    var a := HandleCommand(Start(Idle(None), 0), Connect(first), entropy);
    assert a.epoch == Some(first.key.epoch) && a.state.Connecting?;
  }

  lemma QueueThenStop(b: Actor, second: ConnectIntent, stop: StopIntent, entropy: Entropy)
    requires b.epoch.Some? && b.epoch.value != second.key.epoch && b.state.Stopping? && b.state.queued == None
    ensures SomeStranded(HandleCommand(HandleCommand(b, Connect(second), entropy), Stop(stop), entropy))
  {
    var c := HandleCommand(b, Connect(second), entropy);
    assert c.epoch == b.epoch && c.state.Stopping? && c.state.queued == Some(second);
    LastStranded(c, second, stop, entropy);
  }

  lemma LastStranded(c: Actor, second: ConnectIntent, stop: StopIntent, entropy: Entropy)
    requires c.epoch.Some? && c.epoch.value != second.key.epoch && c.state.Stopping? && c.state.queued == Some(second)
    ensures SomeStranded(HandleCommand(c, Stop(stop), entropy))
  {
    var d := HandleCommand(c, Stop(stop), entropy);
    var last := |c.inflight|;
    assert d.epoch == c.epoch && |d.inflight| == last + 1 && FenceEpoch(d.inflight[last].fence) == second.key.epoch;
    assert Stranded(d, d.inflight[last]);
  }

  lemma RunTwo(a: Actor, cs: seq<Command>, entropy: Entropy)
    requires |cs| == 4
    ensures RunCommands(a, cs, entropy) == RunCommands(RunCommands(a, [cs[0], cs[1]], entropy), [cs[2], cs[3]], entropy)
  {
    RunPair(a, entropy, cs[0], cs[1]);
    hide HandleCommand;
    assert cs[1..][0] == cs[1] && cs[1..][1..] == [cs[2], cs[3]];
  }
}
