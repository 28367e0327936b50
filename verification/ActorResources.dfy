/**
  What the actor does with the resources its state holds. The reducer gives up everything
  a Stop finds; the actor's own steps do not always go through the reducer.
 */
module ActorResources {
  import opened Wrappers
  import opened Reducer
  import opened ActorRun
  import opened ActorEras
  import opened ActorStranding

  /** Some effect scheduled between the two gives this resource up. */
  ghost predicate GivenUpSince(a: Actor, b: Actor, r: Resource) {
    exists i :: |a.scheduled| <= i < |b.scheduled| && GivesUp(b.scheduled[i]) == Some(r)
  }

  /** A resource held before is neither held nor given up after. */
  ghost predicate Forgets(a: Actor, b: Actor) {
    exists i :: 0 <= i < |Held(a.state)| && Dropped(a, b, Held(a.state)[i])
  }

  ghost predicate Dropped(a: Actor, b: Actor, r: Resource) {
    r !in Held(b.state) && !GivenUpSince(a, b, r)
  }

  lemma SameStateForgetsNothing(a: Actor, b: Actor)
    requires b.state == a.state
    ensures !Forgets(a, b)
  {
  }

  lemma StopForgetsNothing(a: Actor, stop: StopIntent, entropy: Entropy)
    ensures !Forgets(a, HandleCommand(a, Stop(stop), entropy))
  {
    var inputs := FreshInputs(entropy, a.drawn, []);
    StopGivesUpWhatIsHeld(a.state, stop, inputs);
    hide Reduce, Held, GivesUp, FenceEpoch;
    var b := HandleCommand(a, Stop(stop), entropy);
    var d := Reduce(a.state, Stop(stop), inputs);
    forall i | 0 <= i < |Held(a.state)|
      ensures !Dropped(a, b, Held(a.state)[i])
    {
      assert b.scheduled[|a.scheduled| + i] == d.effects[i];
    }
  }

  lemma ConnectForgetsNothing(a: Actor, intent: ConnectIntent, entropy: Entropy)
    ensures !Forgets(a, HandleCommand(a, Connect(intent), entropy))
  {
    var b := HandleCommand(a, Connect(intent), entropy);
    assert forall i :: 0 <= i < |Held(a.state)| ==> Held(a.state)[i] in Held(b.state);
  }

  lemma HostLossForgets(a: Actor, epoch: Id, entropy: Entropy)
    ensures Forgets(a, HandleCommand(a, HostLost(epoch), entropy)) <==> Held(a.state) != []
  {
    var b := HandleCommand(a, HostLost(epoch), entropy);
    assert b.scheduled[|a.scheduled|..] == [LostEffect(epoch, entropy(a.drawn), entropy(a.drawn + 1))];
    assert forall i :: |a.scheduled| <= i < |b.scheduled| ==> GivesUp(b.scheduled[i]) == Some(ProtocolOf(11));
    if Held(a.state) != [] {
      var last := |Held(a.state)| - 1;
      assert Held(a.state)[last] != ProtocolOf(11);
      assert Dropped(a, b, Held(a.state)[last]);
    }
  }

  /** Of the commands, exactly a lost host forgets what is held, and it forgets something whenever
      anything is held. */
  lemma CommandForgetsIff(a: Actor, command: Command, entropy: Entropy)
    ensures Forgets(a, HandleCommand(a, command, entropy)) <==> command.HostLost? && Held(a.state) != []
  {
    hide Forgets, Held;
    match command
    case HostLost(epoch) => HostLossForgets(a, epoch, entropy);
    case Stop(stop) => StopForgetsNothing(a, stop, entropy);
    case Connect(intent) => ConnectForgetsNothing(a, intent, entropy);
    case _ => SameStateForgetsNothing(a, HandleCommand(a, command, entropy));
  }

  /** Dispositions that send the actor into recovery. */
  predicate Recovers(d: StaleDisposition) {
    match d
    case ProvenNoEffect => false
    case AcquiredEphemeralResource(owner) => owner.kind == PacketLateHandle
    case JournaledExternalEffect(_) => true
    case UnknownResourceAcquisition(_) => true
  }

  /** Of the completions, exactly a stale one of this era that sends the actor into recovery does. */
  lemma CompletionForgetsIff(a: Actor, c: Completion, entropy: Entropy)
    ensures Forgets(a, HandleCompletion(a, c, entropy))
       <==> !Foreign(a, c.fence) && c.fence !in Fences(a.inflight) && Recovers(c.stale) && Held(a.state) != []
  {
    hide Held, FenceEpoch, FenceEffect, FindLate, GivesUp;
    PositionIff(a.inflight, c.fence);
    var b := HandleCompletion(a, c, entropy);
    if !Foreign(a, c.fence) && c.fence !in Fences(a.inflight) && Recovers(c.stale) {
      assert b.state.Reconciling? && b.scheduled == a.scheduled;
      RecoveringHolds(b.state);
      if Held(a.state) != [] {
        assert Dropped(a, b, Held(a.state)[0]);
      }
    } else {
      assert b.state == a.state;
      SameStateForgetsNothing(a, b);
    }
  }

  lemma RecoveringHolds(s: State)
    requires s.Reconciling?
    ensures Held(s) == []
  {
  }

  /** Over every list of commands without a lost host: what was held is still held or was given up. */
  lemma {:induction false} CommandsForgetNothing(a: Actor, cs: seq<Command>, entropy: Entropy)
    requires forall i :: 0 <= i < |cs| ==> !cs[i].HostLost?
    ensures !Forgets(a, RunCommands(a, cs, entropy)) && a.scheduled <= RunCommands(a, cs, entropy).scheduled
    decreases |cs|
  {
    hide HandleCommand, Held, GivesUp;
    if cs == [] {
      SameStateForgetsNothing(a, a);
    } else {
      var b := HandleCommand(a, cs[0], entropy);
      CommandForgetsIff(a, cs[0], entropy);
      ScheduleGrows(a, cs[0], entropy);
      CommandsForgetNothing(b, cs[1..], entropy);
      var c := RunCommands(b, cs[1..], entropy);
      forall i | 0 <= i < |Held(a.state)|
        ensures !Dropped(a, c, Held(a.state)[i])
      {
        var r := Held(a.state)[i];
        assert !Dropped(a, b, r);
        if r in Held(b.state) {
          var j :| 0 <= j < |Held(b.state)| && Held(b.state)[j] == r;
          assert !Dropped(b, c, Held(b.state)[j]);
        } else {
          var k :| |a.scheduled| <= k < |b.scheduled| && GivesUp(b.scheduled[k]) == Some(r);
          assert c.scheduled[k] == b.scheduled[k];
        }
      }
    }
  }

  lemma ScheduleGrows(a: Actor, command: Command, entropy: Entropy)
    ensures a.scheduled <= HandleCommand(a, command, entropy).scheduled
  {
    hide Reduce, FenceEpoch;
  }

  /** From rest: a Connect that was told it is queued is dropped by a lost host, neither waiting any more
      nor revoked by anything scheduled since. */
  lemma QueuedConnectIsDropped(first: ConnectIntent, stop: StopIntent, second: ConnectIntent, epoch: Id, entropy: Entropy)
    ensures
      var before := HandleCommand(HandleCommand(HandleCommand(Start(Idle(None), 0), Connect(first), entropy), Stop(stop), entropy), Connect(second), entropy);
      var after := HandleCommand(before, HostLost(epoch), entropy);
      Held(before.state) == [QueuedOf(second)] && Dropped(before, after, QueuedOf(second))
  {
    ConnectThenStop(first, stop, entropy);
    var b := HandleCommand(HandleCommand(Start(Idle(None), 0), Connect(first), entropy), Stop(stop), entropy);
    var before := HandleCommand(b, Connect(second), entropy);
    assert before.state.Stopping? && before.state.queued == Some(second);
    HostLossForgets(before, epoch, entropy);
    assert Held(before.state)[0] == QueuedOf(second);
  }
}
