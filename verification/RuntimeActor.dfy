/**
  The actor object: bounded inboxes, the single-writer state and the loops that drain
  them, proved against the steps whose runs `ActorRun` reasons about.
 */
module RuntimeActor {
  import opened Wrappers
  import opened Reducer
  import opened ActorRun

  /** A fixed-capacity queue that refuses when full. */
  class BoundedMailbox<T> {
    const capacity: nat
    var items: seq<T>

    constructor (capacity: nat)
      ensures this.capacity == capacity && items == []
    {
      this.capacity := capacity;
      items := [];
    }

    method TrySend(item: T) returns (accepted: bool)
      modifies this
      ensures items == Sent(old(items), item, capacity)
      ensures accepted <==> |old(items)| < capacity
    {
      if |items| >= capacity { return false; }
      items := items + [item];
      return true;
    }

    method TryRecv() returns (item: Option<T>)
      modifies this
      ensures old(items) == [] ==> item == None && items == []
      ensures old(items) != [] ==> item.Some? && [item.value] + items == old(items)
    {
      if |items| == 0 { return None; }
      item := Some(items[0]);
      items := items[1..];
    }
  }

  class RuntimeActor {
    const entropy: Entropy
    const commands: BoundedMailbox<Command>
    const completions: BoundedMailbox<Completion>
    var state: State
    var inflight: seq<Effect>
    var epoch: Option<Id>
    var late: seq<LateHandle>
    var drawn: nat
    /** What the scheduler was handed, and which cleanups ran, in order. */
    var scheduled: seq<Effect>
    var cleaned: seq<nat>
    ghost var consumed: seq<Fence>

    ghost predicate Apart() {
      (commands as object) != completions
    }

    ghost function Abstract(): Actor
      reads this
    {
      Actor(state, inflight, epoch, late, drawn, scheduled, consumed, cleaned)
    }

    ghost function Whole(): System
      reads this, commands, completions
    {
      System(Abstract(), commands.items, completions.items)
    }

    constructor (limits: Limits, entropy: Entropy, initial: State)
      ensures Apart() && fresh(commands) && fresh(completions)
      ensures this.entropy == entropy
      ensures commands.capacity == limits.commandMessages && completions.capacity == limits.completionMessages
      ensures Whole() == System(Start(initial, 0), [], [])
    {
      this.entropy := entropy;
      commands := new BoundedMailbox(limits.commandMessages);
      completions := new BoundedMailbox(limits.completionMessages);
      state, inflight, epoch, late, drawn := initial, [], None, [], 0;
      scheduled, cleaned, consumed := [], [], [];
    }

    method Submit(command: Command)
      requires Apart()
      modifies commands
      ensures Whole() == Step(old(Whole()), Op.Submit(command), Limits(commands.capacity, completions.capacity), entropy)
    {
      var _ := commands.TrySend(command);
    }

    method CompleteEffect(completion: Completion)
      requires Apart()
      modifies completions
      ensures Whole() == Step(old(Whole()), Op.CompleteEffect(completion), Limits(commands.capacity, completions.capacity), entropy)
    {
      var _ := completions.TrySend(completion);
    }

    method RegisterLateHandle(owner: CleanupRef, cleanup: Id)
      modifies this
      ensures Whole() == Step(old(Whole()), Register(owner, cleanup), Limits(commands.capacity, completions.capacity), entropy)
    {
      late := late + [LateHandle(owner, Some(cleanup), false)];
    }

    /** Drain both inboxes, commands first. */
    method Pump()
      requires Apart()
      modifies this, commands, completions
      ensures Whole() == Step(old(Whole()), Op.Pump, Limits(commands.capacity, completions.capacity), entropy)
    {
      hide ActorRun.HandleCommand, ActorRun.HandleCompletion;
      ghost var queued := completions.items;
      ghost var afterCommands := RunCommands(Abstract(), commands.items, entropy);
      while |commands.items| > 0
        invariant completions.items == queued
        invariant RunCommands(Abstract(), commands.items, entropy) == afterCommands
        decreases |commands.items|
      {
        ghost var before := commands.items;
        var command := commands.TryRecv();
        assert before[0] == command.value && before[1..] == commands.items;
        HandleCommand(command.value);
      }
      ghost var end := RunCompletions(Abstract(), queued, entropy);
      while |completions.items| > 0
        invariant commands.items == []
        invariant RunCompletions(Abstract(), completions.items, entropy) == end
        decreases |completions.items|
      {
        ghost var before := completions.items;
        var completion := completions.TryRecv();
        assert before[0] == completion.value && before[1..] == completions.items;
        HandleCompletion(completion.value);
      }
    }

    method HandleCommand(command: Command)
      modifies this
      ensures Abstract() == ActorRun.HandleCommand(old(Abstract()), command, entropy)
    {
      hide Reduce, FenceEpoch;
      if command.HostLost? {
        epoch := Some(command.epoch);
        BeginHostLostTeardown(command.epoch);
      } else {
        ReduceAndCommit(command, Outstanding(command));
      }
    }

    method ReduceAndCommit(command: Command, outstanding: seq<Id>)
      modifies this
      ensures Abstract() == Apply(old(Abstract()), command, outstanding, entropy)
    {
      hide Reduce, FenceEpoch;
      var inputs := FreshInputs(entropy, drawn, outstanding);
      drawn := drawn + 5;
      var decision := Reduce(state, command, inputs);
      state := decision.next;
      CommitEffects(decision.effects);
    }

    method HandleCompletion(completion: Completion)
      modifies this
      ensures Abstract() == ActorRun.HandleCompletion(old(Abstract()), completion, entropy)
    {
      hide Reduce, FenceEpoch, FenceEffect, ActorRun.ApplyStale, Apply;
      if epoch.Some? && FenceEpoch(completion.fence) != epoch.value { return; }
      var i := FindInflight(completion.fence);
      if i < |inflight| {
        inflight := inflight[..i] + inflight[i + 1..];
        consumed := consumed + [completion.fence];
        ReduceAndCommit(EffectCompleted(completion), [FenceEffect(completion.fence)]);
      } else {
        ApplyStale(completion.stale);
      }
    }

    method FindInflight(fence: Fence) returns (i: nat)
      ensures i == Position(inflight, fence)
    {
      i := 0;
      while i < |inflight| && inflight[i].fence != fence
        invariant i <= |inflight|
        invariant Position(inflight, fence) == i + Position(inflight[i..], fence)
      {
        assert inflight[i..][1..] == inflight[i + 1..];
        i := i + 1;
      }
    }

    method ApplyStale(d: StaleDisposition)
      modifies this
      ensures Abstract() == ActorRun.ApplyStale(old(Abstract()), d, entropy)
    {
      hide FindLate;
      match d
      case ProvenNoEffect =>
      case AcquiredEphemeralResource(owner) =>
        ConsumeLateHandle(owner);
        if owner.kind == PacketLateHandle { AskForReconcile(); }
      case JournaledExternalEffect(_) =>
        AskForReconcile();
      case UnknownResourceAcquisition(obligation) =>
        Reconcile(obligation);
    }

    method AskForReconcile()
      modifies this
      ensures Abstract() == RequestReconcile(old(Abstract()), entropy)
    {
      var obligation := OwnObligation(entropy(drawn));
      drawn := drawn + 1;
      Reconcile(obligation);
    }

    method Reconcile(obligation: Obligation)
      modifies this
      ensures Abstract() == EnterReconciling(old(Abstract()), obligation, entropy)
    {
      var era: Id;
      if epoch.Some? {
        era := epoch.value;
      } else {
        era := entropy(drawn);
        drawn := drawn + 1;
      }
      state := Reconciling(Startup(era, entropy(drawn)), obligation);
      drawn := drawn + 1;
    }

    /** Run the first cleanup registered for a resource, unless it has run. */
    method ConsumeLateHandle(owner: CleanupRef)
      modifies this
      ensures Abstract() == ConsumeLate(old(Abstract()), owner)
    {
      var i: nat := 0;
      while i < |late| && late[i].owner != owner
        invariant i <= |late|
        invariant FindLate(late, owner) == i + FindLate(late[i..], owner)
      {
        assert late[i..][1..] == late[i + 1..];
        i := i + 1;
      }
      if i < |late| && !late[i].consumed {
        var cleanup := late[i].cleanup;
        late := late[i := LateHandle(late[i].owner, None, true)];
        if cleanup.Some? { cleaned := cleaned + [i]; }
      }
    }

    method BeginHostLostTeardown(lost: Id)
      requires epoch == Some(lost)
      modifies this
      ensures Abstract() == LoseHost(old(Abstract()), lost, entropy)
    {
      var attemptId, effect, operation := entropy(drawn), entropy(drawn + 1), entropy(drawn + 2);
      drawn := drawn + 3;
      var key := LostKey(lost, operation);
      state := Stopping(Attempt(lost, attemptId, ConnectIntent(key, 2, 3)), StopIntent(key, 2), None);
      CommitEffects([LostEffect(lost, attemptId, effect)]);
    }

    /** Record each effect in flight, then hand it to the scheduler; the first one sets the era. */
    method CommitEffects(effects: seq<Effect>)
      modifies this
      ensures Abstract() == Commit(old(Abstract()), effects)
    {
      hide FenceEpoch;
      for i := 0 to |effects|
        invariant Abstract() == Commit(old(Abstract()), effects[..i])
      {
        assert effects[..i + 1] == effects[..i] + [effects[i]];
        if epoch.None? { epoch := Some(FenceEpoch(effects[i].fence)); }
        inflight := inflight + [effects[i]];
        scheduled := scheduled + [effects[i]];
        assert inflight == old(inflight) + effects[..i + 1];
        assert scheduled == old(scheduled) + effects[..i + 1];
      }
      assert effects[..|effects|] == effects;
    }
  }
}
