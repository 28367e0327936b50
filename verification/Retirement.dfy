/**
  The retirement saga: ordered phases from a durable start over a complete observed
  inventory and a proof to retired ownership. Sealing the admission record and reading it
  back is taken to reproduce it.
 */
module Retirement {
  import opened Wrappers

  type Id = nat
  type Label = x: int | 0 <= x < 256

  datatype Phase = Pending | Started | Observed | Proved | Retired
  datatype Seen = Seen(tag: Label, verified: bool)
  datatype Error = AlreadyStarted | NotStarted | Forged | Unverified | UnexpectedLabel | Incomplete | NotObserved | NoOperation | NotProved | AlreadyRetired

  datatype Authority = Authority(instance: Id, epoch: Id, watermark: Id, revision: Id)
  datatype CleanProof = CleanProof(instance: Id, priorVersion: Id, operation: Id, inventory: Id, revision: Id, evidence: Id, unresolved: nat)

  datatype Saga = Saga(
    authority: Authority,
    priorVersion: Id,
    operation: Option<Id>,
    expected: seq<Label>,
    inventory: Id,
    nextVersion: Option<Id>,
    phase: Phase)

  function NewSaga(authority: Authority, priorVersion: Id): Saga {
    Saga(authority, priorVersion, None, [], 0, None, Pending)
  }

  // ----- the inventory -----

  ghost predicate NoRepeats(labels: seq<Label>) {
    forall i, j :: 0 <= i < j < |labels| ==> labels[i] != labels[j]
  }

  function Labels(labels: seq<Label>): set<Label> {
    set i | 0 <= i < |labels| :: labels[i]
  }

  function SeenLabels(observed: seq<Seen>): (r: seq<Label>)
    ensures |r| == |observed| && forall i :: 0 <= i < |r| ==> r[i] == observed[i].tag
  {
    seq(|observed|, i requires 0 <= i < |observed| => observed[i].tag)
  }

  /** What an accepted observation is: all verified, exactly the expected labels, and an expectation
      that names each of its labels once. */
  ghost predicate Complete(observed: seq<Seen>, expected: seq<Label>) {
    && (forall i :: 0 <= i < |observed| ==> observed[i].verified)
    && Labels(SeenLabels(observed)) == Labels(expected)
    && NoRepeats(expected)
  }

  lemma LabelsSnoc(s: seq<Label>)
    requires s != []
    ensures Labels(s) == Labels(s[..|s| - 1]) + {s[|s| - 1]}
  {
    var n := |s| - 1;
    forall x | x in Labels(s)
      ensures x in Labels(s[..n]) + {s[n]}
    {
      var i :| 0 <= i < |s| && s[i] == x;
      assert i < n ==> s[..n][i] == x;
    }
    forall x | x in Labels(s[..n])
      ensures x in Labels(s)
    {
      var i :| 0 <= i < n && s[..n][i] == x;
      assert s[i] == x;
    }
    assert s[n] in Labels(s);
  }

  /** A list has as many labels as entries exactly if none repeats. */
  lemma {:induction false} Pigeonhole(s: seq<Label>)
    ensures |Labels(s)| <= |s|
    ensures |Labels(s)| == |s| <==> NoRepeats(s)
  {
    if s == [] {
      assert Labels(s) == {};
    } else {
      var n := |s| - 1;
      LabelsSnoc(s);
      Pigeonhole(s[..n]);
      RepeatsSnoc(s);
      hide Labels, NoRepeats;
      if s[n] in Labels(s[..n]) {
        assert Labels(s) == Labels(s[..n]);
      }
    }
  }

  lemma RepeatsSnoc(s: seq<Label>)
    requires s != []
    ensures NoRepeats(s) <==> NoRepeats(s[..|s| - 1]) && s[|s| - 1] !in Labels(s[..|s| - 1])
  {
    var n := |s| - 1;
    if s[n] in Labels(s[..n]) {
      var i :| 0 <= i < n && s[..n][i] == s[n];
      assert s[i] == s[n];
    } else {
      assert forall i :: 0 <= i < n ==> s[i] == s[..n][i] && s[..n][i] in Labels(s[..n]);
    }
  }

  lemma SubsetOfSameSize(a: set<Label>, b: set<Label>)
    requires a <= b && |a| >= |b|
    ensures a == b
  {
    assert |b - a| == |b| - |a|;
  }

  /** Counting distinct labels decides completeness. */
  lemma CountDecides(observed: seq<Seen>, expected: seq<Label>)
    requires forall i :: 0 <= i < |observed| ==> observed[i].verified
    requires Labels(SeenLabels(observed)) <= Labels(expected)
    ensures |Labels(SeenLabels(observed))| == |expected| <==> Complete(observed, expected)
  {
    hide Labels, NoRepeats;
    Pigeonhole(expected);
    var s := Labels(SeenLabels(observed));
    if |s| == |expected| {
      SubsetOfSameSize(s, Labels(expected));
    }
  }

  // ----- the saga -----

  class RetirementSaga {
    const authority: Authority
    const priorVersion: Id
    var operation: Option<Id>
    var expected: seq<Label>
    var inventory: Id
    var nextVersion: Option<Id>
    var phase: Phase

    ghost function Abstract(): Saga
      reads this
    {
      Saga(authority, priorVersion, operation, expected, inventory, nextVersion, phase)
    }

    constructor (authority: Authority, priorVersion: Id)
      ensures Abstract() == NewSaga(authority, priorVersion)
    {
      this.authority, this.priorVersion := authority, priorVersion;
      operation, expected, inventory, nextVersion, phase := None, [], 0, None, Pending;
    }

    method Begin(op: Id, obligations: seq<Label>, digest: Id) returns (r: Result<(), Error>)
      modifies this
      ensures r.Ok? <==> old(operation).None?
      ensures r.Ok? ==> Abstract() == old(Abstract()).(operation := Some(op), expected := obligations, inventory := digest, phase := Started)
      ensures !r.Ok? ==> Abstract() == old(Abstract())
    {
      if operation.Some? { return Err(AlreadyStarted); }
      operation, expected, inventory, phase := Some(op), obligations, digest, Started;
      return Ok(());
    }

    /** Destructive cleanup is granted only after the durable start, and only to its own identity. */
    method GrantCleanup(op: Id) returns (r: Result<(), Error>)
      ensures r.Ok? <==> phase == Started && operation == Some(op)
    {
      if phase != Started { return Err(NotStarted); }
      if operation != Some(op) { return Err(Forged); }
      return Ok(());
    }

    /** The observation is accepted if and only if it is complete. */
    method ObserveCleanup(observed: seq<Seen>) returns (r: Result<(), Error>)
      modifies this
      ensures r.Ok? <==> old(phase) == Started && Complete(observed, old(expected))
      ensures Abstract() == if r.Ok? then old(Abstract()).(phase := Observed) else old(Abstract())
    {
      if phase != Started { return Err(NotStarted); }
      var seen: set<Label> := {};
      for i := 0 to |observed|
        invariant Abstract() == old(Abstract())
        invariant forall j :: 0 <= j < i ==> observed[j].verified
        invariant seen == Labels(SeenLabels(observed)[..i])
        invariant seen <= Labels(expected)
      {
        if !observed[i].verified { return Err(Unverified); }
        if observed[i].tag !in expected {
          NotExpected(observed, expected, i);
          return Err(UnexpectedLabel);
        }
        assert SeenLabels(observed)[..i + 1][..i] == SeenLabels(observed)[..i];
        LabelsSnoc(SeenLabels(observed)[..i + 1]);
        seen := seen + {observed[i].tag};
      }
      assert SeenLabels(observed)[..|observed|] == SeenLabels(observed);
      CountDecides(observed, expected);
      if |seen| != |expected| { return Err(Incomplete); }
      phase := Observed;
      return Ok(());
    }

    method ProveClean(evidence: Id) returns (r: Result<CleanProof, Error>)
      modifies this
      ensures r.Ok? <==> old(phase) == Observed && operation.Some?
      ensures r.Ok? ==>
                && Abstract() == old(Abstract()).(phase := Proved)
                && r.value == CleanProof(authority.instance, priorVersion, operation.value, inventory, authority.revision, evidence, 0)
      ensures !r.Ok? ==> Abstract() == old(Abstract())
    {
      if phase != Observed { return Err(NotObserved); }
      if operation.None? { return Err(NoOperation); }
      phase := Proved;
      return Ok(CleanProof(authority.instance, priorVersion, operation.value, inventory, authority.revision, evidence, 0));
    }

    method RetireOwnership(next: Id) returns (r: Result<Id, Error>)
      modifies this
      ensures r.Ok? <==> old(phase) == Proved && old(nextVersion).None?
      ensures r.Ok? ==> Abstract() == old(Abstract()).(nextVersion := Some(next), phase := Retired) && r.value == next
      ensures !r.Ok? ==> Abstract() == old(Abstract())
    {
      if phase != Proved { return Err(NotProved); }
      if nextVersion.Some? { return Err(AlreadyRetired); }
      nextVersion, phase := Some(next), Retired;
      return Ok(next);
    }
  }

  lemma NotExpected(observed: seq<Seen>, expected: seq<Label>, i: nat)
    requires i < |observed| && observed[i].tag !in expected
    ensures !Complete(observed, expected)
  {
    assert SeenLabels(observed)[i] in Labels(SeenLabels(observed));
  }
}
