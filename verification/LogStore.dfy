/**
  The log aggregator: a bounded in-memory ring, a file it is rebuilt from, periodic
  compaction of the file, and degradation to memory when the disk fails.

  The abstract state is the log itself: everything appended since the last clear. Each
  line of the file is a record that parses back to its entry, or is skipped on replay.
 */
module LogStore {
  import opened Wrappers

  const MAX_ENTRIES := 5000
  const COMPACTION_INTERVAL := 2500
  const U64_MAX := 0xFFFF_FFFF_FFFF_FFFF

  datatype Content = Content(level: string, message: string)
  datatype Entry = Entry(number: nat, content: Content)
  datatype Line = Good(entry: Entry) | Skipped

  /** What a disk operation does: what it should, or fail and leave some file behind. */
  datatype DiskOutcome = DiskOk | DiskFails(left: seq<Line>)

  datatype Store = Store(ring: seq<Entry>, last: nat, disk: seq<Line>, persisted: bool)

  // ----- the ring -----

  /** The last entries that fit. */
  function Tail(log: seq<Entry>): (r: seq<Entry>) {
    if |log| > MAX_ENTRIES then log[|log| - MAX_ENTRIES..] else log
  }

  function Push(ring: seq<Entry>, e: Entry): (r: seq<Entry>) {
    var longer := ring + [e];
    if |longer| > MAX_ENTRIES then longer[1..] else longer
  }

  lemma PushTail(log: seq<Entry>, e: Entry)
    ensures Push(Tail(log), e) == Tail(log + [e])
  {
  }

  // ----- replay -----

  datatype Replayed = Replayed(ring: seq<Entry>, last: nat)

  function Max(a: nat, b: nat): nat {
    if a >= b then a else b
  }

  function Replay(lines: seq<Line>): (r: Replayed) {
    if lines == [] then Replayed([], 0)
    else
      var n := |lines| - 1;
      var r := Replay(lines[..n]);
      match lines[n]
      case Skipped => r
      case Good(e) => Replayed(Push(r.ring, e), Max(r.last, e.number))
  }

  method ReplayFromDisk(lines: seq<Line>) returns (ring: seq<Entry>, last: nat)
    ensures Replayed(ring, last) == Replay(lines)
  {
    ring, last := [], 0;
    for i := 0 to |lines|
      invariant Replayed(ring, last) == Replay(lines[..i])
    {
      assert lines[..i + 1][..i] == lines[..i];
      if lines[i].Good? {
        last := Max(last, lines[i].entry.number);
        ring := ring + [lines[i].entry];
        if |ring| > MAX_ENTRIES { ring := ring[1..]; }
      }
    }
    assert lines[..|lines|] == lines;
  }

  // ----- operations -----

  function Lines(entries: seq<Entry>): (r: seq<Line>)
    ensures |r| == |entries|
  {
    seq(|entries|, i requires 0 <= i < |entries| => Good(entries[i]))
  }

  function WriteEntry(s: Store, e: Entry, outcome: DiskOutcome): Store {
    if !s.persisted then s
    else
      match outcome
      case DiskOk => s.(disk := s.disk + [Good(e)])
      case DiskFails(left) => s.(disk := left, persisted := false)
  }

  function Compact(s: Store, outcome: DiskOutcome): Store {
    if !s.persisted then s
    else
      match outcome
      case DiskOk => s.(disk := Lines(s.ring))
      case DiskFails(left) => s.(disk := left, persisted := false)
  }

  function Append(s: Store, content: Content, write: DiskOutcome, compact: DiskOutcome): (r: Store) {
    var last := if s.last < U64_MAX then s.last + 1 else U64_MAX;
    var e := Entry(last, content);
    var s1 := WriteEntry(s.(last := last, ring := Push(s.ring, e)), e, write);
    if last % COMPACTION_INTERVAL == 0 then Compact(s1, compact) else s1
  }

  /** Clearing: when truncation fails nothing is cleared in memory either. */
  function Clear(s: Store, outcome: DiskOutcome): (r: Store) {
    if s.persisted && outcome.DiskFails? then s.(disk := outcome.left, persisted := false)
    else s.(ring := [], last := 0, disk := if s.persisted then [] else s.disk)
  }

  /** Opening: the file is replayed whether or not it can be written to. */
  function Open(disk: seq<Line>, writable: bool): (r: Store) {
    var r := Replay(disk);
    Store(r.ring, r.last, disk, writable)
  }

  class LogAggregator {
    var entries: seq<Entry>
    var lastSeq: nat
    var file: seq<Line>
    var persisted: bool

    ghost function View(): Store
      reads this
    {
      Store(entries, lastSeq, file, persisted)
    }

    constructor (disk: seq<Line>, writable: bool)
      ensures View() == Open(disk, writable)
    {
      var ring, last := ReplayFromDisk(disk);
      entries, lastSeq, file, persisted := ring, last, disk, writable;
    }

    method AppendEntry(content: Content, write: DiskOutcome, compact: DiskOutcome) returns (entry: Entry)
      modifies this
      ensures View() == Append(old(View()), content, write, compact)
      ensures entry == Entry(lastSeq, content)
    {
      lastSeq := if lastSeq < U64_MAX then lastSeq + 1 else U64_MAX;
      entry := Entry(lastSeq, content);
      entries := entries + [entry];
      if |entries| > MAX_ENTRIES { entries := entries[1..]; }
      if persisted {
        match write {
          case DiskOk => file := file + [Good(entry)];
          case DiskFails(left) => file := left; persisted := false;
        }
      }
      if lastSeq % COMPACTION_INTERVAL == 0 {
        CompactFile(compact);
      }
    }

    method CompactFile(outcome: DiskOutcome)
      modifies this
      ensures View() == Compact(old(View()), outcome)
    {
      if !persisted { return; }
      if outcome.DiskFails? {
        file, persisted := outcome.left, false;
        return;
      }
      file := [];
      for i := 0 to |entries|
        invariant entries == old(entries) && lastSeq == old(lastSeq) && persisted
        invariant file == Lines(entries[..i])
      {
        assert Lines(entries[..i + 1]) == Lines(entries[..i]) + [Good(entries[i])];
        file := file + [Good(entries[i])];
      }
      assert entries[..|entries|] == entries;
    }

    method ClearAll(outcome: DiskOutcome) returns (ok: bool)
      modifies this
      ensures View() == Clear(old(View()), outcome)
      ensures ok <==> !(old(persisted) && outcome.DiskFails?)
    {
      if persisted {
        if outcome.DiskFails? {
          file, persisted := outcome.left, false;
          return false;
        }
        file := [];
      }
      entries, lastSeq := [], 0;
      return true;
    }
  }

  // ----- the abstract log -----

  /** The entries of a log: its contents numbered from one. */
  function Numbered(log: seq<Content>): (r: seq<Entry>)
    ensures |r| == |log|
  {
    seq(|log|, i requires 0 <= i < |log| => Entry(i + 1, log[i]))
  }

  lemma NumberedAppend(log: seq<Content>, c: Content)
    ensures Numbered(log + [c]) == Numbered(log) + [Entry(|log| + 1, c)]
  {
  }

  /** In memory: the ring is the end of the log and the counter its length. */
  ghost predicate InMemory(s: Store, log: seq<Content>) {
    s.ring == Tail(Numbered(log)) && s.last == |log| && |log| <= U64_MAX
  }

  /** On disk: an end of the log that covers the ring and stays within its bound. */
  ghost predicate OnDisk(s: Store, log: seq<Content>, d: nat) {
    && d <= |log|
    && s.disk == Lines(Numbered(log)[d..])
    && |Tail(Numbered(log))| <= |log| - d <= MAX_ENTRIES + |log| % COMPACTION_INTERVAL
  }

  ghost predicate Synced(s: Store, log: seq<Content>) {
    InMemory(s, log) && s.persisted && exists d :: OnDisk(s, log, d)
  }

  lemma LinesAppend(entries: seq<Entry>, e: Entry)
    ensures Lines(entries + [e]) == Lines(entries) + [Good(e)]
  {
  }

  /** Replaying any end of the log that covers the ring rebuilds the ring and the counter. */
  lemma {:induction false} ReplayOfEnd(log: seq<Content>, d: nat, n: nat)
    requires d + n <= |log|
    ensures Replay(Lines(Numbered(log)[d..d + n])) == Replayed(Tail(Numbered(log)[d..d + n]), if n == 0 then 0 else d + n)
    decreases n
  {
    hide Tail, Push, Lines, Replay;
    var all := Numbered(log);
    if n == 0 {
      EmptyReplay(all, d);
    } else {
      ReplayOfEnd(log, d, n - 1);
      var init, e := all[d..d + n - 1], all[d + n - 1];
      SliceGrows(all, d, d + n - 1);
      LinesAppend(init, e);
      ReplayAppend(Lines(init), e);
      PushTail(init, e);
    }
  }

  lemma EmptyReplay(all: seq<Entry>, d: nat)
    requires d <= |all|
    ensures Replay(Lines(all[d..d])) == Replayed(Tail(all[d..d]), 0)
  {
  }

  lemma SliceGrows<T>(s: seq<T>, d: nat, n: nat)
    requires d <= n < |s|
    ensures s[d..n + 1] == s[d..n] + [s[n]]
  {
  }

  lemma ReplayAppend(lines: seq<Line>, e: Entry)
    ensures Replay(lines + [Good(e)]) == Replayed(Push(Replay(lines).ring, e), Max(Replay(lines).last, e.number))
  {
    assert (lines + [Good(e)])[..|lines|] == lines;
  }

  lemma TailOfEnd(all: seq<Entry>, d: nat)
    requires d <= |all| && |Tail(all)| <= |all| - d
    ensures Tail(all[d..]) == Tail(all)
    ensures d == |all| ==> all == []
  {
  }

  /** The restart refinement: replaying the file of a synced store rebuilds exactly that store. */
  lemma ReopenRebuilds(s: Store, log: seq<Content>)
    requires Synced(s, log)
    ensures Open(s.disk, true) == s
  {
    hide Tail, Numbered, Lines, Replay;
    var d: nat :| OnDisk(s, log, d);
    var all := Numbered(log);
    ReplayOfEnd(log, d, |log| - d);
    assert all[d..] == all[d..|log|];
    TailOfEnd(all, d);
  }

  /** An append keeps memory in step with the log whatever the disk does. */
  lemma AppendInMemory(s: Store, log: seq<Content>, c: Content, write: DiskOutcome, compact: DiskOutcome)
    requires InMemory(s, log) && |log| < U64_MAX
    ensures InMemory(Append(s, c, write, compact), log + [c])
  {
    NumberedAppend(log, c);
    PushTail(Numbered(log), Entry(|log| + 1, c));
  }

  lemma AppendSynced(s: Store, log: seq<Content>, c: Content)
    requires Synced(s, log) && |log| < U64_MAX
    ensures Synced(Append(s, c, DiskOk, DiskOk), log + [c])
  {
    hide Tail, Push;
    AppendInMemory(s, log, c, DiskOk, DiskOk);
    var d: nat :| OnDisk(s, log, d);
    var s', log' := Append(s, c, DiskOk, DiskOk), log + [c];
    var e := Entry(|log| + 1, c);
    var all, all' := Numbered(log), Numbered(log');
    NumberedAppend(log, c);
    if |log'| % COMPACTION_INTERVAL == 0 {
      TailIsEnd(all');
      assert s'.disk == Lines(Tail(all'));
      assert OnDisk(s', log', |all'| - |Tail(all')|);
    } else {
      assert all'[d..] == all[d..] + [e];
      LinesAppend(all[d..], e);
      TailGrows(all, e);
      ModStep(|log|);
      assert OnDisk(s', log', d);
    }
  }

  lemma TailIsEnd(all: seq<Entry>)
    ensures |Tail(all)| <= |all| && |Tail(all)| <= MAX_ENTRIES && Tail(all) == all[|all| - |Tail(all)|..]
  {
  }

  lemma TailGrows(all: seq<Entry>, e: Entry)
    ensures |Tail(all + [e])| <= |Tail(all)| + 1
  {
  }

  lemma ModStep(n: nat)
    requires (n + 1) % COMPACTION_INTERVAL != 0
    ensures (n + 1) % COMPACTION_INTERVAL == n % COMPACTION_INTERVAL + 1
  {
  }

  // ----- runs -----

  datatype Op = DoAppend(content: Content) | DoClear | DoReopen

  function Step(s: Store, op: Op): Store {
    match op
    case DoAppend(c) => Append(s, c, DiskOk, DiskOk)
    case DoClear => Clear(s, DiskOk)
    case DoReopen => Open(s.disk, true)
  }

  function Run(s: Store, ops: seq<Op>): Store
    decreases |ops|
  {
    if ops == [] then s else Run(Step(s, ops[0]), ops[1..])
  }

  /** The log after a run: appended contents since the last clear. */
  function LogAfter(log: seq<Content>, ops: seq<Op>): seq<Content>
    decreases |ops|
  {
    if ops == [] then log
    else LogAfter(match ops[0] case DoAppend(c) => log + [c] case DoClear => [] case DoReopen => log, ops[1..])
  }

  lemma {:induction false} RunSynced(s: Store, log: seq<Content>, ops: seq<Op>)
    requires Synced(s, log) && |log| + |ops| <= U64_MAX
    ensures Synced(Run(s, ops), LogAfter(log, ops))
    decreases |ops|
  {
    hide Append, Open, Synced;
    if ops != [] {
      match ops[0]
      case DoAppend(c) =>
        AppendSynced(s, log, c);
        RunSynced(Step(s, ops[0]), log + [c], ops[1..]);
      case DoClear =>
        ClearSynced(s, log);
        RunSynced(Step(s, ops[0]), [], ops[1..]);
      case DoReopen =>
        ReopenRebuilds(s, log);
        RunSynced(Step(s, ops[0]), log, ops[1..]);
    }
  }

  lemma ClearSynced(s: Store, log: seq<Content>)
    requires Synced(s, log)
    ensures Synced(Clear(s, DiskOk), [])
  {
    EmptySynced(Clear(s, DiskOk));
  }

  lemma EmptySynced(s: Store)
    requires s.ring == [] && s.last == 0 && s.disk == [] && s.persisted
    ensures Synced(s, [])
  {
    assert Numbered([]) == [] && Lines([]) == [];
    assert OnDisk(s, [], 0);
  }

  /** Over every run from an empty file, with appends, compactions, clears and restarts in any order
      and a working disk: replaying the file rebuilds the live store; its numbers are the last ones of
      the log, ending at the counter; and the file stays within its bound. */
  lemma RestartRefinement(ops: seq<Op>)
    requires |ops| <= U64_MAX
    ensures
      var s, log := Run(Open([], true), ops), LogAfter([], ops);
      && Open(s.disk, true) == s
      && s.ring == Tail(Numbered(log)) && s.last == |log|
      && |s.disk| <= MAX_ENTRIES + s.last % COMPACTION_INTERVAL
  {
    hide Tail, Numbered;
    EmptySynced(Open([], true));
    RunSynced(Open([], true), [], ops);
    var s, log := Run(Open([], true), ops), LogAfter([], ops);
    ReopenRebuilds(s, log);
    var d: nat :| OnDisk(s, log, d);
  }

  // ----- runs on a failing disk -----

  datatype Attempt = TryAppend(content: Content, write: DiskOutcome, compact: DiskOutcome) | TryClear(outcome: DiskOutcome)

  function Tried(s: Store, a: Attempt): Store {
    match a
    case TryAppend(c, write, compact) => Append(s, c, write, compact)
    case TryClear(outcome) => Clear(s, outcome)
  }

  function RunTried(s: Store, attempts: seq<Attempt>): Store
    decreases |attempts|
  {
    if attempts == [] then s else RunTried(Tried(s, attempts[0]), attempts[1..])
  }

  /** What has been logged: a clear counts unless it was the call that lost the disk. */
  function LogOf(s: Store, log: seq<Content>, attempts: seq<Attempt>): seq<Content>
    decreases |attempts|
  {
    if attempts == [] then log
    else
      var next :=
        match attempts[0]
        case TryAppend(c, _, _) => log + [c]
        case TryClear(outcome) => if s.persisted && outcome.DiskFails? then log else [];
      LogOf(Tried(s, attempts[0]), next, attempts[1..])
  }

  /** Over every run with any disk outcomes: memory stays the end of the log, and once the disk is lost
      the file stays as that failure left it. */
  lemma {:induction false} FailingDiskRun(s: Store, log: seq<Content>, attempts: seq<Attempt>)
    requires InMemory(s, log) && |log| + |attempts| <= U64_MAX
    ensures InMemory(RunTried(s, attempts), LogOf(s, log, attempts))
    ensures !s.persisted ==> RunTried(s, attempts).disk == s.disk && !RunTried(s, attempts).persisted
    decreases |attempts|
  {
    if attempts != [] {
      var t := Tried(s, attempts[0]);
      match attempts[0]
      case TryAppend(c, write, compact) =>
        AppendInMemory(s, log, c, write, compact);
        FailingDiskRun(t, log + [c], attempts[1..]);
      case TryClear(outcome) =>
        FailingDiskRun(t, if s.persisted && outcome.DiskFails? then log else [], attempts[1..]);
    }
  }

  /** Clearing empties the store exactly when truncation does not fail; the documentation promises an
      empty memory in the failing case too, but the code returns before clearing it. */
  lemma ClearEmptiesIff(s: Store, outcome: DiskOutcome)
    ensures (Clear(s, outcome).ring == [] && Clear(s, outcome).last == 0)
       <==> (!(s.persisted && outcome.DiskFails?) || (s.ring == [] && s.last == 0))
  {
  }

  /** An append and then a clear whose truncation fails: the entry and the counter are still there. */
  lemma FailingClearKeepsTheLog(c: Content, left: seq<Line>)
    ensures
      var s := Clear(Append(Open([], true), c, DiskOk, DiskOk), DiskFails(left));
      s.ring == [Entry(1, c)] && s.last == 1
  {
    assert Replay([]) == Replayed([], 0);
    assert Push([], Entry(1, c)) == [Entry(1, c)];
  }

  // ----- replay on any file -----

  /** The entries of the lines that parse, in order. */
  function GoodEntries(lines: seq<Line>): seq<Entry> {
    if lines == [] then []
    else
      GoodEntries(lines[..|lines| - 1])
      + match lines[|lines| - 1] case Good(e) => [e] case Skipped => []
  }

  ghost predicate IsHighest(last: nat, entries: seq<Entry>) {
    && (forall i :: 0 <= i < |entries| ==> entries[i].number <= last)
    && (last == 0 || exists i :: 0 <= i < |entries| && entries[i].number == last)
  }

  lemma HighestGrows(last: nat, entries: seq<Entry>, e: Entry)
    requires IsHighest(last, entries)
    ensures IsHighest(Max(last, e.number), entries + [e])
  {
    var more := entries + [e];
    if e.number > last {
      assert more[|entries|].number == e.number;
    } else if last != 0 {
      var i :| 0 <= i < |entries| && entries[i].number == last;
      assert more[i].number == last;
    }
  }

  /** Replaying any file at all, damaged or foreign: lines that do not parse are skipped wherever they
      stand, the ring is the end of the others, and the counter is the highest number among them, in
      whatever order they come. */
  lemma {:induction false} ReplayExact(lines: seq<Line>)
    ensures Replay(lines).ring == Tail(GoodEntries(lines))
    ensures IsHighest(Replay(lines).last, GoodEntries(lines))
    decreases |lines|
  {
    hide Tail, Push, IsHighest;
    if lines == [] {
      NothingReplayed();
    } else {
      var front, line := lines[..|lines| - 1], lines[|lines| - 1];
      ReplayExact(front);
      if line.Good? {
        PushTail(GoodEntries(front), line.entry);
        HighestGrows(Replay(front).last, GoodEntries(front), line.entry);
      } else {
        assert GoodEntries(front) + [] == GoodEntries(front);
      }
    }
  }

  lemma NothingReplayed()
    ensures Tail([]) == [] && IsHighest(0, [])
  {
  }

  // ----- when the disk is lost -----

  /** The attempt runs into a disk failure. Compaction is attempted on every 2500th entry only. */
  predicate Hits(log: seq<Content>, a: Attempt) {
    match a
    case TryAppend(_, write, compact) => write.DiskFails? || ((|log| + 1) % 2500 == 0 && compact.DiskFails?)
    case TryClear(outcome) => outcome.DiskFails?
  }

  function Logged(log: seq<Content>, a: Attempt): seq<Content> {
    match a
    case TryAppend(c, _, _) => log + [c]
    case TryClear(_) => []
  }

  /** No attempt runs into a disk failure. */
  predicate Healthy(log: seq<Content>, attempts: seq<Attempt>)
    decreases |attempts|
  {
    attempts == [] || (!Hits(log, attempts[0]) && Healthy(Logged(log, attempts[0]), attempts[1..]))
  }

  lemma TriedPersists(s: Store, log: seq<Content>, a: Attempt)
    requires InMemory(s, log) && |log| < U64_MAX
    ensures Tried(s, a).persisted <==> s.persisted && !Hits(log, a)
  {
  }

  lemma TriedSynced(s: Store, log: seq<Content>, a: Attempt)
    requires Synced(s, log) && |log| < U64_MAX && !Hits(log, a)
    ensures Synced(Tried(s, a), Logged(log, a))
  {
    match a
    case TryAppend(c, write, compact) =>
      assert Append(s, c, write, compact) == Append(s, c, DiskOk, DiskOk);
      hide Append;
      AppendSynced(s, log, c);
    case TryClear(_) => ClearSynced(s, log);
  }

  /** Over every run with any disk outcomes: the store still persists if and only if no attempt ran into a
      failure, and then the file rebuilds it. A failure of a compaction that is not due costs nothing. */
  lemma {:induction false} PersistedIff(s: Store, log: seq<Content>, attempts: seq<Attempt>)
    requires Synced(s, log) && |log| + |attempts| <= U64_MAX
    ensures RunTried(s, attempts).persisted <==> Healthy(log, attempts)
    ensures Healthy(log, attempts) ==> Open(RunTried(s, attempts).disk, true) == RunTried(s, attempts)
    decreases |attempts|
  {
    hide Tried, Synced, InMemory, Hits, Open;
    if attempts == [] {
      SyncedPersists(s, log);
      ReopenRebuilds(s, log);
    } else {
      var t := Tried(s, attempts[0]);
      SyncedPersists(s, log);
      TriedPersists(s, log, attempts[0]);
      if Hits(log, attempts[0]) {
        StaysLost(t, attempts[1..]);
      } else {
        TriedSynced(s, log, attempts[0]);
        PersistedIff(t, Logged(log, attempts[0]), attempts[1..]);
      }
    }
  }

  lemma SyncedPersists(s: Store, log: seq<Content>)
    requires Synced(s, log)
    ensures s.persisted && InMemory(s, log)
  {
  }

  lemma {:induction false} StaysLost(s: Store, attempts: seq<Attempt>)
    requires !s.persisted
    ensures !RunTried(s, attempts).persisted
    decreases |attempts|
  {
    if attempts != [] {
      StaysLost(Tried(s, attempts[0]), attempts[1..]);
    }
  }

  /** The file a failing attempt leaves behind. */
  function Left(log: seq<Content>, a: Attempt): seq<Line>
    requires Hits(log, a)
  {
    match a
    case TryAppend(_, write, compact) => if write.DiskFails? then write.left else compact.left
    case TryClear(outcome) => outcome.left
  }

  function LoggedAll(log: seq<Content>, attempts: seq<Attempt>): seq<Content>
    decreases |attempts|
  {
    if attempts == [] then log else LoggedAll(Logged(log, attempts[0]), attempts[1..])
  }

  /** The first failure decides the file for good: behind any run that met none, an attempt that meets one
      leaves what it leaves, and nothing that follows writes to it again. */
  lemma {:induction false} FirstFailureDecidesFile(s: Store, log: seq<Content>, before: seq<Attempt>, a: Attempt, after: seq<Attempt>)
    requires Synced(s, log) && |log| + |before| < U64_MAX
    requires Healthy(log, before) && Hits(LoggedAll(log, before), a)
    ensures RunTried(s, before + ([a] + after)).disk == Left(LoggedAll(log, before), a)
    decreases |before|
  {
    var all := before + ([a] + after);
    if before == [] {
      hide Synced;
      SyncedPersists(s, log);
      assert all[0] == a && all[1..] == after;
      StaysAsLeft(Tried(s, a), after);
    } else {
      hide Tried, Synced, Hits;
      assert all[0] == before[0] && all[1..] == before[1..] + ([a] + after);
      TriedSynced(s, log, before[0]);
      FirstFailureDecidesFile(Tried(s, before[0]), Logged(log, before[0]), before[1..], a, after);
    }
  }

  lemma {:induction false} StaysAsLeft(s: Store, attempts: seq<Attempt>)
    requires !s.persisted
    ensures RunTried(s, attempts).disk == s.disk
    decreases |attempts|
  {
    if attempts != [] {
      StaysAsLeft(Tried(s, attempts[0]), attempts[1..]);
    }
  }

  /** The counter never leaves 64 bits, over any run: at the top it stays there, and the entries that follow
      share its number. */
  lemma {:induction false} CounterSaturates(s: Store, attempts: seq<Attempt>, c: Content, write: DiskOutcome, compact: DiskOutcome)
    requires s.last <= U64_MAX
    ensures
      var t := RunTried(s, attempts);
      && t.last <= U64_MAX
      && Append(t, c, write, compact).last == if t.last == U64_MAX then U64_MAX else t.last + 1
    decreases |attempts|
  {
    if attempts != [] {
      CounterSaturates(Tried(s, attempts[0]), attempts[1..], c, write, compact);
    }
  }
}
