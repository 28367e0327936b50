/**
  Paging through the log by cursor. The log keeps growing between requests and the ring
  forgets old entries, so a request is described by the log's length when it lists, and,
  on the path that takes the lock twice, by its length when it reads the counter.
 */
module LogPaging {
  import opened Wrappers
  import opened LogStore

  const LIST_DEFAULT_LIMIT := 100
  const LIST_MAX_LIMIT := 500

  function EffectiveLimit(limit: nat): (r: nat)
    ensures 1 <= r <= LIST_MAX_LIMIT
  {
    if limit == 0 then LIST_DEFAULT_LIMIT else if limit > LIST_MAX_LIMIT then LIST_MAX_LIMIT else limit
  }

  /** A filter sees an entry's level and message, never its number. */
  type Filter = Content -> bool

  type Choice = Entry -> bool

  /** `matches_filter`: a substring of the level or the message, `lower` being the case folding. */
  function MatchesFilter(lower: string -> string, needle: string): Filter {
    (c: Content) => Contains(lower(c.level), lower(needle)) || Contains(lower(c.message), lower(needle))
  }

  predicate Contains(s: string, needle: string) {
    |needle| <= |s| && (s[..|needle|] == needle || (s != [] && Contains(s[1..], needle)))
  }

  function OnContent(f: Filter): Choice {
    (e: Entry) => f(e.content)
  }

  function Keep(entries: seq<Entry>, f: Choice): (r: seq<Entry>) {
    if entries == [] then []
    else
      var n := |entries| - 1;
      Keep(entries[..n], f) + if f(entries[n]) then [entries[n]] else []
  }

  function Above(entries: seq<Entry>, after: nat): seq<Entry> {
    Keep(entries, (e: Entry) => e.number > after)
  }

  function Take(entries: seq<Entry>, limit: nat): seq<Entry> {
    if |entries| > limit then entries[..limit] else entries
  }

  // ----- the listing code -----

  datatype Page = Page(entries: seq<Entry>, nextSeq: nat)

  function PageOf(entries: seq<Entry>, last: nat): Page {
    Page(entries, if entries == [] then last + 1 else entries[|entries| - 1].number + 1)
  }

  /** `LogAggregator::list`; a limit of zero means all. */
  method ListEntries(ring: seq<Entry>, last: nat, after: nat, limit: nat) returns (p: Page)
    ensures p == PageOf(if limit == 0 then Above(ring, after) else Take(Above(ring, after), limit), last)
  {
    var found: seq<Entry> := [];
    for i := 0 to |ring|
      invariant found == Above(ring[..i], after)
    {
      assert ring[..i + 1][..i] == ring[..i];
      if ring[i].number > after { found := found + [ring[i]]; }
    }
    assert ring[..|ring|] == ring;
    if limit != 0 && |found| > limit { found := found[..limit]; }
    return PageOf(found, last);
  }

  /** `LogControl::list`: what the ring and the two counter readings make of a request. */
  function Listed(ring: seq<Entry>, last: nat, lastAgain: nat, after: nat, limit: nat, filter: Option<Filter>): Page {
    var n := EffectiveLimit(limit);
    var found := Above(ring, after);
    var matching := if filter.Some? then Keep(found, OnContent(filter.value)) else found;
    if filter.None? && after != 0 then PageOf(Take(matching, n), last)
    else if after == 0 then PageOf(if |matching| > n then matching[|matching| - n..] else matching, lastAgain)
    else PageOf(Take(matching, n), lastAgain)
  }

  method List(ring: seq<Entry>, last: nat, lastAgain: nat, after: nat, limit: nat, filter: Option<Filter>) returns (p: Page)
    ensures p == Listed(ring, last, lastAgain, after, limit, filter)
  {
    hide Above, Keep;
    var n := EffectiveLimit(limit);
    if filter.Some? || after == 0 {
      var all := ListEntries(ring, last, after, 0);
      var entries := all.entries;
      if filter.Some? { entries := KeepMatching(all.entries, filter.value); }
      if after == 0 {
        var start := if |entries| > n then |entries| - n else 0;
        entries := entries[start..];
      } else if |entries| > n {
        entries := entries[..n];
      }
      return PageOf(entries, lastAgain);
    }
    p := ListEntries(ring, last, after, n);
  }

  method KeepMatching(entries: seq<Entry>, f: Filter) returns (r: seq<Entry>)
    ensures r == Keep(entries, OnContent(f))
  {
    r := [];
    for i := 0 to |entries|
      invariant r == Keep(entries[..i], OnContent(f))
    {
      assert entries[..i + 1][..i] == entries[..i];
      if f(entries[i].content) { r := r + [entries[i]]; }
    }
    assert entries[..|entries|] == entries;
  }

  // ----- listing a numbered log -----

  /** A log whose entries carry their positions. */
  ghost predicate IsNumbered(all: seq<Entry>) {
    forall i :: 0 <= i < |all| ==> all[i].number == i + 1
  }

  lemma NumberedIsNumbered(log: seq<Content>)
    ensures IsNumbered(Numbered(log))
  {
  }

  function ToChoice(filter: Option<Filter>): Choice {
    if filter.Some? then OnContent(filter.value) else (e: Entry) => true
  }

  lemma {:induction false} KeepAppend(a: seq<Entry>, b: seq<Entry>, f: Choice)
    ensures Keep(a + b, f) == Keep(a, f) + Keep(b, f)
    decreases |b|
  {
    if b == [] {
      assert a + b == a;
    } else {
      var n := |b| - 1;
      assert (a + b)[..|a| + n] == a + b[..n];
      KeepAppend(a, b[..n], f);
    }
  }

  lemma {:induction false} KeepAll(a: seq<Entry>, f: Choice)
    requires forall i :: 0 <= i < |a| ==> f(a[i])
    ensures Keep(a, f) == a
  {
    if a != [] {
      KeepAll(a[..|a| - 1], f);
      assert a[..|a| - 1] + [a[|a| - 1]] == a;
    }
  }

  lemma {:induction false} KeepNone(a: seq<Entry>, f: Choice)
    requires forall i :: 0 <= i < |a| ==> !f(a[i])
    ensures Keep(a, f) == []
  {
    if a != [] {
      KeepNone(a[..|a| - 1], f);
    }
  }

  /** In a numbered log, the entries above a cursor are those behind its position. */
  lemma AboveIsSuffix(all: seq<Entry>, from: nat, n: nat, after: nat)
    requires IsNumbered(all) && from <= n <= |all|
    ensures Above(all[from..n], after) == all[Clamp(after, from, n)..n]
  {
    var k := Clamp(after, from, n);
    var f := (e: Entry) => e.number > after;
    assert all[from..n] == all[from..k] + all[k..n];
    KeepAppend(all[from..k], all[k..n], f);
    KeepNone(all[from..k], f);
    KeepAll(all[k..n], f);
    assert [] + all[k..n] == all[k..n];
  }

  function Clamp(x: nat, lo: nat, hi: nat): nat
    requires lo <= hi
  {
    if x < lo then lo else if x > hi then hi else x
  }

  /** The first matching entries end at some position, and are all the matches up to it. */
  lemma {:induction false} TakeIsCut(all: seq<Entry>, from: nat, n: nat, f: Choice, limit: nat) returns (cut: nat)
    requires from <= n <= |all| && limit > 0
    ensures from <= cut <= n
    ensures Take(Keep(all[from..n], f), limit) == Keep(all[from..cut], f)
    ensures |Keep(all[from..n], f)| <= limit ==> cut == n
    ensures |Keep(all[from..n], f)| > limit ==> cut > from && f(all[cut - 1])
    decreases n
  {
    if |Keep(all[from..n], f)| <= limit {
      cut := n;
    } else {
      assert n > from;
      assert all[from..n][..n - from - 1] == all[from..n - 1];
      if |Keep(all[from..n - 1], f)| == limit {
        cut := LastMatch(all, from, n - 1, f);
        assert Keep(all[from..n], f)[..limit] == Keep(all[from..n - 1], f);
      } else {
        cut := TakeIsCut(all, from, n - 1, f, limit);
        assert Take(Keep(all[from..n], f), limit) == Take(Keep(all[from..n - 1], f), limit);
      }
    }
  }

  /** The position just past the last match. */
  lemma {:induction false} LastMatch(all: seq<Entry>, from: nat, n: nat, f: Choice) returns (cut: nat)
    requires from <= n <= |all| && Keep(all[from..n], f) != []
    ensures from < cut <= n && f(all[cut - 1])
    ensures Keep(all[from..cut], f) == Keep(all[from..n], f)
    decreases n
  {
    assert n > from;
    assert all[from..n][..n - from - 1] == all[from..n - 1];
    if f(all[n - 1]) {
      cut := n;
    } else {
      cut := LastMatch(all, from, n - 1, f);
    }
  }

  // ----- one request -----

  /** The log's length when the request lists, and when it reads the counter again. */
  datatype Request = Request(n: nat, again: nat)

  /** The oldest position the ring still holds. */
  function Oldest(n: nat): nat {
    if n > MAX_ENTRIES then n - MAX_ENTRIES else 0
  }

  /** Where the retained entries above a cursor start. */
  function Reach(n: nat, cursor: nat): nat {
    Clamp(cursor, Oldest(n), n)
  }

  function Ask(all: seq<Entry>, r: Request, cursor: nat, limit: nat, filter: Option<Filter>): (p: Page)
    requires r.n <= |all|
    ensures p.nextSeq > 0
  {
    Listed(Tail(all[..r.n]), r.n, r.again, cursor, limit, filter)
  }

  /** The cursor a client sends next: the last number it has seen. */
  function NextCursor(p: Page): nat
    requires p.nextSeq > 0
  {
    p.nextSeq - 1
  }

  ghost predicate Sensible(all: seq<Entry>, r: Request, cursor: nat) {
    IsNumbered(all) && 0 < cursor <= r.n <= r.again <= |all|
  }

  lemma RingIsSlice(all: seq<Entry>, n: nat)
    requires n <= |all|
    ensures Tail(all[..n]) == all[Oldest(n)..n]
  {
  }

  /** From a non-zero cursor the page is the first matches behind it that the ring still holds. */
  lemma AskIsTake(all: seq<Entry>, r: Request, cursor: nat, limit: nat, filter: Option<Filter>)
    requires Sensible(all, r, cursor)
    ensures
      Ask(all, r, cursor, limit, filter)
      == PageOf(Take(Keep(all[Reach(r.n, cursor)..r.n], ToChoice(filter)), EffectiveLimit(limit)), if filter.Some? then r.again else r.n)
  {
    hide Keep;
    RingIsSlice(all, r.n);
    AboveIsSuffix(all, Oldest(r.n), r.n, cursor);
    if filter.None? {
      KeepAll(all[Reach(r.n, cursor)..r.n], ToChoice(filter));
    }
  }

  /** What the first matches cover: all matches from `from` to a position, which is the client's next
      cursor unless there are none. */
  lemma PageCovers(all: seq<Entry>, from: nat, n: nat, f: Choice, limit: nat, last: nat) returns (cut: nat)
    requires IsNumbered(all) && from <= n <= |all| && limit > 0
    ensures from <= cut <= n
    ensures var p := PageOf(Take(Keep(all[from..n], f), limit), last);
            && p.entries == Keep(all[from..cut], f)
            && (p.entries == [] <==> Keep(all[from..n], f) == [])
            && (if p.entries == [] then cut == n && NextCursor(p) == last else cut > from && NextCursor(p) == cut)
  {
    hide Take;
    cut := TakeIsCut(all, from, n, f, limit);
    var page := Take(Keep(all[from..n], f), limit);
    TakeEmpty(Keep(all[from..n], f), limit);
    if page != [] {
      cut := LastMatch(all, from, cut, f);
      assert all[from..cut][..cut - from - 1] == all[from..cut - 1];
      assert page[|page| - 1] == all[cut - 1];
    }
  }

  lemma TakeEmpty(entries: seq<Entry>, limit: nat)
    requires limit > 0
    ensures Take(entries, limit) == [] <==> entries == []
  {
  }

  /** The matches that the ring had forgotten when the request came. */
  function Forgotten(all: seq<Entry>, r: Request, cursor: nat, filter: Option<Filter>): seq<Entry>
    requires cursor <= r.n <= |all|
  {
    Keep(all[cursor..Reach(r.n, cursor)], ToChoice(filter))
  }

  /** The matches appended between the two locks, if nothing retained matched. */
  function Overtaken(all: seq<Entry>, r: Request, cursor: nat, filter: Option<Filter>): seq<Entry>
    requires cursor <= r.n <= r.again <= |all|
  {
    if filter.Some? && Keep(all[Reach(r.n, cursor)..r.n], ToChoice(filter)) == [] then Keep(all[r.n..r.again], ToChoice(filter)) else []
  }

  lemma ThreeParts(all: seq<Entry>, a: nat, b: nat, c: nat, d: nat, f: Choice)
    requires a <= b <= c <= d <= |all|
    ensures Keep(all[a..d], f) == Keep(all[a..b], f) + Keep(all[b..c], f) + Keep(all[c..d], f)
  {
    hide Keep;
    assert all[a..d] == all[a..b] + all[b..d];
    assert all[b..d] == all[b..c] + all[c..d];
    KeepAppend(all[a..b], all[b..d], f);
    KeepAppend(all[b..c], all[c..d], f);
  }

  lemma KeepEmpty(all: seq<Entry>, at: nat, f: Choice)
    requires at <= |all|
    ensures Keep(all[at..at], f) == []
  {
  }

  /** Up to where a page answers for the retained matches. */
  function Answered(r: Request, p: Page): nat
    requires p.nextSeq > 0
  {
    if p.entries == [] then r.n else NextCursor(p)
  }

  /** One request. The page is every retained match up to a position. A non-empty page strictly advances
      the cursor, and an empty one moves it to the counter. Of the matches between the old cursor and the
      new one, those forgotten come first, then the page, then those overtaken. */
  lemma PageSplits(all: seq<Entry>, r: Request, cursor: nat, limit: nat, filter: Option<Filter>)
    requires Sensible(all, r, cursor)
    ensures
      var p := Ask(all, r, cursor, limit, filter);
      var f, next, start := ToChoice(filter), NextCursor(p), Reach(r.n, cursor);
      && cursor <= start <= Answered(r, p) <= r.n
      && Answered(r, p) <= next <= r.again
      && p.entries == Keep(all[start..Answered(r, p)], f)
      && (p.entries != [] ==> start < next <= r.n)
      && (p.entries == [] ==> next == if filter.Some? then r.again else r.n)
      && Keep(all[cursor..next], f) == Forgotten(all, r, cursor, filter) + p.entries + Overtaken(all, r, cursor, filter)
  {
    hide Keep, Ask, Take;
    var f := ToChoice(filter);
    var start := Reach(r.n, cursor);
    AskIsTake(all, r, cursor, limit, filter);
    var last := if filter.Some? then r.again else r.n;
    var p := Ask(all, r, cursor, limit, filter);
    var cut := PageCovers(all, start, r.n, f, EffectiveLimit(limit), last);
    ThreeParts(all, cursor, start, cut, NextCursor(p), f);
    if p.entries != [] || filter.None? {
      KeepEmpty(all, NextCursor(p), f);
    }
  }

  lemma MiddleAlone<T>(a: seq<T>, b: seq<T>, c: seq<T>)
    ensures (a + b) + c == b <==> a == [] && c == []
  {
    if (a + b) + c == b {
      assert |a| + |b| + |c| == |b|;
    }
  }

  /** One request, exactly: the page is every match from the old cursor to the new one if and only if
      the ring had forgotten none of them and, when nothing retained matched, none was appended between
      the two locks. */
  lemma PageExactIff(all: seq<Entry>, r: Request, cursor: nat, limit: nat, filter: Option<Filter>)
    requires Sensible(all, r, cursor)
    ensures
      var p := Ask(all, r, cursor, limit, filter);
      && cursor <= NextCursor(p) <= |all|
      && (p.entries == Keep(all[cursor..NextCursor(p)], ToChoice(filter))
          <==> Forgotten(all, r, cursor, filter) == [] && Overtaken(all, r, cursor, filter) == [])
  {
    hide Keep, Ask, Forgotten, Overtaken;
    PageSplits(all, r, cursor, limit, filter);
    MiddleAlone(Forgotten(all, r, cursor, filter), Ask(all, r, cursor, limit, filter).entries, Overtaken(all, r, cursor, filter));
  }

  // ----- a client paging through a growing log -----

  /** What a client got, what it can never get any more, and where it stands. */
  datatype Session = Session(delivered: seq<Entry>, lost: seq<Entry>, cursor: nat)

  /** Requests made one after the other while the log grows. */
  ghost predicate Growing(rs: seq<Request>, since: nat, size: nat)
    decreases |rs|
  {
    rs != [] ==> since <= rs[0].n <= rs[0].again <= size && Growing(rs[1..], rs[0].again, size)
  }

  lemma GrowingSince(rs: seq<Request>, since: nat, earlier: nat, size: nat)
    requires Growing(rs, since, size) && earlier <= since
    ensures Growing(rs, earlier, size)
  {
  }

  ghost function Client(all: seq<Entry>, rs: seq<Request>, cursor: nat, limit: nat, filter: Option<Filter>): Session
    requires IsNumbered(all) && 0 < cursor <= |all| && Growing(rs, cursor, |all|)
    decreases |rs|
  {
    if rs == [] then Session([], [], cursor)
    else
      var p := Ask(all, rs[0], cursor, limit, filter);
      PageSplits(all, rs[0], cursor, limit, filter);
      GrowingSince(rs[1..], rs[0].again, NextCursor(p), |all|);
      var s := Client(all, rs[1..], NextCursor(p), limit, filter);
      Session(
        p.entries + s.delivered,
        (Forgotten(all, rs[0], cursor, filter) + Overtaken(all, rs[0], cursor, filter)) + s.lost,
        s.cursor)
  }

  ghost predicate Ascending(entries: seq<Entry>, above: nat, upto: nat) {
    && (forall i :: 0 <= i < |entries| ==> above < entries[i].number <= upto)
    && (forall i, j :: 0 <= i < j < |entries| ==> entries[i].number < entries[j].number)
  }

  lemma {:induction false} KeptAscends(all: seq<Entry>, from: nat, n: nat, f: Choice)
    requires IsNumbered(all) && from <= n <= |all|
    ensures Ascending(Keep(all[from..n], f), from, n)
    decreases n
  {
    if from != n {
      assert all[from..n][..n - from - 1] == all[from..n - 1];
      KeptAscends(all, from, n - 1, f);
    }
  }

  lemma TwoParts(all: seq<Entry>, a: nat, b: nat, c: nat, f: Choice)
    requires a <= b <= c <= |all|
    ensures Keep(all[a..c], f) == Keep(all[a..b], f) + Keep(all[b..c], f)
  {
    hide Keep;
    assert all[a..c] == all[a..b] + all[b..c];
    KeepAppend(all[a..b], all[b..c], f);
  }

  lemma Sorted4<T>(a: seq<T>, b: seq<T>, c: seq<T>, d: seq<T>, e: seq<T>, whole: seq<T>)
    requires multiset(whole) == multiset(d) + multiset(e)
    ensures multiset(((a + b) + c) + whole) == multiset(b + d) + multiset((a + c) + e)
  {
  }

  lemma AscendingJoin(a: seq<Entry>, b: seq<Entry>, x: nat, y: nat, y': nat, z: nat)
    requires Ascending(a, x, y) && Ascending(b, y', z) && x <= y <= y' <= z
    ensures Ascending(a + b, x, z)
  {
  }

  /** Over every sequence of requests from any non-zero cursor, while the log grows and the ring forgets:
      what is delivered is in log order, and every match between the first cursor and the last is
      delivered once, or lost once, and never both. */
  lemma {:induction false} PagingAccounts(all: seq<Entry>, rs: seq<Request>, cursor: nat, limit: nat, filter: Option<Filter>)
    requires IsNumbered(all) && 0 < cursor <= |all| && Growing(rs, cursor, |all|)
    ensures
      var s := Client(all, rs, cursor, limit, filter);
      && cursor <= s.cursor <= |all|
      && Ascending(s.delivered, cursor, s.cursor)
      && multiset(Keep(all[cursor..s.cursor], ToChoice(filter))) == multiset(s.delivered) + multiset(s.lost)
    decreases |rs|
  {
    hide Keep, Ask, Forgotten, Overtaken, Ascending, Reach;
    var f := ToChoice(filter);
    if rs == [] {
      KeepEmpty(all, cursor, f);
      NothingAscends(cursor);
    } else {
      var p := Ask(all, rs[0], cursor, limit, filter);
      PageSplits(all, rs[0], cursor, limit, filter);
      var next := NextCursor(p);
      GrowingSince(rs[1..], rs[0].again, next, |all|);
      PagingAccounts(all, rs[1..], next, limit, filter);
      var s := Client(all, rs[1..], next, limit, filter);
      TwoParts(all, cursor, next, s.cursor, f);
      Sorted4(Forgotten(all, rs[0], cursor, filter), p.entries, Overtaken(all, rs[0], cursor, filter), s.delivered, s.lost, Keep(all[next..s.cursor], f));
      PageAscends(all, rs[0], cursor, limit, filter);
      AscendingJoin(p.entries, s.delivered, cursor, Answered(rs[0], p), next, s.cursor);
    }
  }

  lemma NothingAscends(at: nat)
    ensures Ascending([], at, at)
  {
  }

  lemma PageAscends(all: seq<Entry>, r: Request, cursor: nat, limit: nat, filter: Option<Filter>)
    requires Sensible(all, r, cursor)
    ensures var p := Ask(all, r, cursor, limit, filter); Ascending(p.entries, cursor, Answered(r, p))
  {
    hide Keep, Ask;
    PageSplits(all, r, cursor, limit, filter);
    KeptAscends(all, Reach(r.n, cursor), Answered(r, Ask(all, r, cursor, limit, filter)), ToChoice(filter));
  }

  /** Paging is exact, every match once and in order, if and only if no request lost anything. */
  lemma {:induction false} PagingExactIff(all: seq<Entry>, rs: seq<Request>, cursor: nat, limit: nat, filter: Option<Filter>)
    requires IsNumbered(all) && 0 < cursor <= |all| && Growing(rs, cursor, |all|)
    ensures
      var s := Client(all, rs, cursor, limit, filter);
      && cursor <= s.cursor <= |all|
      && (s.delivered == Keep(all[cursor..s.cursor], ToChoice(filter)) <==> s.lost == [])
    decreases |rs|
  {
    hide Keep, Ask, Forgotten, Overtaken, Ascending, Reach;
    var f := ToChoice(filter);
    PagingAccounts(all, rs, cursor, limit, filter);
    var t := Client(all, rs, cursor, limit, filter);
    assert |Keep(all[cursor..t.cursor], f)| == |t.delivered| + |t.lost| by {
      assert |multiset(Keep(all[cursor..t.cursor], f))| == |multiset(t.delivered) + multiset(t.lost)|;
    }
    if rs == [] {
      KeepEmpty(all, cursor, f);
    } else if t.lost == [] {
      var p := Ask(all, rs[0], cursor, limit, filter);
      PageSplits(all, rs[0], cursor, limit, filter);
      var next := NextCursor(p);
      GrowingSince(rs[1..], rs[0].again, next, |all|);
      PagingExactIff(all, rs[1..], next, limit, filter);
      PageExactIff(all, rs[0], cursor, limit, filter);
      var s := Client(all, rs[1..], next, limit, filter);
      TwoParts(all, cursor, next, s.cursor, f);
    }
  }

  // ----- a log that has stopped growing -----

  ghost predicate Settled(rs: seq<Request>, size: nat) {
    forall i :: 0 <= i < |rs| ==> rs[i] == Request(size, size)
  }

  lemma {:induction false} SettledGrows(rs: seq<Request>, cursor: nat, size: nat)
    requires Settled(rs, size) && cursor <= size
    ensures Growing(rs, cursor, size)
    decreases |rs|
  {
    if rs != [] {
      SettledGrows(rs[1..], size, size);
    }
  }

  /** Each request delivers the next retained matches, and moves on or is through. */
  lemma {:induction false} SettledPaging(all: seq<Entry>, rs: seq<Request>, cursor: nat, limit: nat, filter: Option<Filter>)
    requires IsNumbered(all) && 0 < cursor <= |all| && rs != [] && Settled(rs, |all|) && Growing(rs, cursor, |all|)
    ensures
      var s, start := Client(all, rs, cursor, limit, filter), Reach(|all|, cursor);
      && start <= s.cursor <= |all|
      && s.delivered == Keep(all[start..s.cursor], ToChoice(filter))
      && (s.cursor == |all| || s.cursor - start >= |rs|)
    decreases |rs|
  {
    hide Keep, Ask, Forgotten, Overtaken;
    var f, start := ToChoice(filter), Reach(|all|, cursor);
    var p := Ask(all, rs[0], cursor, limit, filter);
    PageSplits(all, rs[0], cursor, limit, filter);
    var next := NextCursor(p);
    GrowingSince(rs[1..], rs[0].again, next, |all|);
    if |rs| == 1 {
      assert p.entries + [] == p.entries;
    } else {
      SettledPaging(all, rs[1..], next, limit, filter);
      var s := Client(all, rs[1..], next, limit, filter);
      assert Reach(|all|, next) == next;
      TwoParts(all, start, next, s.cursor, f);
    }
  }

  /** Paging terminates: from any non-zero cursor, also one behind the oldest entry kept, as many
      requests as entries are retained above it and one more deliver every retained match above the
      cursor exactly once, in order, and bring the cursor to the end of the log. */
  lemma PagingTerminates(all: seq<Entry>, rs: seq<Request>, cursor: nat, limit: nat, filter: Option<Filter>)
    requires IsNumbered(all) && 0 < cursor <= |all| && Settled(rs, |all|) && |rs| > |all| - Reach(|all|, cursor)
    ensures Growing(rs, cursor, |all|)
    ensures
      var s := Client(all, rs, cursor, limit, filter);
      s.cursor == |all| && s.delivered == Keep(all[Reach(|all|, cursor)..], ToChoice(filter))
  {
    hide Keep;
    SettledGrows(rs, cursor, |all|);
    SettledPaging(all, rs, cursor, limit, filter);
    var start := Reach(|all|, cursor);
    assert all[start..] == all[start..|all|];
  }

  // ----- the first page -----

  lemma AboveZero(all: seq<Entry>, from: nat, n: nat)
    requires IsNumbered(all) && from <= n <= |all|
    ensures Above(all[from..n], 0) == all[from..n]
  {
    AboveIsSuffix(all, from, n, 0);
    if n == 0 {
      assert all[from..n] == [];
    }
  }

  /** The retained matches when the request came. */
  function Retained(all: seq<Entry>, r: Request, filter: Option<Filter>): seq<Entry>
    requires r.n <= |all|
  {
    Keep(all[Oldest(r.n)..r.n], ToChoice(filter))
  }

  /** The newest of some entries, at most so many. */
  function Newest(entries: seq<Entry>, limit: nat): (r: seq<Entry>)
    ensures |r| == (if |entries| < limit then |entries| else limit)
  {
    entries[if |entries| > limit then |entries| - limit else 0..]
  }

  lemma ListedFirst(ring: seq<Entry>, last: nat, again: nat, limit: nat, filter: Option<Filter>)
    requires Above(ring, 0) == ring
    ensures Listed(ring, last, again, 0, limit, filter)
         == PageOf(Newest(Keep(ring, ToChoice(filter)), EffectiveLimit(limit)), again)
  {
    hide Keep, Above, EffectiveLimit;
    if filter.None? {
      KeepAll(ring, ToChoice(filter));
    }
  }

  lemma NewestCursor(kept: seq<Entry>, limit: nat, again: nat)
    requires limit > 0
    ensures PageOf(Newest(kept, limit), again).nextSeq - 1 == if kept == [] then again else kept[|kept| - 1].number
  {
  }

  /** Asking with no cursor: the newest retained matches, up to the limit, in order. The client continues
      behind the newest match, or at the counter if nothing matched. */
  lemma FirstPage(all: seq<Entry>, r: Request, limit: nat, filter: Option<Filter>)
    requires IsNumbered(all) && r.n <= r.again <= |all|
    ensures
      var p, kept := Ask(all, r, 0, limit, filter), Retained(all, r, filter);
      && p.entries == Newest(kept, EffectiveLimit(limit))
      && NextCursor(p) == if kept == [] then r.again else kept[|kept| - 1].number
  {
    hide Keep, Above, Listed, Newest, EffectiveLimit, ToChoice, Tail, IsNumbered;
    RingIsSlice(all, r.n);
    AboveZero(all, Oldest(r.n), r.n);
    ListedFirst(all[Oldest(r.n)..r.n], r.n, r.again, limit, filter);
    NewestCursor(Retained(all, r, filter), EffectiveLimit(limit), r.again);
  }

  /** Behind the newest match nothing more matches. */
  lemma NothingBehind(all: seq<Entry>, from: nat, n: nat, f: Choice)
    requires IsNumbered(all) && from <= n <= |all| && Keep(all[from..n], f) != []
    ensures
      var kept := Keep(all[from..n], f);
      var last := kept[|kept| - 1].number;
      from < last <= n && Keep(all[last..n], f) == []
  {
    var cut := LastMatch(all, from, n, f);
    assert all[from..cut][..cut - from - 1] == all[from..cut - 1];
    assert Keep(all[from..cut], f)[|Keep(all[from..cut], f)| - 1] == all[cut - 1];
    hide Keep;
    TwoParts(all, from, cut, n, f);
    NothingMore(Keep(all[from..cut], f), Keep(all[cut..n], f));
  }

  lemma NothingMore<T>(a: seq<T>, b: seq<T>)
    requires a == a + b
    ensures b == []
  {
    assert |a| == |a| + |b|;
  }

  /** What no cursor can have delivered of a first page that found nothing: the matches appended between
      its two locks. */
  function FirstOvertaken(all: seq<Entry>, r: Request, filter: Option<Filter>): seq<Entry>
    requires r.n <= r.again <= |all|
  {
    if Retained(all, r, filter) == [] then Keep(all[r.n..r.again], ToChoice(filter)) else []
  }

  /** The first page and the paging that follows it neither repeat nor skip: together they are the newest
      retained matches and every later one, in order, if and only if no request lost anything and, when
      the first page found nothing, nothing matching was appended between its two locks. */
  lemma FirstPageThenPaging(all: seq<Entry>, r: Request, rs: seq<Request>, limit: nat, filter: Option<Filter>)
    requires IsNumbered(all) && 0 < r.n <= r.again <= |all| && Growing(rs, r.again, |all|)
    ensures
      var p := Ask(all, r, 0, limit, filter);
      && 0 < NextCursor(p) <= r.again && Growing(rs, NextCursor(p), |all|)
      && var s := Client(all, rs, NextCursor(p), limit, filter);
         var upto := if s.cursor > r.n then s.cursor else r.n;
         && r.n <= upto <= |all|
         && (s.delivered == Keep(all[r.n..upto], ToChoice(filter)) <==> s.lost == [] && FirstOvertaken(all, r, filter) == [])
  {
    hide Keep, Ask;
    FirstCursor(all, r, limit, filter);
    var next := NextCursor(Ask(all, r, 0, limit, filter));
    GrowingSince(rs, r.again, next, |all|);
    PagingAccounts(all, rs, next, limit, filter);
    PagingExactIff(all, rs, next, limit, filter);
    var s := Client(all, rs, next, limit, filter);
    CountParts(all, next, s.cursor, ToChoice(filter), s);
    Behind(all, r, next, s, filter);
  }

  /** Where a client stands after its first page: behind the newest match or, with no match, at the counter. */
  lemma FirstCursor(all: seq<Entry>, r: Request, limit: nat, filter: Option<Filter>)
    requires IsNumbered(all) && 0 < r.n <= r.again <= |all|
    ensures
      var next := NextCursor(Ask(all, r, 0, limit, filter));
      && 0 < next <= r.again
      && if Retained(all, r, filter) == [] then next == r.again
         else next <= r.n && Keep(all[next..r.n], ToChoice(filter)) == []
  {
    hide Keep, Ask, IsNumbered;
    FirstPage(all, r, limit, filter);
    if Retained(all, r, filter) != [] {
      NothingBehind(all, Oldest(r.n), r.n, ToChoice(filter));
    }
  }

  /** A session that goes on from there, compared with the matches behind the first request. */
  lemma Behind(all: seq<Entry>, r: Request, next: nat, s: Session, filter: Option<Filter>)
    requires 0 < r.n <= r.again <= |all| && next <= s.cursor <= |all|
    requires
      if Retained(all, r, filter) == [] then next == r.again
      else next <= r.n && Keep(all[next..r.n], ToChoice(filter)) == []
    requires |Keep(all[next..s.cursor], ToChoice(filter))| == |s.delivered| + |s.lost|
    requires s.delivered == Keep(all[next..s.cursor], ToChoice(filter)) <==> s.lost == []
    ensures
      var upto := if s.cursor > r.n then s.cursor else r.n;
      s.delivered == Keep(all[r.n..upto], ToChoice(filter)) <==> s.lost == [] && FirstOvertaken(all, r, filter) == []
  {
    hide Keep, Retained, ToChoice;
    var f := ToChoice(filter);
    if Retained(all, r, filter) == [] {
      TwoParts(all, r.n, next, s.cursor, f);
      LongerUnlessEmpty(Keep(all[r.n..next], f), Keep(all[next..s.cursor], f), s.delivered, s.lost);
    } else if s.cursor > r.n {
      TwoParts(all, next, r.n, s.cursor, f);
      assert [] + Keep(all[r.n..s.cursor], f) == Keep(all[r.n..s.cursor], f);
    } else {
      TwoParts(all, next, s.cursor, r.n, f);
      KeepEmpty(all, r.n, f);
    }
  }

  lemma CountParts(all: seq<Entry>, from: nat, n: nat, f: Choice, s: Session)
    requires from <= n <= |all| && multiset(Keep(all[from..n], f)) == multiset(s.delivered) + multiset(s.lost)
    ensures |Keep(all[from..n], f)| == |s.delivered| + |s.lost|
  {
    assert |multiset(Keep(all[from..n], f))| == |multiset(s.delivered) + multiset(s.lost)|;
  }

  lemma LongerUnlessEmpty<T>(a: seq<T>, b: seq<T>, delivered: seq<T>, lost: seq<T>)
    requires |b| == |delivered| + |lost| && (delivered == b <==> lost == [])
    ensures delivered == a + b <==> lost == [] && a == []
  {
    if a == [] {
      assert a + b == b;
    }
  }

  // ----- a cursor from before a clear -----

  /** A cursor at or above the last number, as a client has after the log was cleared: the page is empty
      and the cursor falls back to the end of the log. */
  lemma StaleCursor(all: seq<Entry>, r: Request, cursor: nat, limit: nat, filter: Option<Filter>)
    requires IsNumbered(all) && r.n <= r.again <= |all| && cursor > 0 && cursor >= r.n
    ensures
      var p := Ask(all, r, cursor, limit, filter);
      p.entries == [] && NextCursor(p) == if filter.Some? then r.again else r.n
  {
    RingIsSlice(all, r.n);
    AboveIsSuffix(all, Oldest(r.n), r.n, cursor);
    assert Reach(r.n, cursor) == r.n;
    assert all[r.n..r.n] == [];
    hide Above;
  }

  /** And everything logged since the clear up to there is skipped: no later request delivers it. */
  lemma StaleCursorSkips(all: seq<Entry>, r: Request, cursor: nat, rs: seq<Request>, limit: nat, filter: Option<Filter>)
    requires IsNumbered(all) && 0 < r.n <= r.again <= |all| && cursor >= r.n && Growing(rs, r.again, |all|)
    ensures
      var next := NextCursor(Ask(all, r, cursor, limit, filter));
      && r.n <= next <= |all| && Growing(rs, next, |all|)
      && forall i :: 0 <= i < |Client(all, rs, next, limit, filter).delivered| ==> Client(all, rs, next, limit, filter).delivered[i].number > next
  {
    hide Ask, Keep;
    StaleCursor(all, r, cursor, limit, filter);
    var next := NextCursor(Ask(all, r, cursor, limit, filter));
    GrowingSince(rs, r.again, next, |all|);
    PagingAccounts(all, rs, next, limit, filter);
  }

  /** The counter is read under a second lock, so an entry appended in between is skipped for good by any
      filter that matches it and nothing retained. */
  lemma RaceSkipsAnEntry(first: Content, second: Content, f: Filter, limit: nat)
    requires !f(first) && f(second)
    ensures
      var all := Numbered([first, second]);
      var p := Ask(all, Request(1, 2), 1, limit, Some(f));
      p.entries == [] && NextCursor(p) == 2 && Keep(all[1..2], OnContent(f)) == [all[1]]
  {
    var all := Numbered([first, second]);
    assert all[1..2][..0] == [];
    NumberedIsNumbered([first, second]);
    AskIsTake(all, Request(1, 2), 1, limit, Some(f));
    KeepEmpty(all, 1, OnContent(f));
  }

  lemma {:induction false} ContainsOne(s: string, c: char)
    ensures Contains(s, [c]) <==> c in s
  {
    if s != [] {
      ContainsOne(s[1..], c);
      assert s[..1] == [s[0]] && s == [s[0]] + s[1..];
    }
  }

  /** Such a filter: the text "b", with the messages "a" and "b" at level "info". */
  lemma TextFilterRaces(lower: string -> string, limit: nat)
    requires lower("info") == "info" && lower("a") == "a" && lower("b") == "b"
    ensures
      var all := Numbered([Content("info", "a"), Content("info", "b")]);
      var p := Ask(all, Request(1, 2), 1, limit, Some(MatchesFilter(lower, "b")));
      p.entries == [] && NextCursor(p) == 2 && MatchesFilter(lower, "b")(all[1].content)
  {
    var f := MatchesFilter(lower, "b");
    ContainsOne("info", 'b');
    ContainsOne("a", 'b');
    ContainsOne("b", 'b');
    hide Contains;
    RaceSkipsAnEntry(Content("info", "a"), Content("info", "b"), f, limit);
  }
}
