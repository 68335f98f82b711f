/** Loops over a conversation's pages: gathering the messages to copy, and the latest visible message. */
module HistorySearch {
  import opened Wrappers
  import opened Sequences
  import opened History

  // ---------- Copying ----------

  const BATCH := 100

  predicate IsCopied(m: Message, before: Option<int>, after: Option<int>) {
    !m.deleted && !m.revoked && !m.omitted && !m.system &&
    !(before.Some? && m.createdAt > before.value) &&
    !(after.Some? && m.createdAt < after.value)
  }

  /** What is copied: a message of somebody that is there for all to see, within the two dates that are given. */
  lemma IsCopiedMeans(m: Message, before: Option<int>, after: Option<int>)
    ensures Copied(before, after)(m) <==>
      !m.deleted && !m.revoked && !m.omitted && !m.system &&
      (before.Some? ==> m.createdAt <= before.value) && (after.Some? ==> m.createdAt >= after.value)
  {}

  function Copied(before: Option<int>, after: Option<int>): Message -> bool {
    (m: Message) => IsCopied(m, before, after)
  }

  method GatherMessages(h: seq<Message>, before: Option<int>, after: Option<int>) returns (messagesToCopy: seq<Message>)
    requires IsHistory(h)
    ensures messagesToCopy == Scan(KEPT, Copied(before, after), h, 0, BATCH, BATCH)
  {
    hide Position, Filter, IsCopied, Scan, ListWithCursor, IsHistory;
    messagesToCopy := [];
    var cursor: Option<nat>, hasMore := None, true;
    ghost var from: nat := 0;
    assert Position(h, None) == Some(0) by { StartPosition(h); }
    while hasMore
      invariant from <= |h|
      invariant hasMore ==> Position(h, cursor) == Some(from)
      invariant messagesToCopy + (if hasMore then Scan(KEPT, Copied(before, after), h, from, BATCH, BATCH) else []) ==
        Scan(KEPT, Copied(before, after), h, 0, BATCH, BATCH)
      decreases hasMore, |h| - from
    {
      var batch := ListWithCursor(h, cursor, BATCH);
      var filtered := Filter((m: Message) => IsCopied(m, before, after), batch);
      CopyOneBatch(h, cursor, from, before, after);
      messagesToCopy := messagesToCopy + filtered;
      cursor := if |batch| > 0 then Some(batch[|batch| - 1].id) else None;
      hasMore := |batch| == BATCH;
      from := if hasMore then from + BATCH else from;
    }
  }

  lemma StartPosition(h: seq<Message>)
    ensures Position(h, None) == Some(0)
  {}

  /** A batch is full exactly when its window is and nothing in it was omitted; then the cursor ends the window. */
  lemma CopyOneBatch(h: seq<Message>, cursor: Option<nat>, from: nat, before: Option<int>, after: Option<int>)
    requires IsHistory(h) && from <= |h| && Position(h, cursor) == Some(from)
    ensures var batch, copied := ListWithCursor(h, cursor, BATCH), Copied(before, after);
      |batch| <= BATCH &&
      (|batch| == BATCH ==> from + BATCH <= |h| && Position(h, Some(batch[BATCH - 1].id)) == Some(from + BATCH)) &&
      Scan(KEPT, copied, h, from, BATCH, BATCH) ==
        Filter((m: Message) => IsCopied(m, before, after), batch) +
        if |batch| == BATCH then Scan(KEPT, copied, h, from + BATCH, BATCH, BATCH) else []
  {
    hide Position, Filter, IsCopied;
    var ms := Window(h, from, BATCH);
    CopiedAreKept(ms, before, after);
    FilterEverything(KEPT, ms);
    FullWindow(KEPT, h, from, BATCH);
    if WindowIsFull(KEPT, h, from, BATCH) {
      assert ms[BATCH - 1] == h[from + BATCH - 1];
      PositionOfMessage(h, from + BATCH - 1);
    }
  }

  lemma {:induction false} CopiedAreKept(ms: seq<Message>, before: Option<int>, after: Option<int>)
    ensures Filter((m: Message) => IsCopied(m, before, after), Filter(KEPT, ms)) == Filter(Copied(before, after), ms)
  {
    if ms != [] {
      CopiedAreKept(ms[1..], before, after);
      FilterAppend((m: Message) => IsCopied(m, before, after), if KEPT(ms[0]) then [ms[0]] else [], Filter(KEPT, ms[1..]));
    }
  }

  /** The copy is complete exactly when no message to copy has an omitted one in an earlier batch. */
  lemma CopyIsCompleteIff(h: seq<Message>, before: Option<int>, after: Option<int>)
    ensures var copied := Copied(before, after);
      Scan(KEPT, copied, h, 0, BATCH, BATCH) == Filter(copied, h) <==>
      forall i, k :: 0 <= i < |h| && 0 <= k < |h| && copied(h[k]) && i < k / 100 * 100 ==> !h[i].omitted
  {
    hide IsCopied, Scan, Filter;
    ScanIsCompleteIffInOrder(KEPT, Copied(before, after), h, BATCH, BATCH);
    forall k | 0 <= k < |h| ensures WindowStart(k, BATCH, BATCH) == k / BATCH * BATCH { BatchStart(k); }
  }

  lemma BatchStart(k: nat)
    ensures WindowStart(k, BATCH, BATCH) == k / BATCH * BATCH
  {}

  lemma CopyWithoutOmissions(h: seq<Message>, before: Option<int>, after: Option<int>)
    requires forall m :: m in h ==> !m.omitted
    ensures Scan(KEPT, Copied(before, after), h, 0, BATCH, BATCH) == Filter(Copied(before, after), h)
  {
    hide Scan, Filter, IsCopied;
    CopyIsCompleteIff(h, before, after);
  }

  // ---------- The latest visible message ----------

  const PAGE := 20

  /** The first element that satisfies `p`. */
  function Find<T>(p: T -> bool, xs: seq<T>): (r: Option<T>)
    ensures r.Some? ==> r.value in xs && p(r.value)
    ensures r.None? ==> forall x :: x in xs ==> !p(x)
  {
    if xs == [] then None
    else if p(xs[0]) then Some(xs[0])
    else
      var r := Find(p, xs[1..]);
      assert xs == [xs[0]] + xs[1..];
      r
  }

  lemma {:induction false} FindAppend<T>(p: T -> bool, xs: seq<T>, ys: seq<T>)
    ensures Find(p, xs + ys) == if Find(p, xs).Some? then Find(p, xs) else Find(p, ys)
  {
    if xs == [] {
      assert xs + ys == ys;
    } else {
      FindAppend(p, xs[1..], ys);
      assert (xs + ys)[1..] == xs[1..] + ys;
    }
  }

  lemma {:induction false} FindInFilter<T>(p: T -> bool, keep: T -> bool, both: T -> bool, xs: seq<T>)
    requires forall x :: both(x) <==> keep(x) && p(x)
    ensures Find(p, Filter(keep, xs)) == Find(both, xs)
  {
    if xs != [] {
      FindInFilter(p, keep, both, xs[1..]);
      var head := if keep(xs[0]) then [xs[0]] else [];
      FindAppend(p, head, Filter(keep, xs[1..]));
      assert Find(p, head) == if both(xs[0]) then Some(xs[0]) else None;
    }
  }

  function Visible(cutoff: Option<int>): Message -> bool {
    (m: Message) => !m.omitted && IsAfterCutoff(m, cutoff)
  }

  predicate AllOmitted(ms: seq<Message>) {
    forall m :: m in ms ==> m.omitted
  }

  /** The position after the last message of the page at `from`. */
  function AfterPage(h: seq<Message>, from: nat): (r: nat)
    requires IsHistory(h) && from <= |h| && Filter(KEPT, Window(h, from, PAGE)) != []
    ensures from < r <= |h|
    ensures Position(h, Some(Filter(KEPT, Window(h, from, PAGE))[|Filter(KEPT, Window(h, from, PAGE))| - 1].id)) == Some(r)
  {
    var page := Filter(KEPT, Window(h, from, PAGE));
    AfterPageIsLater(h, from);
    Position(h, Some(page[|page| - 1].id)).value
  }

  lemma AfterPageIsLater(h: seq<Message>, from: nat)
    requires IsHistory(h) && from <= |h| && Filter(KEPT, Window(h, from, PAGE)) != []
    ensures var page := Filter(KEPT, Window(h, from, PAGE));
      exists k: nat :: from < k <= |h| && Position(h, Some(page[|page| - 1].id)) == Some(k)
  {
    hide Position, Filter;
    var page := Filter(KEPT, Window(h, from, PAGE));
    var k := PageMember(h, from, PAGE, page[|page| - 1]);
    PositionOfMessage(h, k);
  }

  /** The first message with `p` on the pages from `from`, giving up at an empty page or one with `stop` on it. */
  function PagedFind(p: Message -> bool, stop: Message -> bool, h: seq<Message>, from: nat): Option<Message>
    requires IsHistory(h) && from <= |h|
    decreases |h| - from
  {
    var page := Filter(KEPT, Window(h, from, PAGE));
    if page == [] then None
    else if Find(p, page).Some? then Find(p, page)
    else if exists m :: m in page && stop(m) then None
    else PagedFind(p, stop, h, AfterPage(h, from))
  }

  function After(cutoff: Option<int>): Message -> bool {
    (m: Message) => IsAfterCutoff(m, cutoff)
  }

  function NotAfter(cutoff: Option<int>): Message -> bool {
    (m: Message) => cutoff.Some? && m.createdAt <= cutoff.value
  }

  /** The loop of the conversation lists. */
  method FindLatestVisibleMessage(h: seq<Message>, cutoff: Option<int>) returns (latest: Option<Message>)
    requires IsHistory(h)
    ensures latest == PagedFind(After(cutoff), NotAfter(cutoff), h, 0)
  {
    hide IsAfterCutoff, Position, Filter, IsHistory, After;
    var cursor: Option<nat> := None;
    ghost var from: nat := 0;
    assert Position(h, None) == Some(0) by { StartPosition(h); }
    while true
      invariant from <= |h| && Position(h, cursor) == Some(from)
      invariant PagedFind(After(cutoff), NotAfter(cutoff), h, from) == PagedFind(After(cutoff), NotAfter(cutoff), h, 0)
      decreases |h| - from
    {
      var messages := ListWithCursor(h, cursor, PAGE);
      if |messages| == 0 { return None; }
      latest := Find(After(cutoff), messages);
      if latest.Some? { return latest; }
      if exists m :: m in messages && NotAfter(cutoff)(m) { return None; }
      cursor := Some(messages[|messages| - 1].id);
      from := AfterPage(h, from);
    }
  }

  /**
   * The early exit is sound: unless every message of the first page was omitted, the loop's answer is the
   * first visible message of the whole history, found on that page or not at all.
   */
  lemma EarlyExitIsSound(h: seq<Message>, cutoff: Option<int>)
    requires IsHistory(h)
    ensures PagedFind(After(cutoff), NotAfter(cutoff), h, 0) ==
      if AllOmitted(Window(h, 0, PAGE)) then None else Find(Visible(cutoff), h)
  {
    hide Find, Filter;
    var ms := Window(h, 0, PAGE);
    var page := Filter(KEPT, ms);
    FilterNothing(KEPT, ms);
    FilterContains(KEPT, ms);
    FindInFilter(After(cutoff), KEPT, Visible(cutoff), ms);
    FindAppend(Visible(cutoff), ms, h[|ms|..]);
    assert h == ms + h[|ms|..];
    if page != [] && Find(After(cutoff), page).None? {
      var k := PageMember(h, 0, PAGE, page[0]);
      assert !IsAfterCutoff(page[0], cutoff) && NotAfter(cutoff)(page[0]);
      assert forall x :: x in h[|ms|..] ==> !Visible(cutoff)(x) by { OlderIsHidden(h, cutoff, k, |ms|); }
    }
  }

  /** A page that holds anything settles the search: it has a message after the cutoff, or one that is not. */
  lemma FirstPageDecides(h: seq<Message>, from: nat, cutoff: Option<int>)
    requires from <= |h|
    ensures var page := Filter(KEPT, Window(h, from, PAGE));
      page == [] || Find(After(cutoff), page).Some? || exists m :: m in page && NotAfter(cutoff)(m)
  {
    hide Filter;
    var page := Filter(KEPT, Window(h, from, PAGE));
    if page != [] { assert page[0] in page; }
  }

  /** So the loop never turns to a second page: its answer is read off the first. */
  lemma SecondPageIsNeverRead(h: seq<Message>, cutoff: Option<int>)
    requires IsHistory(h)
    ensures PagedFind(After(cutoff), NotAfter(cutoff), h, 0) == Find(After(cutoff), Filter(KEPT, Window(h, 0, PAGE)))
  {
    hide Filter;
    FirstPageDecides(h, 0, cutoff);
  }

  lemma OlderIsHidden(h: seq<Message>, cutoff: Option<int>, k: nat, from: nat)
    requires IsHistory(h) && k < from <= |h| && !IsAfterCutoff(h[k], cutoff)
    ensures forall x :: x in h[from..] ==> !Visible(cutoff)(x)
  {
    forall x | x in h[from..] ensures !Visible(cutoff)(x) {
      var i :| 0 <= i < |h[from..]| && h[from..][i] == x;
      assert h[from + i] == x;
    }
  }

  /** So it misses a visible message exactly when one exists behind a first page that was omitted as a whole. */
  lemma LatestIsFoundIff(h: seq<Message>, cutoff: Option<int>)
    requires IsHistory(h)
    ensures PagedFind(After(cutoff), NotAfter(cutoff), h, 0) == Find(Visible(cutoff), h) <==>
      !(AllOmitted(Window(h, 0, PAGE)) && exists m :: m in h && Visible(cutoff)(m))
  {
    hide Find, Filter, PagedFind;
    EarlyExitIsSound(h, cutoff);
  }
}
