/**
 * Reading a conversation page by page: the latest visible message, the history walk, and copying.
 * A query evaluates the next `n` stored messages and then omits those the viewer has deleted or that
 * have expired, so a page can be shorter than its limit.
 */
module History {
  import opened Wrappers
  import opened Sequences

  datatype Message = Message(
    id: nat,
    createdAt: int,
    omitted: bool,
    deleted: bool,
    revoked: bool,
    system: bool
  )

  /** The viewer's membership, as far as reading depends on it. */
  datatype Viewer = Viewer(
    active: bool,
    left: bool,
    hiddenAt: Option<int>,
    deletedAt: Option<int>,
    historyVisibleFrom: Option<int>
  )

  datatype HistoryError = InvalidLimit | NotAMember

  datatype MessagePage = MessagePage(messages: seq<Message>, nextCursor: Option<nat>, hasMore: bool)

  /** The stored messages of one conversation, newest first. */
  ghost predicate IsHistory(h: seq<Message>) {
    forall i, j :: 0 <= i < j < |h| ==> h[i].id != h[j].id && h[i].createdAt >= h[j].createdAt
  }

  // ---------- The repository ----------

  function Clamp(n: nat, top: nat): nat {
    if n < top then n else top
  }

  /** The position after the cursor's message. */
  function Position(h: seq<Message>, cursor: Option<nat>): (r: Option<nat>)
    ensures r.Some? ==> r.value <= |h|
  {
    if cursor.None? then Some(0)
    else if h == [] then None
    else if h[0].id == cursor.value then Some(1)
    else match Position(h[1..], cursor) case Some(i) => Some(i + 1) case None => None
  }

  lemma {:induction false} PositionOfMessage(h: seq<Message>, i: nat)
    requires IsHistory(h) && i < |h|
    ensures Position(h, Some(h[i].id)) == Some(i + 1)
  {
    if i > 0 {
      assert h[1..][i - 1] == h[i];
      PositionOfMessage(h[1..], i - 1);
    }
  }

  function Window(h: seq<Message>, from: nat, n: nat): seq<Message>
    requires from <= |h|
  {
    h[from..Clamp(from + n, |h|)]
  }

  const KEPT := (m: Message) => !m.omitted

  /** An unknown cursor yields nothing. */
  function ListWithCursor(h: seq<Message>, cursor: Option<nat>, n: nat): seq<Message> {
    match Position(h, cursor)
    case None => []
    case Some(from) => Filter(KEPT, Window(h, from, n))
  }

  /** A message of a page lies inside the window the page was read from. */
  lemma PageMember(h: seq<Message>, from: nat, n: nat, m: Message) returns (k: nat)
    requires from <= |h| && m in Filter(KEPT, Window(h, from, n))
    ensures from <= k < Clamp(from + n, |h|) && h[k] == m
  {
    FilterContains(KEPT, Window(h, from, n));
    var i :| 0 <= i < |Window(h, from, n)| && Window(h, from, n)[i] == m;
    k := from + i;
  }

  // ---------- Cutoffs ----------

  /** The later of the two dates that are present. */
  function LatestVisibilityCutoff(v: Viewer): Option<int> {
    match (v.hiddenAt, v.deletedAt)
    case (None, d) => d
    case (h, None) => h
    case (Some(h), Some(d)) => if h >= d then Some(h) else Some(d)
  }

  predicate IsAfterCutoff(m: Message, cutoff: Option<int>) {
    cutoff.None? || m.createdAt > cutoff.value
  }

  predicate InHistory(m: Message, v: Viewer) {
    IsAfterCutoff(m, LatestVisibilityCutoff(v)) && !(v.historyVisibleFrom.Some? && m.createdAt < v.historyVisibleFrom.value)
  }

  function Shows(v: Viewer): Message -> bool {
    (m: Message) => !m.omitted && InHistory(m, v)
  }

  /** A message is in the history exactly when it passes each of the three dates that is set. */
  lemma InHistoryMeans(m: Message, v: Viewer)
    ensures InHistory(m, v) <==>
      (v.hiddenAt.Some? ==> m.createdAt > v.hiddenAt.value) &&
      (v.deletedAt.Some? ==> m.createdAt > v.deletedAt.value) &&
      (v.historyVisibleFrom.Some? ==> m.createdAt >= v.historyVisibleFrom.value)
  {}

  /** Both cutoffs take away a suffix of the history. */
  lemma CutoffsRemoveASuffix(h: seq<Message>, v: Viewer, i: nat, j: nat)
    requires IsHistory(h) && i <= j < |h| && !InHistory(h[i], v)
    ensures !InHistory(h[j], v)
  {}

  // ---------- Scanning in windows ----------

  predicate WindowIsFull(good: Message -> bool, h: seq<Message>, from: nat, window: nat)
    requires from <= |h|
  {
    from + window <= |h| && forall k :: from <= k < from + window ==> good(h[k])
  }

  /** Where a scan that goes on by `step` after every full window of good messages comes to its end. */
  function ScanEnd(good: Message -> bool, h: seq<Message>, from: nat, window: nat, step: nat): (r: nat)
    requires 0 < step <= window && from <= |h|
    ensures from <= r <= |h|
    decreases |h| - from
  {
    if WindowIsFull(good, h, from, window) then ScanEnd(good, h, from + step, window, step)
    else Clamp(from + window, |h|)
  }

  function Scan(good: Message -> bool, keep: Message -> bool, h: seq<Message>, from: nat, window: nat, step: nat)
    : seq<Message>
    requires 0 < step <= window && from <= |h|
    decreases |h| - from
  {
    if WindowIsFull(good, h, from, window)
    then Filter(keep, h[from..from + step]) + Scan(good, keep, h, from + step, window, step)
    else Filter(keep, Window(h, from, window))
  }

  lemma FullWindowFits(good: Message -> bool, h: seq<Message>, from: nat, window: nat)
    requires from <= |h|
    ensures WindowIsFull(good, h, from, window) ==> from + window <= |h|
  {}

  lemma {:induction false} ScanReadsToItsEnd(good: Message -> bool, keep: Message -> bool, h: seq<Message>, from: nat,
                                             window: nat, step: nat)
    requires 0 < step <= window && from <= |h|
    ensures Scan(good, keep, h, from, window, step) == Filter(keep, h[from..ScanEnd(good, h, from, window, step)])
    decreases |h| - from
  {
    hide Filter, WindowIsFull;
    assert from + window <= |h| || !WindowIsFull(good, h, from, window) by { FullWindowFits(good, h, from, window); }
    if WindowIsFull(good, h, from, window) {
      ScanReadsToItsEnd(good, keep, h, from + step, window, step);
      var end := ScanEnd(good, h, from, window, step);
      FilterAppend(keep, h[from..from + step], h[from + step..end]);
      assert h[from..end] == h[from..from + step] + h[from + step..end];
    }
  }

  /** A scan reads everything exactly when nothing it should keep lies past its end. */
  lemma ScanIsCompleteIff(good: Message -> bool, keep: Message -> bool, h: seq<Message>, window: nat, step: nat)
    requires 0 < step <= window
    ensures var end := ScanEnd(good, h, 0, window, step);
      Scan(good, keep, h, 0, window, step) == Filter(keep, h) <==> forall k :: end <= k < |h| ==> !keep(h[k])
  {
    hide Filter, WindowIsFull, Scan;
    var end := ScanEnd(good, h, 0, window, step);
    ScanReadsToItsEnd(good, keep, h, 0, window, step);
    assert h[0..end] == h[..end];
    FilterAppend(keep, h[..end], h[end..]);
    assert h == h[..end] + h[end..];
    FilterNothing(keep, h[end..]);
    if forall k :: end <= k < |h| ==> !keep(h[k]) {
      forall x | x in h[end..] ensures !keep(x) {
        var i :| 0 <= i < |h[end..]| && h[end..][i] == x;
        assert h[end + i] == x;
      }
    } else {
      var k :| end <= k < |h| && keep(h[k]);
      assert h[end..][k - end] == h[k];
    }
  }

  /**
   * Which positions a scan reaches: those of the first window always, and one that the `m`th window adds exactly
   * when every message of the windows before it is good.
   */
  lemma {:induction false} ScanReachesIff(good: Message -> bool, h: seq<Message>, from: nat, window: nat, step: nat,
                                          m: nat, k: nat)
    requires 0 < step <= window && from <= k < |h|
    requires (m == 0 || from + m * step + (window - step) <= k) && k < from + m * step + window
    ensures k < ScanEnd(good, h, from, window, step) <==>
      m == 0 || forall i :: from <= i < from + m * step + (window - step) ==> good(h[i])
    decreases m
  {
    if m == 0 {
      ScanReadsItsFirstWindow(good, h, from, window, step);
    } else {
      assert (m - 1) * step == m * step - step && (m - 1) * step >= 0;
      if WindowIsFull(good, h, from, window) {
        ScanReachesIff(good, h, from + step, window, step, m - 1, k);
      }
    }
  }

  lemma ScanReadsItsFirstWindow(good: Message -> bool, h: seq<Message>, from: nat, window: nat, step: nat)
    requires 0 < step <= window && from <= |h|
    ensures ScanEnd(good, h, from, window, step) >= Clamp(from + window, |h|)
    decreases |h| - from
  {
    if WindowIsFull(good, h, from, window) { ScanReadsItsFirstWindow(good, h, from + step, window, step); }
  }

  /** The first position that the window of position `k` adds, which is 0 for the first window. */
  function WindowStart(k: nat, window: nat, step: nat): (r: nat)
    requires 0 < step <= window
    ensures r <= k
    ensures r == 0 <==> k < window
  {
    if k < window then 0 else WindowNumber(k, window, step) * step + (window - step)
  }

  /** How many windows a scan has to get past to reach position `k`. */
  function WindowNumber(k: nat, window: nat, step: nat): (m: nat)
    requires 0 < step <= window
    ensures m == 0 <==> k < window
    ensures m > 0 ==> m * step + (window - step) <= k
    ensures k < m * step + window
  {
    if k < window then 0
    else
      var m := WindowNumber(k - step, window, step) + 1;
      assert m * step == (m - 1) * step + step;
      m
  }

  /** A position is reached exactly when every message before its own window's start is good. */
  lemma PositionIsReachedIff(good: Message -> bool, h: seq<Message>, window: nat, step: nat, k: nat)
    requires 0 < step <= window && k < |h|
    ensures k < ScanEnd(good, h, 0, window, step) <==> forall i :: 0 <= i < WindowStart(k, window, step) ==> good(h[i])
  {
    ScanReachesIff(good, h, 0, window, step, WindowNumber(k, window, step), k);
  }

  /** A scan is complete exactly when no message it should keep lies behind a bad one of an earlier window. */
  lemma ScanIsCompleteIffInOrder(good: Message -> bool, keep: Message -> bool, h: seq<Message>, window: nat, step: nat)
    requires 0 < step <= window
    ensures Scan(good, keep, h, 0, window, step) == Filter(keep, h) <==>
      forall i, k :: 0 <= i < |h| && 0 <= k < |h| && keep(h[k]) && i < WindowStart(k, window, step) ==> good(h[i])
  {
    hide Scan, ScanEnd, Filter, WindowStart;
    ScanIsCompleteIff(good, keep, h, window, step);
    var end := ScanEnd(good, h, 0, window, step);
    forall i, k | 0 <= i < |h| && 0 <= k < end && i < WindowStart(k, window, step) ensures good(h[i]) {
      PositionIsReachedIff(good, h, window, step, k);
    }
    if !forall k :: end <= k < |h| ==> !keep(h[k]) {
      var k :| end <= k < |h| && keep(h[k]);
      PositionIsReachedIff(good, h, window, step, k);
      var i :| 0 <= i < WindowStart(k, window, step) && !good(h[i]);
      assert i < |h| && keep(h[k]) && i < WindowStart(k, window, step);
    }
  }

  // ---------- The history walk ----------

  function PageOf(h: seq<Message>, v: Viewer, cursor: Option<nat>, limit: nat): MessagePage
    requires limit > 0
  {
    var visible := Filter((m: Message) => InHistory(m, v), ListWithCursor(h, cursor, limit + 1));
    var hasMore := |visible| > limit;
    var messages := if hasMore then visible[..limit] else visible;
    MessagePage(messages, if hasMore then Some(messages[|messages| - 1].id) else None, hasMore)
  }

  method LoadMessages(h: seq<Message>, member: Option<Viewer>, cursor: Option<nat>, limit: int)
    returns (r: Result<MessagePage, HistoryError>)
    ensures r ==
      if limit < 1 || limit > 100 then Failure(InvalidLimit)
      else if member.None? || member.value.left || !member.value.active then Failure(NotAMember)
      else Success(PageOf(h, member.value, cursor, limit))
  {
    if limit < 1 || limit > 100 { return Failure(InvalidLimit); }
    if member.None? || member.value.left || !member.value.active { return Failure(NotAMember); }
    var messages := ListWithCursor(h, cursor, limit + 1);
    var v := member.value;
    var visibleMessages := Filter((m: Message) => InHistory(m, v), messages);
    var hasMore := |visibleMessages| > limit;
    var returnMessages := if hasMore then visibleMessages[..limit] else visibleMessages;
    var nextCursor := if hasMore && |returnMessages| > 0 then Some(returnMessages[|returnMessages| - 1].id) else None;
    return Success(MessagePage(returnMessages, nextCursor, hasMore));
  }

  lemma {:induction false} FilterTwice(v: Viewer, ms: seq<Message>)
    ensures Filter((m: Message) => InHistory(m, v), Filter(KEPT, ms)) == Filter(Shows(v), ms)
  {
    hide InHistory;
    if ms != [] {
      FilterTwice(v, ms[1..]);
      var inHistory := (m: Message) => InHistory(m, v);
      FilterAppend(inHistory, if KEPT(ms[0]) then [ms[0]] else [], Filter(KEPT, ms[1..]));
    }
  }

  lemma PageOfWindow(h: seq<Message>, v: Viewer, cursor: Option<nat>, limit: nat)
    requires limit > 0 && Position(h, cursor).Some?
    ensures var page, visible := PageOf(h, v, cursor, limit), Filter(Shows(v), Window(h, Position(h, cursor).value, limit + 1));
      (page.hasMore <==> |visible| > limit) &&
      (page.hasMore ==> page.messages == visible[..limit] && page.nextCursor == Some(visible[limit - 1].id)) &&
      (!page.hasMore ==> page.messages == visible)
  {
    hide InHistory, Shows, Position;
    FilterTwice(v, Window(h, Position(h, cursor).value, limit + 1));
  }

  /** A page has more exactly when its window, one message longer than the page, is full and all of it shows. */
  lemma PageAtPosition(h: seq<Message>, v: Viewer, cursor: Option<nat>, limit: nat)
    requires IsHistory(h) && limit > 0 && Position(h, cursor).Some?
    ensures var from, page := Position(h, cursor).value, PageOf(h, v, cursor, limit);
      (page.hasMore <==> WindowIsFull(Shows(v), h, from, limit + 1)) &&
      (page.hasMore ==>
        page.messages == h[from..from + limit] && page.messages == Filter(Shows(v), h[from..from + limit]) &&
        page.nextCursor.Some? && Position(h, page.nextCursor) == Some(from + limit)) &&
      (!page.hasMore ==> page.messages == Filter(Shows(v), Window(h, from, limit + 1)))
  {
    hide InHistory, Shows, Position, PageOf, Filter;
    PageOfWindow(h, v, cursor, limit);
    var from, shows := Position(h, cursor).value, Shows(v);
    var ms := Window(h, from, limit + 1);
    FilterEverything(shows, ms);
    FullWindow(shows, h, from, limit + 1);
    if WindowIsFull(shows, h, from, limit + 1) {
      assert Filter(shows, ms) == ms;
      assert ms[..limit] == h[from..from + limit];
      assert ms[limit - 1] == h[from + limit - 1];
      PositionOfMessage(h, from + limit - 1);
      AllGood(shows, h, from, limit + 1, limit);
    }
  }

  lemma FullWindow(good: Message -> bool, h: seq<Message>, from: nat, n: nat)
    requires from <= |h|
    ensures WindowIsFull(good, h, from, n) <==> |Window(h, from, n)| == n && forall x :: x in Window(h, from, n) ==> good(x)
  {
    var ms := Window(h, from, n);
    if |ms| == n && forall x :: x in ms ==> good(x) {
      forall k | from <= k < from + n ensures good(h[k]) { assert ms[k - from] == h[k]; }
    }
    if WindowIsFull(good, h, from, n) {
      forall x | x in ms ensures good(x) {
        var i :| 0 <= i < |ms| && ms[i] == x;
        assert h[from + i] == x;
      }
    }
  }

  lemma AllGood(good: Message -> bool, h: seq<Message>, from: nat, window: nat, n: nat)
    requires from <= |h| && WindowIsFull(good, h, from, window) && n <= window
    ensures Filter(good, h[from..from + n]) == h[from..from + n]
  {
    FilterEverything(good, h[from..from + n]);
    forall x | x in h[from..from + n] ensures good(x) {
      var i :| 0 <= i < n && h[from..from + n][i] == x;
      assert h[from + i] == x;
    }
  }

  /** Following `nextCursor` for as long as `hasMore` is set. */
  function Walk(h: seq<Message>, v: Viewer, cursor: Option<nat>, limit: nat): seq<Message>
    requires IsHistory(h) && limit > 0 && Position(h, cursor).Some?
    decreases |h| - Position(h, cursor).value
  {
    PageAtPosition(h, v, cursor, limit);
    var page := PageOf(h, v, cursor, limit);
    page.messages + if page.hasMore then Walk(h, v, page.nextCursor, limit) else []
  }

  lemma {:induction false} WalkIsAScan(h: seq<Message>, v: Viewer, cursor: Option<nat>, limit: nat)
    requires IsHistory(h) && limit > 0 && Position(h, cursor).Some?
    ensures Walk(h, v, cursor, limit) == Scan(Shows(v), Shows(v), h, Position(h, cursor).value, limit + 1, limit)
    decreases |h| - Position(h, cursor).value
  {
    hide PageOf, Shows, Position;
    PageAtPosition(h, v, cursor, limit);
    var page := PageOf(h, v, cursor, limit);
    if page.hasMore { WalkIsAScan(h, v, page.nextCursor, limit); }
  }

  /** A walk reads its first page and then pages of `limit` more messages; this is where the page of position `k` begins. */
  function PageStart(k: nat, limit: nat): nat
    requires limit > 0
  {
    if k <= limit then 0 else (k - 1) / limit * limit + 1
  }

  lemma PageIsWindow(k: nat, limit: nat)
    requires limit > 0
    ensures PageStart(k, limit) == WindowStart(k, limit + 1, limit)
  {
    var m := WindowNumber(k, limit + 1, limit);
    if m > 0 { PageStartOf(k, limit, m); }
  }

  lemma PageStartOf(k: nat, limit: nat, m: nat)
    requires limit > 0 && m * limit < k <= m * limit + limit
    ensures (k - 1) / limit == m
  {
    var q, r := (k - 1) / limit, (k - 1) % limit;
    assert limit * q + r == k - 1 && 0 <= r < limit;
    ProductsAscend(q + 1, m, limit);
    ProductsAscend(m + 1, q, limit);
  }

  lemma ProductsAscend(a: int, b: int, c: nat)
    ensures a <= b ==> a * c <= b * c
  {}

  /**
   * Walking the history returns every visible message exactly once, newest first, if and only if no visible message
   * has one that does not show among the pages before its own.
   */
  lemma WalkIsCompleteIff(h: seq<Message>, v: Viewer, limit: nat)
    requires IsHistory(h) && limit > 0
    ensures Walk(h, v, None, limit) == Filter(Shows(v), h) <==>
      forall i, k :: 0 <= i < |h| && 0 <= k < |h| && Shows(v)(h[k]) && i < PageStart(k, limit) ==> Shows(v)(h[i])
  {
    hide Shows, Walk, Scan, Filter, WindowStart, IsHistory;
    assert Position(h, None) == Some(0);
    forall k: nat ensures PageStart(k, limit) == WindowStart(k, limit + 1, limit) { PageIsWindow(k, limit); }
    WalkIsAScan(h, v, None, limit);
    ScanIsCompleteIffInOrder(Shows(v), Shows(v), h, limit + 1, limit);
  }

  /** In any case it returns what shows up to where it stops. */
  lemma WalkReadsToItsEnd(h: seq<Message>, v: Viewer, limit: nat)
    requires IsHistory(h) && limit > 0
    ensures Walk(h, v, None, limit) == Filter(Shows(v), h[..ScanEnd(Shows(v), h, 0, limit + 1, limit)])
  {
    hide Shows;
    WalkIsAScan(h, v, None, limit);
    ScanReadsToItsEnd(Shows(v), Shows(v), h, 0, limit + 1, limit);
    var end := ScanEnd(Shows(v), h, 0, limit + 1, limit);
    assert h[0..end] == h[..end];
  }

  /** With nothing omitted, both cutoffs only remove a suffix, and the walk is complete. */
  lemma WalkWithoutOmissions(h: seq<Message>, v: Viewer, limit: nat)
    requires IsHistory(h) && limit > 0 && forall m :: m in h ==> !m.omitted
    ensures Walk(h, v, None, limit) == Filter(Shows(v), h)
  {
    forall i, k | 0 <= i < |h| && 0 <= k < |h| && Shows(v)(h[k]) && i < PageStart(k, limit) ensures Shows(v)(h[i]) {
      if !InHistory(h[i], v) { CutoffsRemoveASuffix(h, v, i, k); }
    }
    WalkIsCompleteIff(h, v, limit);
  }

  /** A message the viewer deleted from the first page ends the walk there: older ones are not reached. */
  lemma OmissionEndsTheWalk(h: seq<Message>, v: Viewer, limit: nat, k: nat)
    requires IsHistory(h) && limit > 0 && k <= limit < |h| && h[k].omitted
    ensures Walk(h, v, None, limit) == Filter(Shows(v), h[..limit + 1])
  {
    assert !Shows(v)(h[k]);
    WalkReadsToItsEnd(h, v, limit);
  }
}
