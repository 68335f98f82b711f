/** The conversation list: its order, and its two ways of paging. */
module Listing {
  import opened Wrappers
  import opened Sequences

  /** Conversation ids as numbers in the order `localeCompare` gives them. Times are in milliseconds. */
  datatype ListItem = ListItem(
    id: nat,
    pinned: bool,
    pinnedAt: Option<int>,
    activityAt: Option<int>,
    lastMessageAt: Option<int>,
    updatedAt: Option<int>,
    createdAt: int
  )

  datatype ListError = InvalidCursor

  /** `pinned` is absent on every page but the first. */
  datatype CursorPage = CursorPage(
    pinned: Option<seq<ListItem>>,
    data: seq<ListItem>,
    nextCursor: Option<nat>,
    hasMore: bool
  )

  const DEFAULT_LIMIT := 20

  // ---------- The order ----------

  /** `date?.getTime() || other`: the time 0 counts as absent. */
  function TimeOr(date: Option<int>, other: int): int {
    if date.Some? && date.value != 0 then date.value else other
  }

  function ActivityTime(c: ListItem): int {
    TimeOr(c.activityAt, TimeOr(c.lastMessageAt, TimeOr(c.updatedAt, c.createdAt)))
  }

  /** Negative when `a` comes first. */
  function Compare(a: ListItem, b: ListItem): int {
    if a.pinned != b.pinned then (if a.pinned then -1 else 1)
    else if a.pinned && TimeOr(a.pinnedAt, 0) != TimeOr(b.pinnedAt, 0) then TimeOr(b.pinnedAt, 0) - TimeOr(a.pinnedAt, 0)
    else if ActivityTime(a) != ActivityTime(b) then ActivityTime(b) - ActivityTime(a)
    else a.id - b.id
  }

  /** On items with distinct ids the comparator is a strict total order. */
  lemma CompareIsStrictTotalOrder(a: ListItem, b: ListItem, c: ListItem)
    ensures Compare(a, b) < 0 <==> Compare(b, a) > 0
    ensures a.id != b.id ==> Compare(a, b) != 0
    ensures Compare(a, a) == 0
    ensures Compare(a, b) < 0 && Compare(b, c) < 0 ==> Compare(a, c) < 0
  {}

  ghost predicate Ordered(items: seq<ListItem>) {
    forall i, j :: 0 <= i < j < |items| ==> Compare(items[i], items[j]) < 0
  }

  ghost predicate DistinctIds(items: seq<ListItem>) {
    forall i, j :: 0 <= i < j < |items| ==> items[i].id != items[j].id
  }

  function Insert(c: ListItem, items: seq<ListItem>): seq<ListItem> {
    if items == [] || Compare(c, items[0]) <= 0 then [c] + items else [items[0]] + Insert(c, items[1..])
  }

  /** `items.sort(compare)` */
  function Sort(items: seq<ListItem>): seq<ListItem> {
    if items == [] then [] else Insert(items[0], Sort(items[1..]))
  }

  lemma {:induction false} InsertKeepsOrder(c: ListItem, items: seq<ListItem>)
    requires Ordered(items) && forall x :: x in items ==> x.id != c.id
    ensures Ordered(Insert(c, items)) && multiset(Insert(c, items)) == multiset(items) + multiset{c}
  {
    hide Compare;
    if items == [] {
    } else if Compare(c, items[0]) <= 0 {
      var r := [c] + items;
      forall i, j | 0 <= i < j < |r| ensures Compare(r[i], r[j]) < 0 {
        CompareIsStrictTotalOrder(c, items[0], items[j - 1]);
        if i > 0 { assert Compare(items[i - 1], items[j - 1]) < 0; }
      }
    } else {
      assert items == [items[0]] + items[1..];
      InsertKeepsOrder(c, items[1..]);
      var rest := Insert(c, items[1..]);
      CompareIsStrictTotalOrder(c, items[0], c);
      CompareIsStrictTotalOrder(items[0], c, c);
      forall x | x in rest ensures Compare(items[0], x) < 0 {
        assert x in multiset(rest);
        if x != c { assert x in items[1..]; }
      }
      PrependKeepsOrder(items[0], rest);
    }
  }

  lemma PrependKeepsOrder(c: ListItem, items: seq<ListItem>)
    requires Ordered(items) && forall x :: x in items ==> Compare(c, x) < 0
    ensures Ordered([c] + items)
  {
    var r := [c] + items;
    forall i, j | 0 <= i < j < |r| ensures Compare(r[i], r[j]) < 0 {
      assert r[j] == items[j - 1];
      if i > 0 { assert r[i] == items[i - 1]; }
    }
  }

  lemma {:induction false} SortSorts(items: seq<ListItem>)
    requires DistinctIds(items)
    ensures Ordered(Sort(items)) && multiset(Sort(items)) == multiset(items)
  {
    hide Compare;
    if items != [] {
      SortSorts(items[1..]);
      assert items == [items[0]] + items[1..];
      forall x | x in Sort(items[1..]) ensures x.id != items[0].id {
        assert x in multiset(items[1..]);
      }
      InsertKeepsOrder(items[0], Sort(items[1..]));
    }
  }

  /** Only one arrangement of the items is in order, so it does not matter how they are sorted. */
  lemma {:induction false} OrderIsUnique(xs: seq<ListItem>, ys: seq<ListItem>)
    requires Ordered(xs) && Ordered(ys) && multiset(xs) == multiset(ys)
    ensures xs == ys
  {
    hide Compare, Ordered;
    assert |multiset(xs)| == |xs| && |multiset(ys)| == |ys|;
    if xs != [] {
      SameFirst(xs, ys);
      TailIsOrdered(xs);
      TailIsOrdered(ys);
      assert xs == [xs[0]] + xs[1..] && ys == [ys[0]] + ys[1..];
      assert multiset(xs[1..]) == multiset(xs) - multiset{xs[0]};
      assert multiset(ys[1..]) == multiset(ys) - multiset{ys[0]};
      OrderIsUnique(xs[1..], ys[1..]);
    }
  }

  lemma TailIsOrdered(xs: seq<ListItem>)
    requires Ordered(xs) && xs != []
    ensures Ordered(xs[1..])
  {}

  lemma SameFirst(xs: seq<ListItem>, ys: seq<ListItem>)
    requires Ordered(xs) && Ordered(ys) && multiset(xs) == multiset(ys) && xs != [] && ys != []
    ensures xs[0] == ys[0]
  {
    hide Compare;
    assert xs[0] in multiset(ys) && ys[0] in multiset(xs);
    var i :| 0 <= i < |ys| && ys[i] == xs[0];
    var j :| 0 <= j < |xs| && xs[j] == ys[0];
    CompareIsStrictTotalOrder(xs[0], ys[0], ys[0]);
  }

  /** In the sorted list pinned items go by pinning time, the others by activity, newest first, and ties by id. */
  lemma SortedNewestFirst(items: seq<ListItem>, i: nat, j: nat)
    requires DistinctIds(items) && i < j < |Sort(items)|
    ensures var a, b := Sort(items)[i], Sort(items)[j];
      (b.pinned ==> a.pinned && TimeOr(a.pinnedAt, 0) >= TimeOr(b.pinnedAt, 0)) &&
      (a.pinned == b.pinned && (a.pinned ==> TimeOr(a.pinnedAt, 0) == TimeOr(b.pinnedAt, 0)) ==>
        ActivityTime(a) > ActivityTime(b) || (ActivityTime(a) == ActivityTime(b) && a.id < b.id))
  {
    hide Sort;
    SortSorts(items);
    assert Compare(Sort(items)[i], Sort(items)[j]) < 0;
  }

  // ---------- The order by the stored dates ----------

  /** A date that is set, and not to the time 0. */
  predicate IsSet(date: Option<int>) {
    date.Some? && date.value != 0
  }

  /** `t` is when the item was last active: its activity, else its last message, else its update, else its creation. */
  predicate LastActive(c: ListItem, t: int) {
    (IsSet(c.activityAt) ==> t == c.activityAt.value) &&
    (!IsSet(c.activityAt) && IsSet(c.lastMessageAt) ==> t == c.lastMessageAt.value) &&
    (!IsSet(c.activityAt) && !IsSet(c.lastMessageAt) && IsSet(c.updatedAt) ==> t == c.updatedAt.value) &&
    (!IsSet(c.activityAt) && !IsSet(c.lastMessageAt) && !IsSet(c.updatedAt) ==> t == c.createdAt)
  }

  /** An item pinned at no known time counts as pinned at the time 0. */
  function PinTime(c: ListItem): int {
    if c.pinnedAt.Some? then c.pinnedAt.value else 0
  }

  /**
   * `a` may stand before `b`: pinned items first and the latest pinned of them first, then whichever was active last,
   * and the smaller id when nothing else tells them apart.
   */
  ghost predicate StandsBefore(a: ListItem, b: ListItem) {
    if a.pinned != b.pinned then a.pinned
    else if a.pinned && PinTime(a) != PinTime(b) then PinTime(a) > PinTime(b)
    else forall x, y :: LastActive(a, x) && LastActive(b, y) ==> x > y || (x == y && a.id < b.id)
  }

  ghost predicate InListOrder(items: seq<ListItem>) {
    forall i, j :: 0 <= i < j < |items| ==> StandsBefore(items[i], items[j])
  }

  lemma CompareMeans(a: ListItem, b: ListItem)
    requires Compare(a, b) < 0
    ensures StandsBefore(a, b)
  {
    assert LastActive(a, ActivityTime(a)) && LastActive(b, ActivityTime(b));
  }

  /** Sorted and filtered, the items stand in that order, and of two active ones the later active stands first. */
  lemma SortedInListOrder(items: seq<ListItem>)
    requires DistinctIds(items)
    ensures InListOrder(Sort(items)) && InListOrder(Pinned(Sort(items))) && InListOrder(Normals(Sort(items)))
    ensures forall i, j :: 0 <= i < j < |Normals(Sort(items))| ==>
      var a, b := Normals(Sort(items))[i], Normals(Sort(items))[j];
      IsSet(a.activityAt) && IsSet(b.activityAt) ==> a.activityAt.value >= b.activityAt.value
  {
    hide Compare, Sort, StandsBefore, LastActive, Filter;
    SortSorts(items);
    var sorted := Sort(items);
    PinnedComeFirst(sorted);
    forall i, j | 0 <= i < j < |sorted| ensures StandsBefore(sorted[i], sorted[j]) { CompareMeans(sorted[i], sorted[j]); }
    var n := |Pinned(sorted)|;
    assert Pinned(sorted) == sorted[..n] && Normals(sorted) == sorted[n..];
    forall i, j | 0 <= i < j < |Normals(sorted)| && IsSet(Normals(sorted)[i].activityAt) && IsSet(Normals(sorted)[j].activityAt)
      ensures Normals(sorted)[i].activityAt.value >= Normals(sorted)[j].activityAt.value
    {
      var a, b := Normals(sorted)[i], Normals(sorted)[j];
      FilterContains((c: ListItem) => !c.pinned, sorted);
      assert a in Normals(sorted) && b in Normals(sorted);
      assert StandsBefore(sorted[n + i], sorted[n + j]);
      LaterActiveFirst(a, b);
    }
  }

  lemma LaterActiveFirst(a: ListItem, b: ListItem)
    requires StandsBefore(a, b) && !a.pinned && !b.pinned && IsSet(a.activityAt) && IsSet(b.activityAt)
    ensures a.activityAt.value >= b.activityAt.value
  {
    assert LastActive(a, a.activityAt.value) && LastActive(b, b.activityAt.value);
  }

  lemma SliceInListOrder(items: seq<ListItem>, from: nat, to: nat)
    requires InListOrder(items) && from <= to
    ensures InListOrder(Slice(items, from, to)) && |Slice(items, from, to)| <= to - from
  {}

  // ---------- Paging ----------

  /** `items.slice(from, to)` for bounds that are not negative. */
  function Slice<T>(items: seq<T>, from: nat, to: nat): seq<T>
    requires from <= to
  {
    if from >= |items| then [] else items[from..if to < |items| then to else |items|]
  }

  function EffectiveLimit(limit: nat): nat {
    if limit == 0 then DEFAULT_LIMIT else limit
  }

  lemma SliceIsShort(items: seq<ListItem>, from: nat, n: nat)
    ensures |Slice(items, from, from + n)| <= n
  {}

  /** A page is full unless the list ends on it, and twenty items long when no length is asked for. */
  lemma PagesAreFull(items: seq<ListItem>, from: nat, limit: nat)
    ensures var n := if limit == 0 then 20 else limit; var r := Slice(items, from, from + EffectiveLimit(limit));
      |r| <= n && (|r| < n ==> from + |r| >= |items|) && forall k :: 0 <= k < |r| ==> r[k] == items[from + k]
  {}

  function StartIndex(normals: seq<ListItem>, cursor: Option<nat>): (r: Option<nat>)
    ensures r.Some? ==> r.value <= |normals|
  {
    if cursor.None? then Some(0)
    else if normals == [] then None
    else if normals[0].id == cursor.value then Some(1)
    else match StartIndex(normals[1..], cursor) case Some(i) => Some(i + 1) case None => None
  }

  lemma {:induction false} StartIndexOfItem(normals: seq<ListItem>, i: nat)
    requires DistinctIds(normals) && i < |normals|
    ensures StartIndex(normals, Some(normals[i].id)) == Some(i + 1)
  {
    if i > 0 {
      assert normals[1..][i - 1] == normals[i];
      StartIndexOfItem(normals[1..], i - 1);
    }
  }

  method GetCursorStartIndex(normals: seq<ListItem>, cursor: Option<nat>) returns (r: Result<nat, ListError>)
    ensures r == match StartIndex(normals, cursor) case Some(i) => Success(i) case None => Failure(InvalidCursor)
  {
    if cursor.None? { return Success(0); }
    var i := 0;
    while i < |normals| && normals[i].id != cursor.value
      invariant i <= |normals|
      invariant StartIndex(normals, cursor) ==
        match StartIndex(normals[i..], cursor) case Some(k) => Some(k + i) case None => None
    {
      i := i + 1;
    }
    if i == |normals| { return Failure(InvalidCursor); }
    return Success(i + 1);
  }

  function Pinned(sorted: seq<ListItem>): seq<ListItem> {
    Filter((c: ListItem) => c.pinned, sorted)
  }

  function Normals(sorted: seq<ListItem>): seq<ListItem> {
    Filter((c: ListItem) => !c.pinned, sorted)
  }

  function PageAt(normals: seq<ListItem>, start: nat, limit: nat): (r: CursorPage)
    requires limit > 0
    ensures r.hasMore ==> |r.data| == limit && start + limit < |normals|
    ensures r.hasMore ==> r.nextCursor == Some(normals[start + limit - 1].id)
  {
    var data := Slice(normals, start, start + limit);
    var hasMore := start + limit < |normals|;
    CursorPage(None, data, if hasMore && |data| > 0 then Some(data[|data| - 1].id) else None, hasMore)
  }

  method QueryCursor(items: seq<ListItem>, cursor: Option<nat>, limit: nat) returns (r: Result<CursorPage, ListError>)
    ensures var sorted := Sort(items);
      r == match StartIndex(Normals(sorted), cursor)
      case None => Failure(InvalidCursor)
      case Some(start) =>
        Success(PageAt(Normals(sorted), start, EffectiveLimit(limit))
                .(pinned := if cursor.None? then Some(Pinned(sorted)) else None))
    ensures DistinctIds(items) && r.Success? ==>
      InListOrder(r.value.data) && (r.value.pinned.Some? ==> InListOrder(r.value.pinned.value))
    ensures r.Success? ==> |r.value.data| <= (if limit == 0 then 20 else limit)
    ensures r.Success? && r.value.hasMore ==> |r.value.data| == if limit == 0 then 20 else limit
  {
    hide InListOrder, Sort;
    var n := if limit != 0 then limit else DEFAULT_LIMIT;
    var enriched := Sort(items);
    var pinnedConversations := Filter((c: ListItem) => c.pinned, enriched);
    var normalConversations := Filter((c: ListItem) => !c.pinned, enriched);
    var start := GetCursorStartIndex(normalConversations, cursor);
    if start.Failure? { return Failure(start.error); }
    var startIndex := start.value;
    var page := Slice(normalConversations, startIndex, startIndex + n);
    if DistinctIds(items) {
      SortedInListOrder(items);
      SliceInListOrder(normalConversations, startIndex, startIndex + n);
    }
    var hasMore := startIndex + n < |normalConversations|;
    var nextCursor := if hasMore && |page| > 0 then Some(page[|page| - 1].id) else None;
    return Success(CursorPage(if cursor.None? then Some(pinnedConversations) else None, page, nextCursor, hasMore));
  }

  method QueryOffset(items: seq<ListItem>, page: nat, limit: nat) returns (r: seq<ListItem>)
    ensures r == OffsetPage(Sort(items), if page == 0 then 1 else page, EffectiveLimit(limit))
    ensures DistinctIds(items) ==> InListOrder(r)
    ensures |r| <= if limit == 0 then 20 else limit
  {
    hide InListOrder, Sort, DistinctIds, Slice;
    var p := if page != 0 then page else 1;
    var n := if limit != 0 then limit else DEFAULT_LIMIT;
    var result := Sort(items);
    var start := (p - 1) * n;
    SliceIsShort(result, start, n);
    if DistinctIds(items) {
      SortedInListOrder(items);
      SliceInListOrder(result, start, start + n);
    }
    return Slice(result, start, start + n);
  }

  function OffsetPage(sorted: seq<ListItem>, page: nat, limit: nat): seq<ListItem>
    requires page >= 1
  {
    Slice(sorted, (page - 1) * limit, (page - 1) * limit + limit)
  }

  // ---------- Walks over an unchanged list ----------

  /** Following `nextCursor` for as long as `hasMore` is set. */
  function Walk(normals: seq<ListItem>, cursor: Option<nat>, limit: nat): seq<ListItem>
    requires limit > 0 && DistinctIds(normals) && StartIndex(normals, cursor).Some?
    decreases |normals| - StartIndex(normals, cursor).value
  {
    var start := StartIndex(normals, cursor).value;
    var page := PageAt(normals, start, limit);
    if !page.hasMore then page.data
    else
      StartIndexOfItem(normals, start + limit - 1);
      page.data + Walk(normals, page.nextCursor, limit)
  }

  lemma {:induction false} WalkReadsTheRest(normals: seq<ListItem>, cursor: Option<nat>, limit: nat)
    requires limit > 0 && DistinctIds(normals) && StartIndex(normals, cursor).Some?
    ensures Walk(normals, cursor, limit) == normals[StartIndex(normals, cursor).value..]
    decreases |normals| - StartIndex(normals, cursor).value
  {
    hide StartIndex, DistinctIds;
    var start := StartIndex(normals, cursor).value;
    var page := PageAt(normals, start, limit);
    if page.hasMore {
      StartIndexOfItem(normals, start + limit - 1);
      WalkReadsTheRest(normals, page.nextCursor, limit);
      assert normals[start..] == normals[start..start + limit] + normals[start + limit..];
    }
  }

  function OffsetPages(sorted: seq<ListItem>, pages: nat, limit: nat): seq<ListItem> {
    if pages == 0 then [] else OffsetPages(sorted, pages - 1, limit) + OffsetPage(sorted, pages, limit)
  }

  lemma {:induction false} OffsetPagesReadAPrefix(sorted: seq<ListItem>, pages: nat, limit: nat)
    ensures OffsetPages(sorted, pages, limit) == Slice(sorted, 0, pages * limit)
  {
    if pages > 0 {
      OffsetPagesReadAPrefix(sorted, pages - 1, limit);
      SlicesJoin(sorted, (pages - 1) * limit, limit);
      assert pages * limit == (pages - 1) * limit + limit;
    }
  }

  lemma SlicesJoin<T>(items: seq<T>, n: nat, m: nat)
    ensures Slice(items, 0, n) + Slice(items, n, n + m) == Slice(items, 0, n + m)
  {}

  lemma {:induction false} PinnedComeFirst(sorted: seq<ListItem>)
    requires Ordered(sorted)
    ensures Pinned(sorted) + Normals(sorted) == sorted
  {
    if sorted != [] {
      PinnedComeFirst(sorted[1..]);
      assert sorted == [sorted[0]] + sorted[1..];
      if !sorted[0].pinned {
        forall x | x in sorted[1..] ensures !x.pinned { assert Compare(sorted[0], x) < 0; }
        FilterNothing((c: ListItem) => c.pinned, sorted[1..]);
      }
    }
  }

  /**
   * The pinned items of the first page and then the cursor walk give every item once, in order,
   * and so do the offset pages, for any limits.
   */
  lemma BothWalksReadTheList(items: seq<ListItem>, limit: nat, pages: nat, pageLimit: nat)
    requires DistinctIds(items) && limit > 0 && pages * pageLimit >= |items|
    ensures DistinctIds(Normals(Sort(items)))
    ensures Pinned(Sort(items)) + Walk(Normals(Sort(items)), None, limit) == Sort(items)
    ensures OffsetPages(Sort(items), pages, pageLimit) == Sort(items)
    ensures multiset(Sort(items)) == multiset(items) && Ordered(Sort(items))
  {
    hide Compare, Sort;
    SortSorts(items);
    var sorted := Sort(items);
    PinnedComeFirst(sorted);
    OrderedIdsDiffer(items, sorted);
    var normals := Normals(sorted);
    assert normals == sorted[|Pinned(sorted)|..];
    WalkReadsTheRest(normals, None, limit);
    OffsetPagesReadAPrefix(sorted, pages, pageLimit);
    assert |sorted| == |multiset(sorted)| == |items|;
  }

  lemma OrderedIdsDiffer(items: seq<ListItem>, sorted: seq<ListItem>)
    requires DistinctIds(items) && Ordered(sorted) && multiset(sorted) == multiset(items)
    ensures DistinctIds(sorted)
  {
    hide Compare;
    forall i, j | 0 <= i < j < |sorted| ensures sorted[i].id != sorted[j].id {
      assert Compare(sorted[i], sorted[j]) < 0;
      CompareIsStrictTotalOrder(sorted[i], sorted[j], sorted[j]);
      assert sorted[i] in multiset(items) && sorted[j] in multiset(items);
    }
  }
}
