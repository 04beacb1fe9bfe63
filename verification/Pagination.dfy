// Offset pagination end to end: the server's limits and its limit + 1 rule, and
// the clients that walk through the pages.
module Pagination {
  import opened Numbers
  import opened Wrappers

  const DEFAULT_LIMIT: int := 50
  const MAX_LIMIT: int := 100

  datatype Page<T> = Page(items: seq<T>, hasMore: bool)

  // ---- the server ----------------------------------------------------------

  // parsePagination over numbers; None for an absent or non-numeric value.
  function ClampLimit(raw: Option<int>): (limit: int)
    ensures 1 <= limit <= 100
  {
    Min(if raw.Some? && raw.value > 0 then raw.value else DEFAULT_LIMIT, MAX_LIMIT)
  }

  function ClampOffset(raw: Option<int>): (offset: nat) {
    if raw.Some? && raw.value > 0 then raw.value else 0
  }

  // ... LIMIT limit + 1 OFFSET offset
  function Select<T>(list: seq<T>, limit: nat, offset: nat): seq<T> {
    if offset >= |list| then [] else list[offset..Min(|list|, offset + limit + 1)]
  }

  function Answer<T>(list: seq<T>, limit: nat, offset: nat): Page<T> {
    var rows := Select(list, limit, offset);
    var hasMore := |rows| > limit;
    Page(if hasMore then rows[..limit] else rows, hasMore)
  }

  // The page is the stretch of the list it is asked for, and says whether
  // anything follows it.
  lemma AnswerIs<T>(list: seq<T>, limit: nat, offset: nat)
    ensures var page := Answer(list, limit, offset);
            && page.items == (if offset >= |list| then []
                              else list[offset..if |list| < offset + limit then |list| else offset + limit])
            && (page.hasMore <==> offset + limit < |list|)
  {
  }

  // GET /feedback, which clamps whatever its query says.
  function FeedbackPage<T>(list: seq<T>, limit: Option<int>, offset: Option<int>): Page<T> {
    Answer(list, ClampLimit(limit), ClampOffset(offset))
  }

  // GET /reviews: its query schema refuses a limit outside 1 to 100 and a
  // negative offset; the service clamps what is left.
  function ReviewPage<T>(list: seq<T>, limit: int, offset: int): Option<Page<T>> {
    if limit < 1 || limit > MAX_LIMIT || offset < 0 then None
    else Some(Answer(list, Min(if limit == 0 then DEFAULT_LIMIT else limit, MAX_LIMIT), offset))
  }

  // Whatever the query says: a limit that is missing or not positive is 50, one
  // over 100 is 100, an offset that is missing or negative is 0; and the page is
  // that stretch of the list, as far as it goes.
  lemma FeedbackPageBounds<T>(list: seq<T>, limit: Option<int>, offset: Option<int>)
    ensures var page := FeedbackPage(list, limit, offset);
            var size := if limit.None? || limit.value <= 0 then 50 else if limit.value > 100 then 100 else limit.value;
            var start := if offset.None? || offset.value < 0 then 0 else offset.value;
            && |page.items| == (if start >= |list| then 0 else if |list| - start < size then |list| - start else size)
            && (forall i | 0 <= i < |page.items| :: page.items[i] == list[start + i])
            && (page.hasMore <==> start + size < |list|)
  {
    AnswerIs(list, ClampLimit(limit), ClampOffset(offset));
  }

  // GET /reviews refuses what GET /feedback puts right.
  lemma ReviewPageIs<T>(list: seq<T>, limit: int, offset: int)
    ensures var page := ReviewPage(list, limit, offset);
            && (page.None? <==> !(1 <= limit <= 100) || offset < 0)
            && (page.Some? ==>
                  && |page.value.items| == (if offset >= |list| then 0
                                            else if |list| - offset < limit then |list| - offset else limit)
                  && (forall i | 0 <= i < |page.value.items| :: page.value.items[i] == list[offset + i])
                  && (page.value.hasMore <==> offset + limit < |list|))
  {
    if 1 <= limit <= 100 && offset >= 0 { AnswerIs(list, limit, offset); }
  }

  // ---- the offset-advancing client -----------------------------------------

  // list_auto_paginate, which the client has for reviews: a batch size outside
  // 1 to 100 is refused, any other yields the whole list once, in order.
  method ListReviews<T>(list: seq<T>, batchSize: int) returns (result: Option<seq<T>>)
    ensures result == if 1 <= batchSize <= 100 then Some(list) else None
  {
    var offset := 0;
    var yielded := [];
    while true
      invariant offset == 0 || 1 <= batchSize <= MAX_LIMIT
      invariant 0 <= offset <= |list| && yielded == list[..offset]
      decreases |list| - offset
    {
      var answer := ReviewPage(list, batchSize, offset);
      if answer.None? { return None; }
      var page := answer.value;
      assert 1 <= batchSize <= MAX_LIMIT;
      AnswerIs(list, batchSize, offset);
      yielded := yielded + page.items;
      if !page.hasMore {
        assert page.items == list[offset..];
        assert yielded == list[..offset] + list[offset..] == list;
        return Some(yielded);
      }
      assert list[..offset] + list[offset..offset + batchSize] == list[..offset + batchSize];
      offset := offset + batchSize;
    }
  }

  // ---- a list that changes between pages -----------------------------------

  ghost predicate NoRepeats<T>(list: seq<T>) {
    forall i, j :: 0 <= i < j < |list| ==> list[i] != list[j]
  }

  // What lies at an offset or behind it.
  function From<T>(list: seq<T>, offset: nat): seq<T> {
    if offset < |list| then list[offset..] else []
  }

  // The walk from an offset on, where lists[0] is what its first request finds,
  // lists[1] what its second one finds.
  function Walk<T>(lists: seq<seq<T>>, batchSize: nat, offset: nat): seq<T> {
    if lists == [] then []
    else Answer(lists[0], batchSize, offset).items + Walk(lists[1..], batchSize, offset + batchSize)
  }

  // The last request finds nothing behind its page.
  predicate Ends<T>(lists: seq<seq<T>>, batchSize: nat, offset: nat)
    requires lists != []
  {
    if |lists| == 1 then |lists[0]| <= offset + batchSize else Ends(lists[1..], batchSize, offset + batchSize)
  }

  // Left for later by one request, and before the offset of the next one, or gone.
  ghost predicate SlipsBack<T>(lists: seq<seq<T>>, batchSize: nat, offset: nat, x: T) {
    |lists| > 1 &&
    ((x in From(lists[0], offset + batchSize) && x !in From(lists[1], offset + batchSize))
     || SlipsBack(lists[1..], batchSize, offset + batchSize, x))
  }

  // Passed by one request, or not on the list, and at the offset of the next or
  // behind it.
  ghost predicate ComesLate<T>(lists: seq<seq<T>>, batchSize: nat, offset: nat, x: T) {
    |lists| > 1 &&
    ((x !in From(lists[0], offset + batchSize) && x in From(lists[1], offset + batchSize))
     || ComesLate(lists[1..], batchSize, offset + batchSize, x))
  }

  ghost predicate AllDistinct<T>(lists: seq<seq<T>>) {
    forall list | list in lists :: NoRepeats(list)
  }

  lemma OnPageWhen<T>(list: seq<T>, batchSize: nat, offset: nat, x: T)
    requires NoRepeats(list)
    ensures x in Answer(list, batchSize, offset).items <==>
              x in From(list, offset) && x !in From(list, offset + batchSize)
    ensures x in From(list, offset + batchSize) ==> x in From(list, offset)
  {
    AnswerIs(list, batchSize, offset);
    var page, from, later := Answer(list, batchSize, offset).items, From(list, offset), From(list, offset + batchSize);
    assert from == page + later;
    forall i, j | 0 <= i < |page| && 0 <= j < |later| ensures page[i] != later[j] {
      assert page[i] == list[offset + i] && later[j] == list[offset + batchSize + j];
    }
  }

  lemma FirstPage<T>(lists: seq<seq<T>>, batchSize: nat, offset: nat, x: T)
    requires lists != [] && AllDistinct(lists)
    ensures AllDistinct(lists[1..])
    ensures x in Walk(lists, batchSize, offset) <==>
            (x in From(lists[0], offset) && x !in From(lists[0], offset + batchSize))
            || x in Walk(lists[1..], batchSize, offset + batchSize)
    ensures x in From(lists[0], offset + batchSize) ==> x in From(lists[0], offset)
  {
    assert lists[0] in lists && forall list | list in lists[1..] :: list in lists;
    OnPageWhen(lists[0], batchSize, offset, x);
  }

  lemma {:induction false} ReadOrSlips<T>(lists: seq<seq<T>>, batchSize: nat, offset: nat, x: T)
    requires lists != [] && AllDistinct(lists) && Ends(lists, batchSize, offset) && x in From(lists[0], offset)
    ensures x in Walk(lists, batchSize, offset) || SlipsBack(lists, batchSize, offset, x)
    decreases |lists|
  {
    FirstPage(lists, batchSize, offset, x);
    var next := offset + batchSize;
    if x in From(lists[0], next) && |lists| > 1 && x in From(lists[1], next) {
      ReadOrSlips(lists[1..], batchSize, next, x);
    } else {
      assert |lists| == 1 ==> From(lists[0], next) == [];
    }
  }

  // What is behind the offset and never comes late is neither read nor slips.
  lemma {:induction false} StaysBehind<T>(lists: seq<seq<T>>, batchSize: nat, offset: nat, x: T)
    requires AllDistinct(lists) && !ComesLate(lists, batchSize, offset, x)
    requires lists != [] ==> x !in From(lists[0], offset)
    ensures x !in Walk(lists, batchSize, offset) && !SlipsBack(lists, batchSize, offset, x)
    decreases |lists|
  {
    if lists != [] {
      FirstPage(lists, batchSize, offset, x);
      StaysBehind(lists[1..], batchSize, offset + batchSize, x);
    }
  }

  lemma {:induction false} SlippedIsUnread<T>(lists: seq<seq<T>>, batchSize: nat, offset: nat, x: T)
    requires AllDistinct(lists) && !ComesLate(lists, batchSize, offset, x) && SlipsBack(lists, batchSize, offset, x)
    ensures x !in Walk(lists, batchSize, offset)
    decreases |lists|
  {
    FirstPage(lists, batchSize, offset, x);
    if x in From(lists[1], offset + batchSize) {
      SlippedIsUnread(lists[1..], batchSize, offset + batchSize, x);
    } else {
      StaysBehind(lists[1..], batchSize, offset + batchSize, x);
    }
  }

  // xs is what is left of ys when some items go.
  ghost predicate LeftOf<T>(xs: seq<T>, ys: seq<T>) {
    xs == [] || (ys != [] && ((xs[0] == ys[0] && LeftOf(xs[1..], ys[1..])) || LeftOf(xs, ys[1..])))
  }

  ghost predicate Shrinking<T>(lists: seq<seq<T>>) {
    |lists| > 1 ==> LeftOf(lists[1], lists[0]) && Shrinking(lists[1..])
  }

  lemma FromNext<T>(list: seq<T>, offset: nat)
    requires list != []
    ensures From(list, offset + 1) == From(list[1..], offset)
    ensures forall x | x in From(list, offset + 1) :: x in From(list, offset)
  {
  }

  lemma {:induction false} NothingMovesBack<T>(xs: seq<T>, ys: seq<T>, offset: nat, x: T)
    requires LeftOf(xs, ys) && x in From(xs, offset)
    ensures x in From(ys, offset)
    decreases |ys|
  {
    FromNext(ys, offset);
    if xs[0] == ys[0] && LeftOf(xs[1..], ys[1..]) {
      if offset > 0 {
        FromNext(xs, offset - 1);
        FromNext(ys, offset - 1);
        NothingMovesBack(xs[1..], ys[1..], offset - 1, x);
      } else if x != xs[0] {
        assert From(xs, 0) == xs && x in xs[1..] && From(xs[1..], 0) == xs[1..];
        NothingMovesBack(xs[1..], ys[1..], 0, x);
      }
    } else {
      NothingMovesBack(xs, ys[1..], offset, x);
    }
  }

  lemma {:induction false} ShrinkingNeverLate<T>(lists: seq<seq<T>>, batchSize: nat, offset: nat, x: T)
    requires Shrinking(lists)
    ensures !ComesLate(lists, batchSize, offset, x)
    decreases |lists|
  {
    if |lists| > 1 {
      ShrinkingNeverLate(lists[1..], batchSize, offset + batchSize, x);
      if x in From(lists[1], offset + batchSize) { NothingMovesBack(lists[1], lists[0], offset + batchSize, x); }
    }
  }

  // Reviews come and go between the pages of a walk. One of the first list is
  // yielded unless at some page it slips back past the offset or leaves the list;
  // and exactly then when it never comes late, as when the list only shrinks.
  lemma YieldedExactlyWhen<T>(lists: seq<seq<T>>, batchSize: nat, x: T)
    requires lists != [] && AllDistinct(lists) && Ends(lists, batchSize, 0) && x in lists[0]
    ensures x in Walk(lists, batchSize, 0) || SlipsBack(lists, batchSize, 0, x)
    ensures !ComesLate(lists, batchSize, 0, x) || Shrinking(lists) ==>
              (x in Walk(lists, batchSize, 0) <==> !SlipsBack(lists, batchSize, 0, x))
  {
    assert From(lists[0], 0) == lists[0];
    ReadOrSlips(lists, batchSize, 0, x);
    if Shrinking(lists) { ShrinkingNeverLate(lists, batchSize, 0, x); }
    if !ComesLate(lists, batchSize, 0, x) && SlipsBack(lists, batchSize, 0, x) {
      SlippedIsUnread(lists, batchSize, 0, x);
    }
  }

  // Pages of one, and the first review is decided once it has been yielded: the
  // second one is never seen.
  lemma DecidedBetweenPages<T>(a: T, b: T, c: T)
    requires a != b && a != c && b != c
    ensures var lists := [[a, b, c], [b, c]];
            && Ends(lists, 1, 0) && Walk(lists, 1, 0) == [a, c] && SlipsBack(lists, 1, 0, b)
  {
    var lists := [[a, b, c], [b, c]];
    AnswerIs([a, b, c], 1, 0);
    AnswerIs([b, c], 1, 1);
    assert lists[1..] == [[b, c]] && [[b, c]][1..] == [];
    assert Walk([[b, c]], 1, 1) == [c] + [];
    assert From(lists[0], 1) == [b, c] && From(lists[1], 1) == [c];
  }

  // ---- the notes client ----------------------------------------------------

  type Id = string

  ghost predicate Distinct(ids: seq<Id>) {
    forall i, j :: 0 <= i < j < |ids| ==> ids[i] != ids[j]
  }

  // [n for n in page.items if n.id not in seen_ids]
  function New(items: seq<Id>, seen: set<Id>): (picked: seq<Id>)
    ensures forall id :: id in picked <==> id in items && id !in seen
  {
    if items == [] then [] else (if items[0] in seen then [] else [items[0]]) + New(items[1..], seen)
  }

  lemma {:induction false} NewDistinct(items: seq<Id>, seen: set<Id>)
    requires Distinct(items)
    ensures Distinct(New(items, seen))
  {
    if items != [] {
      assert items[0] !in items[1..];
      NewDistinct(items[1..], seen);
    }
  }

  lemma {:induction false} NewOfNone(items: seq<Id>)
    ensures New(items, {}) == items
  {
    if items != [] {
      NewOfNone(items[1..]);
    }
  }

  lemma {:induction false} NothingNew(items: seq<Id>, seen: set<Id>)
    requires forall id | id in items :: id in seen
    ensures New(items, seen) == []
  {
    if items != [] {
      NothingNew(items[1..], seen);
    }
  }

  lemma AppendDistinct(xs: seq<Id>, ys: seq<Id>)
    requires forall id | id in ys :: id !in xs
    ensures Distinct(xs + ys) <==> Distinct(xs) && Distinct(ys)
  {
    var zs := xs + ys;
    if Distinct(zs) {
      forall i, j | 0 <= i < j < |xs| ensures xs[i] != xs[j] {
        assert zs[i] == xs[i] && zs[j] == xs[j];
      }
      forall i, j | 0 <= i < j < |ys| ensures ys[i] != ys[j] {
        assert zs[|xs| + i] == ys[i] && zs[|xs| + j] == ys[j];
      }
    }
    if Distinct(xs) && Distinct(ys) {
      forall i, j | 0 <= i < j < |zs| ensures zs[i] != zs[j] {
        assert j >= |xs| ==> zs[j] == ys[j - |xs|] && zs[j] in ys;
        assert i < |xs| ==> zs[i] in xs;
      }
    }
  }

  function Ids(ids: seq<Id>): set<Id> {
    set id | id in ids
  }

  // What is yielded after n requests.
  function Yielded(pages: nat -> Page<Id>, n: nat): seq<Id> {
    if n == 0 then []
    else Yielded(pages, n - 1) + New(pages(n - 1).items, Ids(Yielded(pages, n - 1)))
  }

  predicate OnPage(pages: nat -> Page<Id>, k: nat, id: Id) {
    id in pages(k).items
  }

  lemma {:induction false} YieldedDistinct(pages: nat -> Page<Id>, n: nat)
    requires forall k: nat | k < n :: Distinct(pages(k).items)
    ensures Distinct(Yielded(pages, n))
  {
    if n > 0 {
      var before := Yielded(pages, n - 1);
      YieldedDistinct(pages, n - 1);
      NewDistinct(pages(n - 1).items, Ids(before));
      AppendDistinct(before, New(pages(n - 1).items, Ids(before)));
    }
  }

  lemma {:induction false} YieldedIsSeen(pages: nat -> Page<Id>, n: nat, id: Id)
    ensures id in Yielded(pages, n) <==> exists k: nat :: k < n && OnPage(pages, k, id)
  {
    if n > 0 {
      YieldedIsSeen(pages, n - 1, id);
      assert OnPage(pages, n - 1, id) <==> id in pages(n - 1).items;
    }
  }

  // One page: what it adds to the ids seen.
  lemma NextPage(pages: nat -> Page<Id>, n: nat, universe: set<Id>)
    requires (forall k, id | OnPage(pages, k, id) :: id in universe) && Ids(Yielded(pages, n)) <= universe
    ensures var seen, items := Ids(Yielded(pages, n)), New(pages(n).items, Ids(Yielded(pages, n)));
            && Yielded(pages, n + 1) == Yielded(pages, n) + items
            && Ids(Yielded(pages, n + 1)) == seen + Ids(items) <= universe
            && (items != [] ==> |seen| < |seen + Ids(items)|)
            && (items == [] ==> Yielded(pages, n + 1) == Yielded(pages, n))
            && |seen| <= |universe| && |seen + Ids(items)| <= |universe|
  {
    var seen, items := Ids(Yielded(pages, n)), New(pages(n).items, Ids(Yielded(pages, n)));
    assert forall id | id in items :: OnPage(pages, n, id);
    SubsetSize(seen, universe);
    SubsetSize(seen + Ids(items), universe);
    if items == [] {
      assert Yielded(pages, n) + [] == Yielded(pages, n);
    } else {
      assert items[0] in items;
      SubsetSize(seen + {items[0]}, seen + Ids(items));
    }
  }

  // pages(n) is the answer to the n-th request, none of which carries a cursor.
  // Over a finite set of ids the walk ends after at most one request more than
  // there are ids.
  method NotesAutoPaginate(pages: nat -> Page<Id>, universe: set<Id>) returns (yielded: seq<Id>, requests: nat)
    requires forall k, id | OnPage(pages, k, id) :: id in universe
    ensures 1 <= requests <= |universe| + 1 && yielded == Yielded(pages, requests)
    ensures !pages(requests - 1).hasMore || yielded == Yielded(pages, requests - 1)
  {
    var seen: set<Id> := {};
    yielded := [];
    requests := 0;
    while true
      invariant yielded == Yielded(pages, requests) && seen == Ids(yielded)
      invariant seen <= universe && requests <= |seen| <= |universe|
      decreases |universe| - |seen|
    {
      NextPage(pages, requests, universe);
      var page := pages(requests);
      var items := New(page.items, seen);
      requests := requests + 1;
      if items == [] { break; }
      seen := seen + Ids(items);
      yielded := yielded + items;
      if !page.hasMore { break; }
    }
  }

  // The walk yields exactly the ids of the pages it read, and none of them twice
  // when no page repeats one.
  lemma NotesOnceEach(pages: nat -> Page<Id>, n: nat)
    ensures forall id :: id in Yielded(pages, n) <==> exists k: nat :: k < n && OnPage(pages, k, id)
    ensures (forall k: nat | k < n :: Distinct(pages(k).items)) ==> Distinct(Yielded(pages, n))
  {
    forall id ensures id in Yielded(pages, n) <==> exists k: nat :: k < n && OnPage(pages, k, id) {
      YieldedIsSeen(pages, n, id);
    }
    if forall k: nat | k < n :: Distinct(pages(k).items) { YieldedDistinct(pages, n); }
  }

  lemma {:induction false} SubsetSize<T>(a: set<T>, b: set<T>)
    requires a <= b
    ensures |a| <= |b|
    decreases |a|
  {
    if a != {} {
      var x :| x in a;
      SubsetSize(a - {x}, b - {x});
    }
  }

  // GET /notes reads no cursor; its schema refuses a limit outside 1 to 100.
  function NotesPage(list: seq<Id>, limit: int): Option<Page<Id>> {
    if 1 <= limit <= MAX_LIMIT then Some(Answer(list, limit, 0)) else None
  }

  // So every request gets the first page: the walk yields that page and no more,
  // and is complete exactly when the whole list fits into one page.
  method NotesFromServer(list: seq<Id>, batchSize: int) returns (result: Option<seq<Id>>)
    ensures result.Some? <==> 1 <= batchSize <= 100
    ensures result.Some? ==> result.value == list[..if batchSize < |list| then batchSize else |list|]
    ensures result == Some(list) <==> 1 <= batchSize <= 100 && |list| <= batchSize
  {
    var answer := NotesPage(list, batchSize);
    if answer.None? { return None; }
    var first := answer.value;
    AnswerIs(list, batchSize, 0);
    var pages: nat -> Page<Id> := _ => first;
    var yielded, requests := NotesAutoPaginate(pages, set id | id in list);
    SamePages(pages, first, requests);
    assert |list| <= batchSize ==> list[..|list|] == list;
    result := Some(yielded);
  }

  lemma {:induction false} SamePages(pages: nat -> Page<Id>, first: Page<Id>, n: nat)
    requires n >= 1 && forall k: nat :: pages(k) == first
    ensures Yielded(pages, n) == first.items
  {
    if n == 1 {
      assert Yielded(pages, 0) == [] && Ids([]) == {};
      NewOfNone(first.items);
    } else {
      SamePages(pages, first, n - 1);
      NothingNew(first.items, Ids(first.items));
    }
  }
}
