/**
  Keyset paging of the sandbox list (ListSandboxesPage) and what a client that follows the cursor sees while the store
  changes.
 */
module Paging {
  import opened Strings
  import opened Sorting

  function ClampLimit(limit: int): (r: int)
    ensures 1 <= r <= 200
  {
    if limit <= 0 then 20 else if limit > 200 then 200 else limit
  }

  ghost predicate Increasing(s: seq<string>) {
    forall i, j :: 0 <= i < j < |s| ==> Less(s[i], s[j])
  }

  /** Stored ids: request validation rejects an empty one. */
  ghost predicate IdsOk(ids: set<string>) {
    "" !in ids
  }

  /** Ids past the cursor that the page leaves for later. */
  ghost predicate Left(ids: set<string>, cursor: string, page: seq<string>, y: string) {
    y in ids && Less(cursor, y) && y !in page
  }

  /** The least ids past the cursor, as many as the limit allows, and a cursor exactly when some are left. */
  ghost predicate IsPage(ids: set<string>, cursor: string, limit: int, page: seq<string>, next: string) {
    && Increasing(page) && |page| <= limit
    && (forall x :: x in page ==> x in ids && Less(cursor, x))
    && (forall x, y :: x in page && Left(ids, cursor, page, y) ==> Less(x, y))
    && (next != "" <==> exists y :: Left(ids, cursor, page, y))
    && (next != "" ==> page != [] && next == page[|page| - 1] && |page| == limit)
  }

  // ---------- How much a page holds ----------

  function Behind(ids: set<string>, cursor: string): set<string> {
    set x | x in ids && Less(cursor, x)
  }

  /** As many ids as are left behind the cursor, but 20 at most by default and 200 at most if more are asked for. */
  lemma PageSize(ids: set<string>, cursor: string, limit: int, page: seq<string>, next: string)
    requires IsPage(ids, cursor, ClampLimit(limit), page, next)
    ensures var behind := |Behind(ids, cursor)|;
      var most := if limit <= 0 then 20 else if 200 < limit then 200 else limit;
      |page| == if behind < most then behind else most
  {
    var behind := Behind(ids, cursor);
    IncreasingDistinct(page);
    DistinctSize(page);
    var held := set x | x in page;
    SubsetSize(held, behind);
    if next == "" {
      forall y | y in behind ensures y in held {
        assert !Left(ids, cursor, page, y);
      }
      assert held == behind;
    }
  }

  // ---------- The method ----------

  const BY_ID: (string, string) -> bool := (a, b) => Less(a, b)

  lemma ByIdIsOrder()
    ensures StrictOrder(BY_ID)
  {
    forall a, b | Less(a, b) ensures !Less(b, a) {
      if Less(b, a) {
        LessTransitive(a, b, a);
        LessIrreflexive(a);
      }
    }
    forall a, b, c | !Less(b, a) && !Less(c, b) ensures !Less(c, a) {
      LessTotal(a, b);
      LessTotal(b, c);
      if Less(a, b) && Less(b, c) {
        LessTransitive(a, b, c);
      }
      if Less(c, a) && Less(a, c) {
        LessTransitive(a, c, a);
        LessIrreflexive(a);
      }
    }
  }

  ghost predicate Distinct(s: seq<string>) {
    forall i, j :: 0 <= i < j < |s| ==> s[i] != s[j]
  }

  lemma {:induction false} CountsOnce(s: seq<string>)
    ensures Distinct(s) <==> forall x :: multiset(s)[x] <= 1
  {
    if s == [] {
    } else {
      var front, last := s[..|s| - 1], s[|s| - 1];
      CountsOnce(front);
      assert s == front + [last];
      assert multiset(s) == multiset(front) + multiset{last};
      if Distinct(s) {
        assert forall i, j :: 0 <= i < j < |front| ==> front[i] == s[i] && front[j] == s[j];
        assert last !in front;
        assert last !in multiset(front);
      }
      if forall x :: multiset(s)[x] <= 1 {
        assert forall x :: multiset(front)[x] <= multiset(s)[x];
        assert multiset(s)[last] == multiset(front)[last] + 1;
        assert last !in multiset(front);
        assert last !in front;
        forall i, j | 0 <= i < j < |s| ensures s[i] != s[j] {
          assert s[i] == front[i] && s[i] in front;
        }
      }
    }
  }

  /** Sorted by id, a listing is strictly increasing. */
  lemma SortedIncreasing(all: seq<string>)
    requires Distinct(all)
    ensures Increasing(Sort(all, BY_ID))
  {
    var s := Sort(all, BY_ID);
    ByIdIsOrder();
    SortSorted(all, BY_ID);
    CountsOnce(all);
    CountsOnce(s);
    forall i, j | 0 <= i < j < |s| ensures Less(s[i], s[j]) {
      LessTotal(s[i], s[j]);
      assert !BY_ID(s[j], s[i]);
    }
  }

  /** The slice of the sorted listing that starts behind the cursor is the page. */
  lemma SliceIsPage(s: seq<string>, cursor: string, limit: int, start: int, end: int)
    requires Increasing(s) && 0 <= start <= end <= |s| && 1 <= limit && "" !in s
    requires forall k :: 0 <= k < start ==> !Less(cursor, s[k])
    requires forall k :: start <= k < |s| ==> Less(cursor, s[k])
    requires end == |s| || end - start == limit
    requires end - start <= limit
    ensures IsPage((set x | x in s), cursor, limit, s[start..end], if end < |s| && start < end then s[end - 1] else "")
  {
    var ids, page := (set x | x in s), s[start..end];
    assert forall k :: start <= k < end ==> s[k] == page[k - start];
    forall y | Left(ids, cursor, page, y) ensures exists k :: end <= k < |s| && s[k] == y {
      var k :| 0 <= k < |s| && s[k] == y;
      assert k >= end;
    }
    if end < |s| {
      forall i | 0 <= i < |page| ensures page[i] != s[end] {
        assert Less(s[start + i], s[end]);
        LessIrreflexive(s[end]);
      }
      assert s[end] in s;
      assert Left(ids, cursor, page, s[end]);
      assert s[end - 1] in s;
    }
  }

  /** The loop's start index is the first id behind the cursor. */
  method StartBehind(s: seq<string>, cursor: string) returns (start: nat)
    requires Increasing(s) && "" !in s
    ensures start <= |s|
    ensures forall k :: 0 <= k < start ==> !Less(cursor, s[k])
    ensures forall k :: start <= k < |s| ==> Less(cursor, s[k])
  {
    start := 0;
    if cursor == "" {
      assert forall k :: 0 <= k < |s| ==> s[k] in s;
      return;
    }
    for i := 0 to |s|
      invariant start == if i == 0 then 0 else |s|
      invariant forall k :: 0 <= k < i ==> !Less(cursor, s[k])
    {
      if Less(cursor, s[i]) {
        start := i;
        forall k | start < k < |s| ensures Less(cursor, s[k]) {
          LessTransitive(cursor, s[start], s[k]);
        }
        return;
      }
      start := |s|;
    }
  }

  method ListSandboxesPage(all: seq<string>, cursor: string, limit: int) returns (page: seq<string>, next: string)
    requires Distinct(all) && "" !in all
    ensures IsPage((set x | x in all), cursor, ClampLimit(limit), page, next)
  {
    var max := limit;
    if max <= 0 {
      max := 20;
    }
    if max > 200 {
      max := 200;
    }
    var s := Sort(all, BY_ID);
    SortedIncreasing(all);
    SameElements(all, BY_ID);
    page, next := Cut(s, cursor, max);
    assert (set x | x in s) == (set x | x in all);
  }

  method Cut(s: seq<string>, cursor: string, max: int) returns (page: seq<string>, next: string)
    requires Increasing(s) && "" !in s && 1 <= max
    ensures IsPage((set x | x in s), cursor, max, page, next)
  {
    var start := StartBehind(s, cursor);
    page := [];
    var i := start;
    while i < |s| && |page| < max
      invariant start <= i <= |s| && page == s[start..i] && |page| <= max
    {
      page := page + [s[i]];
      i := i + 1;
    }
    next := "";
    if start + |page| < |s| && |page| > 0 {
      next := page[|page| - 1];
    }
    SliceIsPage(s, cursor, max, start, i);
  }

  // ---------- Following the cursor ----------

  /** One request of the client: what the store held then, what it asked for, what it got. */
  datatype Visit = Visit(ids: set<string>, limit: int, page: seq<string>, next: string)

  /** Requests that each pass the cursor the one before returned, and stop at the first empty one at the latest. */
  ghost predicate IsWalk(cursor: string, visits: seq<Visit>)
    decreases |visits|
  {
    visits == [] || (
      var v := visits[0];
      && IdsOk(v.ids) && IsPage(v.ids, cursor, ClampLimit(v.limit), v.page, v.next)
      && (v.next == "" ==> |visits| == 1)
      && IsWalk(v.next, visits[1..]))
  }

  function Collected(visits: seq<Visit>): seq<string> {
    if visits == [] then [] else visits[0].page + Collected(visits[1..])
  }

  predicate Ended(visits: seq<Visit>) {
    visits != [] && visits[|visits| - 1].next == ""
  }

  lemma PageLeads(v: Visit, cursor: string)
    requires IdsOk(v.ids) && IsPage(v.ids, cursor, ClampLimit(v.limit), v.page, v.next) && v.next != ""
    ensures Less(cursor, v.next) && forall x :: x in v.page ==> x == v.next || Less(x, v.next)
    ensures forall x :: x in v.ids && Less(cursor, x) && !Less(v.next, x) ==> x in v.page
  {
    assert v.next in v.page;
    forall x | x in v.page ensures x == v.next || Less(x, v.next) {
      var k :| 0 <= k < |v.page| && v.page[k] == x;
    }
  }

  /** What one request adds to the rest of the walk. */
  lemma WalkStep(cursor: string, v: Visit, more: seq<string>)
    requires IdsOk(v.ids) && IsPage(v.ids, cursor, ClampLimit(v.limit), v.page, v.next)
    requires Increasing(more) && (v.next == "" ==> more == []) && forall x :: x in more ==> Less(v.next, x)
    ensures Increasing(v.page + more) && forall x :: x in v.page + more ==> Less(cursor, x)
  {
    if v.next != "" {
      PageLeads(v, cursor);
      forall x | x in more ensures Less(cursor, x) {
        LessTransitive(cursor, v.next, x);
      }
    }
    JoinIncreasing(v.page, more, v.next);
  }

  lemma {:induction false} WalkIncreases(cursor: string, visits: seq<Visit>)
    requires IsWalk(cursor, visits)
    ensures Increasing(Collected(visits)) && forall x :: x in Collected(visits) ==> Less(cursor, x)
    decreases |visits|
  {
    if visits == [] {
    } else {
      WalkIncreases(visits[0].next, visits[1..]);
      WalkStep(cursor, visits[0], Collected(visits[1..]));
    }
  }

  /** What is collected was on some page, and in the store when that page was asked for. */
  lemma {:induction false} CollectedFromPages(cursor: string, visits: seq<Visit>, x: string)
    requires IsWalk(cursor, visits) && x in Collected(visits)
    ensures exists i :: 0 <= i < |visits| && x in visits[i].page && x in visits[i].ids
    decreases |visits|
  {
    if x in visits[0].page {
    } else {
      var rest := visits[1..];
      CollectedFromPages(visits[0].next, rest, x);
      var i :| 0 <= i < |rest| && x in rest[i].page && x in rest[i].ids;
      assert rest[i] == visits[i + 1];
    }
  }

  lemma {:induction false} NoneMissed(cursor: string, visits: seq<Visit>, x: string)
    requires IsWalk(cursor, visits) && Ended(visits)
    requires Less(cursor, x) && forall v :: v in visits ==> x in v.ids
    ensures x in Collected(visits)
    decreases |visits|
  {
    var v, rest := visits[0], visits[1..];
    assert v in visits && forall w :: w in rest ==> w in visits;
    if v.next == "" {
      assert !Left(v.ids, cursor, v.page, x);
    } else {
      PageLeads(v, cursor);
      if Less(v.next, x) {
        NoneMissed(v.next, rest, x);
      }
    }
  }

  /**
    However the store changes between requests, ids come in strictly increasing order and none that stays throughout
    is missed.
   */
  lemma WalkUnderChurn(cursor: string, visits: seq<Visit>)
    requires IsWalk(cursor, visits)
    ensures Increasing(Collected(visits))
    ensures forall x :: x in Collected(visits) ==>
      Less(cursor, x) && exists i :: 0 <= i < |visits| && x in visits[i].page && x in visits[i].ids
    ensures Ended(visits) ==> forall x :: Less(cursor, x) && (forall v :: v in visits ==> x in v.ids) ==>
      x in Collected(visits)
  {
    WalkIncreases(cursor, visits);
    forall x | x in Collected(visits)
      ensures exists i :: 0 <= i < |visits| && x in visits[i].page && x in visits[i].ids
    {
      CollectedFromPages(cursor, visits, x);
    }
    if Ended(visits) {
      forall x | Less(cursor, x) && (forall v :: v in visits ==> x in v.ids) ensures x in Collected(visits) {
        NoneMissed(cursor, visits, x);
      }
    }
  }

  lemma JoinIncreasing(a: seq<string>, b: seq<string>, mid: string)
    requires Increasing(a) && Increasing(b)
    requires b != [] ==> (forall x :: x in a ==> x == mid || Less(x, mid)) && forall y :: y in b ==> Less(mid, y)
    ensures Increasing(a + b)
  {
    forall i, j | 0 <= i < |a| && 0 <= j < |b| ensures Less(a[i], b[j]) {
      assert a[i] in a && b[j] in b;
      if a[i] != mid {
        LessTransitive(a[i], mid, b[j]);
      }
    }
  }

  lemma IncreasingDistinct(s: seq<string>)
    requires Increasing(s)
    ensures Distinct(s)
  {
    forall i, j | 0 <= i < j < |s| ensures s[i] != s[j] {
      LessIrreflexive(s[i]);
    }
  }

  /** From the start to the empty cursor, an id that stays in the store is returned exactly once. */
  lemma ExactlyOnce(visits: seq<Visit>, x: string)
    requires IsWalk("", visits) && Ended(visits) && x != "" && forall v :: v in visits ==> x in v.ids
    ensures multiset(Collected(visits))[x] == 1
  {
    WalkUnderChurn("", visits);
    IncreasingDistinct(Collected(visits));
    CountsOnce(Collected(visits));
    assert x in Collected(visits) && x in multiset(Collected(visits));
  }

  ghost predicate Fixed(ids: set<string>, visits: seq<Visit>) {
    forall v :: v in visits ==> v.ids == ids
  }

  /** On a store that does not change the pages put together are the sorted listing, whatever limits were asked for. */
  lemma FixedStoreListsAll(ids: set<string>, visits: seq<Visit>)
    requires IsWalk("", visits) && Ended(visits) && Fixed(ids, visits)
    ensures Increasing(Collected(visits)) && (set x | x in Collected(visits)) == ids
  {
    WalkUnderChurn("", visits);
    assert visits[0] in visits;
    forall x ensures x in Collected(visits) <==> x in ids {
      if x in Collected(visits) {
        var i :| 0 <= i < |visits| && x in visits[i].page && x in visits[i].ids;
        assert visits[i] in visits;
      }
    }
  }

  /**
    Every request after the first returns something, so a walk over an unchanging store has at most max(1, size)
    requests.
   */
  lemma FixedStoreEnds(ids: set<string>, visits: seq<Visit>)
    requires IsWalk("", visits) && Fixed(ids, visits)
    ensures |visits| <= 1 || |visits| <= |ids|
  {
    WalkUnderChurn("", visits);
    EachPageCounts(ids, "", visits);
    var all := Collected(visits);
    IncreasingDistinct(all);
    DistinctSize(all);
    forall x | x in all ensures x in ids {
      var i :| 0 <= i < |visits| && x in visits[i].page && x in visits[i].ids;
      assert visits[i] in visits;
    }
    SubsetSize((set x | x in all), ids);
  }

  lemma {:induction false} EachPageCounts(ids: set<string>, cursor: string, visits: seq<Visit>)
    requires IsWalk(cursor, visits) && Fixed(ids, visits)
    ensures |visits| <= 1 || |visits| <= |Collected(visits)|
    ensures |visits| == 1 && (exists y :: y in ids && Less(cursor, y)) ==> 1 <= |Collected(visits)|
    decreases |visits|
  {
    if visits == [] {
    } else {
      var v, rest := visits[0], visits[1..];
      assert v in visits && forall w :: w in rest ==> w in visits;
      EachPageCounts(ids, v.next, rest);
      if v.next != "" {
        PageLeads(v, cursor);
        var y :| Left(v.ids, cursor, v.page, y);
        assert v.next in v.page && Less(v.next, y);
      } else if y :| y in ids && Less(cursor, y) {
        assert !Left(v.ids, cursor, v.page, y);
      }
    }
  }

  lemma {:induction false} DistinctSize(s: seq<string>)
    requires Distinct(s)
    ensures |set x | x in s| == |s|
  {
    if s == [] {
    } else {
      var front, last := s[..|s| - 1], s[|s| - 1];
      DistinctSize(front);
      assert last !in front;
      assert (set x | x in s) == (set x | x in front) + {last};
    }
  }

  lemma {:induction false} SubsetSize(a: set<string>, b: set<string>)
    requires a <= b
    ensures |a| <= |b|
  {
    if x :| x in a {
      SubsetSize(a - {x}, b - {x});
    }
  }

  // ---------- A page is determined by the store, the cursor and the limit ----------

  lemma SameSize(a: seq<string>, b: seq<string>)
    requires Increasing(a) && Increasing(b) && forall x :: x in a <==> x in b
    ensures |a| == |b|
  {
    IncreasingDistinct(a);
    IncreasingDistinct(b);
    DistinctSize(a);
    DistinctSize(b);
    assert (set x | x in a) == (set x | x in b);
  }

  lemma SameLast(a: seq<string>, b: seq<string>)
    requires Increasing(a) && Increasing(b) && a != [] && b != [] && forall x :: x in a <==> x in b
    ensures a[|a| - 1] == b[|b| - 1]
  {
    var m, n := a[|a| - 1], b[|b| - 1];
    LastIsGreatest(a, b);
    LastIsGreatest(b, a);
    if m != n {
      LessTransitive(m, n, m);
      LessIrreflexive(m);
    }
  }

  lemma FrontMembers(a: seq<string>, x: string)
    requires Increasing(a) && a != []
    ensures x in a[..|a| - 1] <==> x in a && x != a[|a| - 1]
  {
    IncreasingDistinct(a);
    assert a == a[..|a| - 1] + [a[|a| - 1]];
  }

  lemma {:induction false} IncreasingUnique(a: seq<string>, b: seq<string>)
    requires Increasing(a) && Increasing(b) && forall x :: x in a <==> x in b
    ensures a == b
  {
    SameSize(a, b);
    if a != [] {
      SameLast(a, b);
      var fa, fb := a[..|a| - 1], b[..|b| - 1];
      forall x ensures x in fa <==> x in fb {
        FrontMembers(a, x);
        FrontMembers(b, x);
      }
      IncreasingUnique(fa, fb);
      assert a == fa + [a[|a| - 1]] && b == fb + [a[|a| - 1]];
    }
  }

  lemma LastIsGreatest(a: seq<string>, b: seq<string>)
    requires Increasing(b) && a != [] && b != [] && forall x :: x in a ==> x in b
    ensures a[|a| - 1] == b[|b| - 1] || Less(a[|a| - 1], b[|b| - 1])
  {
    assert a[|a| - 1] in a;
    var k :| 0 <= k < |b| && b[k] == a[|a| - 1];
  }

  lemma PageContained(ids: set<string>, cursor: string, limit: int, p: seq<string>, n: string, q: seq<string>,
      m: string)
    requires IsPage(ids, cursor, limit, p, n) && IsPage(ids, cursor, limit, q, m)
    ensures forall x :: x in p ==> x in q
  {
    forall x | x in p ensures x in q {
      if x !in q {
        assert Left(ids, cursor, q, x);
        IncreasingDistinct(p);
        IncreasingDistinct(q);
        DistinctSize(p);
        DistinctSize(q);
        var ps, qs := (set y | y in p), (set y | y in q);
        if qs <= ps {
          SubsetSize(qs + {x}, ps);
        } else {
          var y :| y in q && y !in p;
          assert Left(ids, cursor, p, y);
          LessTransitive(x, y, x);
          LessIrreflexive(x);
        }
      }
    }
  }

  lemma PageUnique(ids: set<string>, cursor: string, limit: int, p: seq<string>, n: string, q: seq<string>, m: string)
    requires IsPage(ids, cursor, limit, p, n) && IsPage(ids, cursor, limit, q, m)
    ensures p == q && n == m
  {
    PageContained(ids, cursor, limit, p, n, q, m);
    PageContained(ids, cursor, limit, q, m, p, n);
    IncreasingUnique(p, q);
  }
}
