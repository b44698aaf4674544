/** Following `nextCursor` from page to page. */
module PaginationWalk {
  import opened Arithmetic
  import opened Strings
  import opened Wrappers
  import opened TenantScope
  import opened Pagination

  // ---------------------------------------------------------------- a fixed table

  /** Page `i` was asked for with the cursor the page before it gave. */
  ghost predicate Follows(q: Query, t: Table, pages: seq<Page>, i: nat)
    requires q.Ok() && 0 < i < |pages|
  {
    pages[i-1].nextCursor.Some? && pages[i] == List(q, t, pages[i-1].nextCursor)
  }

  /** The pages a client gets from the first one on. */
  ghost predicate IsWalk(q: Query, t: Table, pages: seq<Page>)
    requires q.Ok()
  {
    && |pages| >= 1 && pages[0] == List(q, t, None)
    && (forall i {:trigger Follows(q, t, pages, i)} :: 0 < i < |pages| ==> Follows(q, t, pages, i))
  }

  predicate Finished(pages: seq<Page>)
    requires |pages| >= 1
  {
    pages[|pages|-1].nextCursor.None?
  }

  function Items(pages: seq<Page>): seq<Row> {
    if pages == [] then [] else Items(pages[..|pages|-1]) + pages[|pages|-1].items
  }

  /** How many rows full pages hold. */
  function Position(pages: nat, limit: nat): nat {
    if pages == 0 then 0 else Position(pages - 1, limit) + limit
  }

  lemma {:induction false} PositionIs(pages: nat, limit: nat)
    ensures Position(pages, limit) == pages * limit
  {
    if pages > 0 { PositionIs(pages - 1, limit); }
  }

  /** The first `pages` pages of a list. */
  ghost predicate Covers(l: Table, limit: nat, pages: nat, items: seq<Row>, next: Option<Id>) {
    var k := Position(pages, limit);
    && items == Cut(l, 0, k)
    && next == (if 0 < k < |l| then Some(l[k-1].id) else None)
  }

  lemma CoversMore(l: Table, limit: nat, pages: nat, front: seq<Row>, next: Option<Id>, items: seq<Row>,
      next': Option<Id>)
    requires limit >= 1 && Covers(l, limit, pages, front, next) && Position(pages, limit) <= |l|
    requires items == Cut(l, Position(pages, limit), limit)
    requires next' == if Position(pages, limit) + limit < |l| then Some(l[Position(pages, limit) + limit - 1].id)
      else None
    ensures Covers(l, limit, pages + 1, front + items, next')
  {
    CutJoin(l, Position(pages, limit), limit);
  }

  /** The page holds the rows from position `k` of the list on, and its cursor tells so. */
  ghost predicate CutAt(l: Table, limit: nat, k: nat, page: Page) {
    && k <= |l| && page.items == Cut(l, k, limit)
    && page.nextCursor == (if 0 < k + limit < |l| then Some(l[k + limit - 1].id) else None)
  }

  ghost predicate CutFollows(l: Table, limit: nat, pages: seq<Page>, i: nat)
    requires 0 < i < |pages|
  {
    && pages[i-1].nextCursor.Some?
    && forall k {:trigger CutAt(l, limit, k, pages[i])} ::
         0 < k <= |l| && pages[i-1].nextCursor == Some(l[k-1].id) ==> CutAt(l, limit, k, pages[i])
  }

  ghost predicate PagesOf(l: Table, limit: nat, pages: seq<Page>) {
    && |pages| >= 1 && CutAt(l, limit, 0, pages[0])
    && forall i {:trigger CutFollows(l, limit, pages, i)} :: 0 < i < |pages| ==> CutFollows(l, limit, pages, i)
  }

  lemma {:induction false} WalkIsCut(q: Query, t: Table, pages: seq<Page>)
    requires q.Ok() && Unique(t) && IsWalk(q, t, pages)
    ensures PagesOf(q.All(t), q.limit, pages)
  {
    var l := q.All(t);
    PageAt(q, t, 0, None);
    forall i {:trigger CutFollows(l, q.limit, pages, i)} | 0 < i < |pages| ensures CutFollows(l, q.limit, pages, i) {
      assert Follows(q, t, pages, i);
      forall k {:trigger CutAt(l, q.limit, k, pages[i])} | 0 < k <= |l| && pages[i-1].nextCursor == Some(l[k-1].id)
        ensures CutAt(l, q.limit, k, pages[i])
      {
        PageAt(q, t, k, pages[i-1].nextCursor);
      }
    }
  }

  lemma {:induction false} WalkPrefix(l: Table, limit: nat, pages: seq<Page>)
    requires limit >= 1 && PagesOf(l, limit, pages)
    ensures Covers(l, limit, |pages|, Items(pages), pages[|pages|-1].nextCursor)
    ensures |pages| == 1 || Position(|pages| - 1, limit) < |l|
    decreases |pages|
  {
    var p := |pages|;
    var front := pages[..p-1];
    if p == 1 {
      CoversMore(l, limit, 0, [], None, pages[0].items, pages[0].nextCursor);
      assert front == [] && [] + pages[0].items == pages[0].items;
    } else {
      forall i {:trigger CutFollows(l, limit, front, i)} | 0 < i < |front| ensures CutFollows(l, limit, front, i) {
        assert CutFollows(l, limit, pages, i);
      }
      WalkPrefix(l, limit, front);
      assert CutFollows(l, limit, pages, p - 1);
      var k := Position(p - 1, limit);
      assert CutAt(l, limit, k, pages[p-1]);
      CoversMore(l, limit, p - 1, Items(front), front[p-2].nextCursor, pages[p-1].items, pages[p-1].nextCursor);
    }
  }

  lemma CutJoin(l: Table, k: nat, n: nat)
    requires k <= |l|
    ensures Cut(l, 0, k) + Cut(l, k, n) == Cut(l, 0, k + n)
  {}

  /** One page even when there is nothing, else the quotient rounded up. */
  function PageCount(n: nat, limit: nat): nat
    requires limit >= 1
  {
    if n == 0 then 1 else (n + limit - 1) / limit
  }

  lemma RoundedUp(n: nat, limit: nat, p: nat)
    requires limit >= 1 && p >= 1 && p * limit >= n && (p == 1 || (p - 1) * limit < n)
    ensures p == PageCount(n, limit)
  {
    MulStep(limit, p - 1);
    MulMonotone(0, p - 1, limit);
    if n > 0 { DivIs(n + limit - 1, limit, p); }
  }

  /** On a fixed table a finished walk returns the whole sorted, filtered list, in order, in
      exactly as many pages as it takes. */
  lemma {:induction false} FinishedWalkIsWhole(q: Query, t: Table, pages: seq<Page>)
    requires q.Ok() && Unique(t) && IsWalk(q, t, pages) && Finished(pages)
    ensures Items(pages) == q.All(t)
    ensures |pages| == PageCount(|q.All(t)|, q.limit)
  {
    WalkIsCut(q, t, pages);
    WalkPrefix(q.All(t), q.limit, pages);
    PositionIs(|pages|, q.limit);
    PositionIs(|pages| - 1, q.limit);
    RoundedUp(|q.All(t)|, q.limit, |pages|);
  }

  /** The walk does finish. */
  lemma {:induction false} WalkFinishes(q: Query, t: Table) returns (pages: seq<Page>)
    requires q.Ok() && Unique(t)
    ensures IsWalk(q, t, pages) && Finished(pages)
  {
    pages := [List(q, t, None)];
    while !Finished(pages)
      invariant |pages| >= 1 && IsWalk(q, t, pages)
      decreases |q.All(t)| - |pages|
    {
      WalkIsCut(q, t, pages);
      WalkPrefix(q.All(t), q.limit, pages);
      PositionIs(|pages|, q.limit);
      MulMonotone(1, q.limit, |pages|);
      var longer := pages + [List(q, t, pages[|pages|-1].nextCursor)];
      forall i {:trigger Follows(q, t, longer, i)} | 0 < i < |longer| ensures Follows(q, t, longer, i) {
        if i < |pages| { assert Follows(q, t, pages, i); }
      }
      pages := longer;
    }
  }

  // ---------------------------------------------------------------- a request with a cursor

  predicate Matched(q: Query, t: Table, r: Row) {
    r in t && Hit(Some(ScopedWhere(q.where, q.tenant)), r)
  }

  lemma PositionOf(q: Query, t: Table, r: Row) returns (j: nat)
    requires q.Ok() && Unique(t) && Matched(q, t, r)
    ensures j < |q.All(t)| && q.All(t)[j] == r
  {
    AllOk(q, t);
    assert r in q.All(t);
    j :| 0 <= j < |q.All(t)| && q.All(t)[j] == r;
  }

  /** The matching rows strictly after a row. */
  function After(l: Table, c: Row, keys: seq<Order>): Table {
    if l == [] then [] else if RowLess(c, l[0], keys) then [l[0]] + After(l[1..], c, keys) else After(l[1..], c, keys)
  }

  lemma {:induction false} NotBeforeIsAfter(l: Table, c: Row, keys: seq<Order>)
    requires Total(keys) && forall r :: r in l ==> r.id != c.id
    ensures NotBefore(l, c, keys) == After(l, c, keys)
  {
    if l != [] {
      TotalOrder(keys, l[0], c, l[0]);
      TotalOrder(keys, c, l[0], c);
      assert l[0] in l;
      NotBeforeIsAfter(l[1..], c, keys);
    }
  }

  lemma {:induction false} AfterAt(l: Table, k: nat, keys: seq<Order>)
    requires Total(keys) && Ascending(l, keys) && k < |l|
    ensures After(l, l[k], keys) == l[k+1..]
    decreases k
  {
    if k == 0 {
      TotalOrder(keys, l[0], l[0], l[0]);
      AfterAll(l[1..], l[0], keys);
    } else {
      assert RowLess(l[0], l[k], keys);
      TotalOrder(keys, l[0], l[k], l[0]);
      assert l[1..][k-1] == l[k] && l[1..][k..] == l[k+1..];
      AfterAt(l[1..], k - 1, keys);
    }
  }

  lemma {:induction false} AfterAll(l: Table, c: Row, keys: seq<Order>)
    requires forall i :: 0 <= i < |l| ==> RowLess(c, l[i], keys)
    ensures After(l, c, keys) == l
  {
    if l != [] {
      assert RowLess(c, l[0], keys);
      AfterAll(l[1..], c, keys);
      assert [l[0]] + l[1..] == l;
    }
  }

  lemma SkipOne(rows: Table, n: nat)
    ensures SkipTake(rows, 1, Some(n)) == if rows == [] then [] else Cut(rows[1..], 0, n)
  {}

  lemma FetchedAfterMatch(q: Query, t: Table, c: Row)
    requires q.Ok() && Unique(t) && Matched(q, t, c)
    ensures Fetched(q, t, Some(c.id)) == Cut(After(q.All(t), c, q.Keys()), 0, q.limit + 1)
  {
    var l := q.All(t);
    var k := PositionOf(q, t, c);
    AllOk(q, t);
    FetchedAt(q, t, k + 1, Some(c.id));
    AfterAt(l, k, q.Keys());
    assert Cut(l, k + 1, q.limit + 1) == Cut(l[k+1..], 0, q.limit + 1);
  }

  lemma UnmatchedIsElsewhere(q: Query, t: Table, c: Row)
    requires q.Ok() && Unique(t) && c in t && !Matched(q, t, c)
    ensures forall r :: r in q.All(t) ==> r.id != c.id
  {
    AllOk(q, t);
    forall r | r in q.All(t) ensures r.id != c.id {
      var i :| 0 <= i < |t| && t[i] == r;
      var j :| 0 <= j < |t| && t[j] == c;
    }
  }

  lemma FetchedAfterMismatch(q: Query, t: Table, c: Row)
    requires q.Ok() && Unique(t) && c in t && !Matched(q, t, c)
    ensures var rows := After(q.All(t), c, q.Keys());
            Fetched(q, t, Some(c.id)) == if rows == [] then [] else Cut(rows[1..], 0, q.limit + 1)
  {
    AllOk(q, t);
    UnmatchedIsElsewhere(q, t, c);
    FindIdIs(t, c);
    NotBeforeIsAfter(q.All(t), c, q.Keys());
    SkipOne(After(q.All(t), c, q.Keys()), q.limit + 1);
  }

  lemma {:induction false} AfterIn(l: Table, c: Row, keys: seq<Order>)
    requires Ascending(l, keys) && DistinctIds(l)
    ensures Ascending(After(l, c, keys), keys) && DistinctIds(After(l, c, keys))
    ensures forall r :: r in After(l, c, keys) <==> r in l && RowLess(c, r, keys)
  {
    if l != [] {
      var tail := l[1..];
      assert forall i :: 0 <= i < |tail| ==> tail[i] == l[i+1];
      assert Ascending(tail, keys) && DistinctIds(tail);
      AfterIn(tail, c, keys);
      var rest := After(tail, c, keys);
      forall i | 0 <= i < |rest| ensures rest[i].id != l[0].id && RowLess(l[0], rest[i], keys) {
        assert rest[i] in tail;
        var k :| 0 <= k < |tail| && tail[k] == rest[i];
        assert l[k+1] == rest[i];
      }
    }
  }

  /** The request fetches exactly the rows after the one its cursor names, if and only if that
      row still matches or no matching row follows it: `skip: 1` skips the first row found,
      whichever that is. */
  lemma CursorConditionIsExact(q: Query, t: Table, c: Row)
    requires q.Ok() && Unique(t) && c in t
    ensures Fetched(q, t, Some(c.id)) == Cut(After(q.All(t), c, q.Keys()), 0, q.limit + 1)
            <==> Matched(q, t, c) || After(q.All(t), c, q.Keys()) == []
  {
    if Matched(q, t, c) { FetchedAfterMatch(q, t, c); } else { FetchedAfterMismatch(q, t, c); }
    AllOk(q, t);
    AfterIn(q.All(t), c, q.Keys());
    var rows := After(q.All(t), c, q.Keys());
    if !Matched(q, t, c) && |rows| > 1 {
      assert Cut(rows[1..], 0, q.limit + 1)[0] == rows[1];
      assert Cut(rows, 0, q.limit + 1)[0] == rows[0];
    }
  }

  lemma FindIdNone(t: Table, id: Id)
    requires forall r :: r in t ==> r.id != id
    ensures FindId(t, id) == None
  {
    if t != [] {
      assert t[0] in t;
      FindIdNone(t[1..], id);
    }
  }

  /** If the row is gone the walk ends there. */
  lemma MissingCursorEndsTheWalk(q: Query, t: Table, id: Id)
    requires q.Ok() && forall r :: r in t ==> r.id != id
    ensures List(q, t, Some(id)) == Page([], None)
  {
    FindIdNone(t, id);
  }

  /** The condition does fail: the cursor row was read meanwhile in a list of unread rows, and
      the one unread row after it is skipped in its place. */
  lemma SkippedWitness()
    ensures var unread := Some(Where(None, [OnCol("readAt", Equals(Null))]));
            var q := Query("a", unread, None, [], Order("createdAt", true), 1);
            var c, z := Row(2, "a", None, map["readAt" := Num(5)]), Row(1, "a", None, map[]);
            && Unique([c, z]) && After(q.All([c, z]), c, q.Keys()) == [z] && Fetched(q, [c, z], Some(2)) == []
  {
    var unread := Some(Where(None, [OnCol("readAt", Equals(Null))]));
    var q := Query("a", unread, None, [], Order("createdAt", true), 1);
    var c, z := Row(2, "a", None, map["readAt" := Num(5)]), Row(1, "a", None, map[]);
    var w := Some(ScopedWhere(unread, "a"));
    var cond := w.value.conds[0];
    assert cond == OnCol("readAt", Equals(Null)) && w.value.conds == [cond];
    assert !Holds(cond, c) && Holds(cond, z);
    OneUnread(w, c, z);
    assert q.All([c, z]) == Sorted([z], q.Keys());
    assert [z][..0] == [] && Sorted([z], q.Keys()) == Placed(z, Sorted([], q.Keys()), q.Keys()) == [z];
    AfterOne(c, z, q.Keys());
    assert !Matched(q, [c, z], c);
    FetchedAfterMismatch(q, [c, z], c);
    assert [z][1..] == [];
  }

  lemma OneUnread(w: Option<Where>, c: Row, z: Row)
    requires !Hit(w, c) && Hit(w, z) && c.id != z.id && c.key.None?
    ensures Matching(w, [c, z]) == [z] && Unique([c, z])
  {
    assert [c, z][1..] == [z] && [z][1..] == [];
    assert Matching(w, [z]) == [z] + Matching(w, []);
    assert Unique([]) && Unique([z]);
  }

  lemma AfterOne(c: Row, z: Row, keys: seq<Order>)
    ensures After([z], c, keys) == if RowLess(c, z, keys) then [z] else []
  {
    assert [z][1..] == [] && After([], c, keys) == [];
  }

  // ---------------------------------------------------------------- one page

  ghost predicate Beyond(q: Query, after: Option<Row>, z: Row) {
    after.Some? ==> RowLess(after.value, z, q.Keys())
  }

  /** A page: the first rows after the cursor, in order, and nothing passed over. */
  ghost predicate PageOk(q: Query, t: Table, after: Option<Row>, page: Page) {
    && PageSound(q, t, after, page)
    && (forall z {:trigger Beyond(q, after, z)} :: Matched(q, t, z) && Beyond(q, after, z) && z !in page.items ==>
          PassedOver(q, page, z))
  }

  ghost predicate PageSound(q: Query, t: Table, after: Option<Row>, page: Page) {
    && Ascending(page.items, q.Keys()) && DistinctIds(page.items)
    && (forall x :: x in page.items ==> Matched(q, t, x) && Beyond(q, after, x))
    && (page.nextCursor.Some? ==> |page.items| > 0 && page.nextCursor.value == page.items[|page.items|-1].id)
  }

  /** The row comes after the page, and another page follows. */
  ghost predicate PassedOver(q: Query, page: Page, z: Row) {
    page.nextCursor.Some? && |page.items| > 0 && RowLess(page.items[|page.items|-1], z, q.Keys())
  }

  /** The first rows of a list, as a page. */
  lemma FirstRowsSound(q: Query, t: Table, after: Option<Row>, l: Table)
    requires q.Ok() && Ascending(l, q.Keys()) && DistinctIds(l)
    requires forall x :: x in l ==> Matched(q, t, x) && Beyond(q, after, x)
    ensures PageSound(q, t, after, PageAfter(l, 0, q.limit))
  {
    var items := PageAfter(l, 0, q.limit).items;
    assert forall i :: 0 <= i < |items| ==> items[i] == l[i];
    forall x | x in items ensures x in l { var i :| 0 <= i < |items| && items[i] == x; assert l[i] == x; }
  }

  lemma FirstRowsComplete(q: Query, l: Table, z: Row)
    requires q.Ok() && Ascending(l, q.Keys()) && z in l && z !in PageAfter(l, 0, q.limit).items
    ensures PassedOver(q, PageAfter(l, 0, q.limit), z)
  {
    var items := PageAfter(l, 0, q.limit).items;
    assert forall i :: 0 <= i < |items| ==> items[i] == l[i] && items[i] != z;
    var m :| 0 <= m < |l| && l[m] == z;
    assert m >= |items|;
  }

  lemma FirstPage(q: Query, t: Table)
    requires q.Ok() && Unique(t)
    ensures List(q, t, None) == PageAfter(q.All(t), 0, q.limit) && PageOk(q, t, None, List(q, t, None))
  {
    PageAt(q, t, 0, None);
    AllOk(q, t);
    FirstRowsSound(q, t, None, q.All(t));
    forall z {:trigger Beyond(q, None, z)} | Matched(q, t, z) && z !in List(q, t, None).items
      ensures PassedOver(q, List(q, t, None), z)
    {
      FirstRowsComplete(q, q.All(t), z);
    }
  }

  /** What a request whose cursor names this row can return: `skip: 1` skips the row itself or,
      if it does not match, the first one behind it. */
  function Behind(q: Query, t: Table, c: Row): Table {
    var l := After(q.All(t), c, q.Keys());
    if Matched(q, t, c) || l == [] then l else l[1..]
  }

  /** The one row such a request skips although it lies behind the cursor's. */
  predicate Skips(q: Query, t: Table, c: Row, z: Row) {
    !Matched(q, t, c) && var l := After(q.All(t), c, q.Keys()); l != [] && l[0] == z
  }

  lemma ListBehind(q: Query, t: Table, c: Row)
    requires q.Ok() && Unique(t) && c in t
    ensures List(q, t, Some(c.id)) == PageAfter(Behind(q, t, c), 0, q.limit)
  {
    if Matched(q, t, c) { FetchedAfterMatch(q, t, c); } else { FetchedAfterMismatch(q, t, c); }
    ListOf(q, t, Some(c.id), Cut(Behind(q, t, c), 0, q.limit + 1));
    PageOfCut(Behind(q, t, c), 0, q.limit);
  }

  lemma BehindOk(q: Query, t: Table, c: Row)
    requires q.Ok() && Unique(t)
    ensures Ascending(Behind(q, t, c), q.Keys()) && DistinctIds(Behind(q, t, c))
    ensures forall z :: z in Behind(q, t, c) ==> Matched(q, t, z) && RowLess(c, z, q.Keys())
    ensures forall z :: Matched(q, t, z) && RowLess(c, z, q.Keys()) ==> z in Behind(q, t, c) || Skips(q, t, c, z)
  {
    AllOk(q, t);
    AfterIn(q.All(t), c, q.Keys());
    var l := After(q.All(t), c, q.Keys());
    if l != [] {
      assert forall i :: 0 <= i < |l[1..]| ==> l[1..][i] == l[i+1];
      assert forall z :: z in l ==> z == l[0] || z in l[1..];
    }
  }

  /** Whether or not its cursor's row still matches, a page is in order and lies behind it. */
  lemma PageBehind(q: Query, t: Table, c: Row)
    requires q.Ok() && Unique(t) && c in t
    ensures PageSound(q, t, Some(c), List(q, t, Some(c.id)))
  {
    ListBehind(q, t, c);
    BehindOk(q, t, c);
    FirstRowsSound(q, t, Some(c), Behind(q, t, c));
  }

  lemma PageMisses(q: Query, t: Table, c: Row, z: Row)
    requires q.Ok() && Unique(t) && c in t && Matched(q, t, z) && RowLess(c, z, q.Keys())
    requires z !in List(q, t, Some(c.id)).items && !Skips(q, t, c, z)
    ensures PassedOver(q, List(q, t, Some(c.id)), z)
  {
    ListBehind(q, t, c);
    BehindOk(q, t, c);
    FirstRowsComplete(q, Behind(q, t, c), z);
  }

  lemma PageFacts(q: Query, t: Table, after: Option<Row>)
    requires q.Ok() && Unique(t) && (after.Some? ==> Matched(q, t, after.value))
    ensures PageOk(q, t, after, List(q, t, if after.Some? then Some(after.value.id) else None))
  {
    if after.Some? {
      var c := after.value;
      PageBehind(q, t, c);
      forall z {:trigger Beyond(q, after, z)} |
        Matched(q, t, z) && Beyond(q, after, z) && z !in List(q, t, Some(c.id)).items
        ensures PassedOver(q, List(q, t, Some(c.id)), z)
      {
        PageMisses(q, t, c, z);
      }
    } else {
      FirstPage(q, t);
    }
  }

  // ---------------------------------------------------------------- a changing table

  /** The pages a client gets when request `i` is answered from table `ts[i]`. */
  ghost predicate IsWalkOver(q: Query, ts: seq<Table>, pages: seq<Page>)
    requires q.Ok()
  {
    && |ts| == |pages| >= 1 && pages[0] == List(q, ts[0], None)
    && (forall i {:trigger Follows(q, ts[i], pages, i)} :: 0 < i < |pages| ==> Follows(q, ts[i], pages, i))
  }

  /** Sort keys never change: rows with one id agree on them, whenever they are read. */
  ghost predicate ImmutableKeys(q: Query, ts: seq<Table>) {
    forall i, j, r, s :: 0 <= i < |ts| && 0 <= j < |ts| && r in ts[i] && s in ts[j] && r.id == s.id ==>
        SameKeys(r, s, q.Keys())
  }

  /** When request `i` is answered, the row its cursor names is still there and still matches. */
  ghost predicate CursorsHold(q: Query, ts: seq<Table>, pages: seq<Page>)
    requires q.Ok() && IsWalkOver(q, ts, pages)
  {
    forall i {:trigger Follows(q, ts[i], pages, i)} :: 0 < i < |pages| ==>
      exists c :: Matched(q, ts[i], c) && pages[i-1].nextCursor == Some(c.id)
  }

  /** The row the cursor of request `i` names when it is answered. */
  function CursorRow(ts: seq<Table>, pages: seq<Page>, i: nat): Option<Row>
    requires i < |ts| == |pages|
  {
    if i == 0 || pages[i-1].nextCursor.None? then None else FindId(ts[i], pages[i-1].nextCursor.value)
  }

  lemma {:induction false} CursorRowIn(q: Query, ts: seq<Table>, pages: seq<Page>, i: nat)
    requires q.Ok() && IsWalkOver(q, ts, pages) && 0 < i < |pages|
    ensures Follows(q, ts[i], pages, i)
    ensures var c := CursorRow(ts, pages, i);
            if c.Some? then c.value in ts[i] && pages[i-1].nextCursor == Some(c.value.id)
            else pages[i] == Page([], None)
  {
    assert Follows(q, ts[i], pages, i);
    FindIdIn(ts[i], pages[i-1].nextCursor.value);
    if CursorRow(ts, pages, i).None? { MissingCursorEndsTheWalk(q, ts[i], pages[i-1].nextCursor.value); }
  }

  lemma {:induction false} PageAtRequest(q: Query, ts: seq<Table>, pages: seq<Page>, i: nat)
    requires q.Ok() && IsWalkOver(q, ts, pages) && i < |pages| && Unique(ts[i])
    ensures PageSound(q, ts[i], CursorRow(ts, pages, i), pages[i])
  {
    if i == 0 {
      FirstPage(q, ts[0]);
    } else {
      CursorRowIn(q, ts, pages, i);
      if CursorRow(ts, pages, i).Some? { PageBehind(q, ts[i], CursorRow(ts, pages, i).value); }
    }
  }

  lemma LastIsGreatest(items: seq<Row>, keys: seq<Order>, x: Row)
    requires Ascending(items, keys) && x in items
    ensures x == items[|items|-1] || RowLess(x, items[|items|-1], keys)
  {
    var k :| 0 <= k < |items| && items[k] == x;
    assert k == |items| - 1 || RowLess(items[k], items[|items|-1], keys);
  }

  /** The last row of the page before request `i`. */
  function LastRow(pages: seq<Page>, i: nat): Row
    requires 0 < i < |pages| && |pages[i-1].items| > 0
  {
    pages[i-1].items[|pages[i-1].items|-1]
  }

  /** The last row of a page and the row the next request's cursor names have the same keys. */
  lemma {:induction false} LastIsCursor(q: Query, ts: seq<Table>, pages: seq<Page>, i: nat)
    requires q.Ok() && IsWalkOver(q, ts, pages) && ImmutableKeys(q, ts) && 0 < i < |pages| && Unique(ts[i-1])
    ensures |pages[i-1].items| > 0 && Matched(q, ts[i-1], LastRow(pages, i))
    ensures CursorRow(ts, pages, i).Some? ==> SameKeys(LastRow(pages, i), CursorRow(ts, pages, i).value, q.Keys())
    ensures forall x :: x in pages[i-1].items ==> x == LastRow(pages, i) || RowLess(x, LastRow(pages, i), q.Keys())
  {
    PageAtRequest(q, ts, pages, i - 1);
    CursorRowIn(q, ts, pages, i);
    var items := pages[i-1].items;
    assert LastRow(pages, i) in items;
    forall x | x in items ensures x == LastRow(pages, i) || RowLess(x, LastRow(pages, i), q.Keys()) {
      LastIsGreatest(items, q.Keys(), x);
    }
  }

  lemma LessThroughSame(x: Row, e: Row, c: Row, y: Row, keys: seq<Order>)
    requires Total(keys) && SameKeys(e, c, keys) && RowLess(c, y, keys) && (x == e || RowLess(x, e, keys))
    ensures RowLess(x, y, keys)
  {
    assert SameKeys(y, y, keys);
    RowLessSame(e, c, y, y, keys);
    TotalOrder(keys, x, e, y);
  }

  lemma KeysTotal(q: Query)
    ensures Total(q.Keys())
  {
    assert q.Keys()[|q.Keys()|-1].col == "id";
  }

  /** A page that returns something lies behind the last row of the page before it. */
  lemma {:induction false} PageBehindLast(q: Query, ts: seq<Table>, pages: seq<Page>, j: nat, y: Row)
    requires q.Ok() && IsWalkOver(q, ts, pages) && ImmutableKeys(q, ts)
    requires 0 < j < |pages| && Unique(ts[j-1]) && Unique(ts[j]) && y in pages[j].items
    ensures |pages[j-1].items| > 0 && RowLess(LastRow(pages, j), y, q.Keys())
  {
    KeysTotal(q);
    PageAtRequest(q, ts, pages, j);
    CursorRowIn(q, ts, pages, j);
    LastIsCursor(q, ts, pages, j);
    var c, e := CursorRow(ts, pages, j).value, LastRow(pages, j);
    assert Beyond(q, Some(c), y);
    LessThroughSame(e, e, c, y, q.Keys());
  }

  /** Rows of earlier pages come before rows of later ones, whatever becomes of the cursors' rows. */
  lemma {:induction false} PagesAscend(q: Query, ts: seq<Table>, pages: seq<Page>, i: nat, j: nat, x: Row, y: Row)
    requires q.Ok() && IsWalkOver(q, ts, pages) && ImmutableKeys(q, ts)
    requires forall k :: 0 <= k < |ts| ==> Unique(ts[k])
    requires i < j < |pages| && x in pages[i].items && y in pages[j].items
    ensures RowLess(x, y, q.Keys())
    decreases j
  {
    PageBehindLast(q, ts, pages, j, y);
    if j - 1 > i {
      PagesAscend(q, ts, pages, i, j - 1, x, LastRow(pages, j));
    } else {
      InPageUpToLast(q, ts, pages, j, x);
    }
    LessThrough(q, x, LastRow(pages, j), y);
  }

  lemma {:induction false} InPageUpToLast(q: Query, ts: seq<Table>, pages: seq<Page>, j: nat, x: Row)
    requires q.Ok() && IsWalkOver(q, ts, pages) && 0 < j < |pages| && Unique(ts[j-1]) && x in pages[j-1].items
    ensures x == LastRow(pages, j) || RowLess(x, LastRow(pages, j), q.Keys())
  {
    PageAtRequest(q, ts, pages, j - 1);
    LastIsGreatest(pages[j-1].items, q.Keys(), x);
  }

  lemma LessThrough(q: Query, x: Row, e: Row, y: Row)
    requires RowLess(e, y, q.Keys()) && (x == e || RowLess(x, e, q.Keys()))
    ensures RowLess(x, y, q.Keys())
  {
    KeysTotal(q);
    TotalOrder(q.Keys(), x, e, y);
  }

  /** Whatever is inserted, changed and deleted between the requests, the walk returns no id twice. */
  lemma {:induction false} NoRepeats(q: Query, ts: seq<Table>, pages: seq<Page>, i: nat, j: nat, a: nat, b: nat)
    requires q.Ok() && IsWalkOver(q, ts, pages) && ImmutableKeys(q, ts)
    requires forall k :: 0 <= k < |ts| ==> Unique(ts[k])
    requires i <= j < |pages| && a < |pages[i].items| && b < |pages[j].items|
    requires pages[i].items[a].id == pages[j].items[b].id
    ensures i == j && a == b
  {
    var x, y := pages[i].items[a], pages[j].items[b];
    PageAtRequest(q, ts, pages, i);
    PageAtRequest(q, ts, pages, j);
    assert x in pages[i].items && y in pages[j].items;
    assert Matched(q, ts[i], x) && Matched(q, ts[j], y);
    assert SameKeys(x, y, q.Keys());
    RowLessOrder(x, y, x, q.Keys());
    if i < j { PagesAscend(q, ts, pages, i, j, x, y); }
  }

  // ------------------------------------------------- sort keys that change

  lemma {:induction false} PlacedLast(r: Row, t: Table, keys: seq<Order>)
    requires Total(keys) && forall i :: 0 <= i < |t| ==> RowLess(t[i], r, keys)
    ensures Placed(r, t, keys) == t + [r]
  {
    if t != [] {
      assert RowLess(t[0], r, keys);
      TotalOrder(keys, r, t[0], r);
      TotalOrder(keys, r, r, r);
      PlacedLast(r, t[1..], keys);
      assert [t[0]] + (t[1..] + [r]) == t + [r];
    }
  }

  lemma {:induction false} SortedSame(t: Table, keys: seq<Order>)
    requires Total(keys) && Ascending(t, keys)
    ensures Sorted(t, keys) == t
  {
    if t != [] {
      var front := t[..|t|-1];
      assert forall i :: 0 <= i < |front| ==> front[i] == t[i];
      SortedSame(front, keys);
      PlacedLast(t[|t|-1], front, keys);
      assert t == front + [t[|t|-1]];
    }
  }

  lemma {:induction false} MatchingSame(w: Option<Where>, t: Table)
    requires forall r :: r in t ==> Hit(w, r)
    ensures Matching(w, t) == t
  {
    if t != [] {
      assert t[0] in t;
      MatchingSame(w, t[1..]);
      assert [t[0]] + t[1..] == t;
    }
  }

  /** The list of audits sorted by their status, as its position in the enumeration. */
  const ByStatus := Query("a", None, Some("status"), ["createdAt", "url", "status"], NewestFirst, 1)

  function Audit(id: Id, status: int): Row {
    Row(id, "a", None, map["status" := Num(status)])
  }

  lemma StatusOrder(a: Row, b: Row, x: int, y: int)
    requires "status" in a.cols && a.cols["status"] == Num(x) && "status" in b.cols && b.cols["status"] == Num(y)
    requires x < y
    ensures RowLess(a, b, ByStatus.Keys())
  {
    var k := ByStatus.Keys();
    assert k[0] == Order("status", false) by {
      assert "status"[0] != '-';
      assert ["createdAt", "url", "status"][2] == "status";
    }
    assert Cell(a, "status") == Num(x) && Cell(b, "status") == Num(y);
  }

  /** Three audits, each of a later status than the one before. */
  lemma InStatusOrder(i: Id, x: int, j: Id, y: int, k: Id, z: int)
    requires i != j && j != k && i != k && x < y < z
    ensures var t := [Audit(i, x), Audit(j, y), Audit(k, z)];
            ByStatus.All(t) == t && Unique(t)
  {
    var t := [Audit(i, x), Audit(j, y), Audit(k, z)];
    KeysTotal(ByStatus);
    StatusOrder(t[0], t[1], x, y);
    StatusOrder(t[0], t[2], x, z);
    StatusOrder(t[1], t[2], y, z);
    assert t[1..] == [t[1], t[2]] && t[1..][1..] == [t[2]] && [t[2]][1..] == [];
    assert Unique([t[2]]) && Unique(t[1..]);
    MatchingSame(Some(ScopedWhere(None, "a")), t);
    SortedSame(t, ByStatus.Keys());
  }

  /** Pages of one row. */
  lemma OneRowPage(q: Query, t: Table, k: nat, cursor: Option<Id>)
    requires q.Ok() && q.limit == 1 && Unique(t) && q.All(t) == t && k + 1 < |t|
    requires if k == 0 then cursor == None else cursor == Some(t[k-1].id)
    ensures List(q, t, cursor) == Page([t[k]], Some(t[k].id))
  {
    PageAt(q, t, k, cursor);
  }

  lemma {:induction false} ThreeRequests(q: Query, t: Table, later: Table, a: Page, b: Page, c: Page)
    requires q.Ok() && a == List(q, t, None) && a.nextCursor.Some? && b == List(q, t, a.nextCursor)
    requires b.nextCursor.Some? && c == List(q, later, b.nextCursor)
    ensures IsWalkOver(q, [t, t, later], [a, b, c])
  {
    var ts, pages := [t, t, later], [a, b, c];
    assert Follows(q, ts[1], pages, 1) && Follows(q, ts[2], pages, 2);
  }

  /** Keys that change are another matter: audits may be sorted by their status, and one that
      is completed between the second and the third request is returned twice. */
  lemma RepeatWitness()
    ensures var t := [Audit(3, 0), Audit(2, 1), Audit(1, 3)];
            var later := [Audit(2, 1), Audit(3, 2), Audit(1, 3)];
            var pages := [Page([Audit(3, 0)], Some(3)), Page([Audit(2, 1)], Some(2)), Page([Audit(3, 2)], Some(3))];
            Unique(t) && Unique(later) && IsWalkOver(ByStatus, [t, t, later], pages)
  {
    var t := [Audit(3, 0), Audit(2, 1), Audit(1, 3)];
    var later := [Audit(2, 1), Audit(3, 2), Audit(1, 3)];
    InStatusOrder(3, 0, 2, 1, 1, 3);
    InStatusOrder(2, 1, 3, 2, 1, 3);
    OneRowPage(ByStatus, t, 0, None);
    OneRowPage(ByStatus, t, 1, Some(3));
    OneRowPage(ByStatus, later, 1, Some(2));
    ThreeRequests(ByStatus, t, later, List(ByStatus, t, None), List(ByStatus, t, Some(3)),
                  List(ByStatus, later, Some(2)));
  }

  // ---------------------------------------------------------------- what a walk misses

  predicate Returned(pages: seq<Page>, id: Id) {
    exists i, r :: 0 <= i < |pages| && r in pages[i].items && r.id == id
  }

  /** The row matched at every request. */
  ghost predicate MatchedThroughout(q: Query, ts: seq<Table>, rows: seq<Row>, id: Id) {
    |rows| == |ts| && forall i :: 0 <= i < |ts| ==> Matched(q, ts[i], rows[i]) && rows[i].id == id
  }

  /** Request `i` leaves this row out although it lies behind the pages so far: its cursor's row
      is gone, or no longer matches and the row is the first behind it. */
  ghost predicate LeavesOut(q: Query, ts: seq<Table>, pages: seq<Page>, i: nat, z: Row)
    requires q.Ok() && IsWalkOver(q, ts, pages) && 0 < i < |pages|
  {
    var c := CursorRow(ts, pages, i);
    if c.Some? then Skips(q, ts[i], c.value, z) else PassedOver(q, pages[i-1], z)
  }

  /** What the walk results need of a walk and of a row that matched throughout it. */
  ghost predicate Watched(q: Query, ts: seq<Table>, pages: seq<Page>, rows: seq<Row>, id: Id) {
    && q.Ok() && IsWalkOver(q, ts, pages) && ImmutableKeys(q, ts) && MatchedThroughout(q, ts, rows, id)
    && forall k :: 0 <= k < |ts| ==> Unique(ts[k])
  }

  lemma {:induction false} SameThroughout(q: Query, ts: seq<Table>, pages: seq<Page>, rows: seq<Row>, id: Id,
                                          i: nat, j: nat)
    requires Watched(q, ts, pages, rows, id) && i < |pages| && j < |pages|
    ensures SameKeys(rows[i], rows[j], q.Keys()) && !RowLess(rows[i], rows[j], q.Keys())
  {
    KeysTotal(q);
    assert Matched(q, ts[i], rows[i]) && Matched(q, ts[j], rows[j]);
    RowLessOrder(rows[i], rows[i], rows[i], q.Keys());
    RowLessSame(rows[i], rows[i], rows[i], rows[j], q.Keys());
  }

  lemma {:induction false} StepAhead(q: Query, ts: seq<Table>, pages: seq<Page>, rows: seq<Row>, id: Id, i: nat)
    requires Watched(q, ts, pages, rows, id) && i < |pages| && rows[i] !in pages[i].items
    requires i > 0 ==> PassedOver(q, pages[i-1], rows[i-1]) && !LeavesOut(q, ts, pages, i, rows[i])
    ensures PassedOver(q, pages[i], rows[i])
  {
    if i == 0 {
      FirstPage(q, ts[0]);
      assert Beyond(q, None, rows[0]);
    } else {
      LastIsCursor(q, ts, pages, i);
      CursorRowIn(q, ts, pages, i);
      SameThroughout(q, ts, pages, rows, id, i - 1, i);
      var e := LastRow(pages, i);
      assert SameKeys(e, e, q.Keys());
      RowLessSame(e, e, rows[i-1], rows[i], q.Keys());
      var c := CursorRow(ts, pages, i).value;
      RowLessSame(e, c, rows[i], rows[i], q.Keys());
      PageMisses(q, ts[i], c, rows[i]);
    }
  }

  lemma {:induction false} StaysAhead(q: Query, ts: seq<Table>, pages: seq<Page>, rows: seq<Row>, id: Id, i: nat)
    requires Watched(q, ts, pages, rows, id) && !Returned(pages, id) && i < |pages|
    requires forall k {:trigger LeavesOut(q, ts, pages, k, rows[k])} ::
               0 < k < |pages| ==> !LeavesOut(q, ts, pages, k, rows[k])
    ensures PassedOver(q, pages[i], rows[i])
    decreases i
  {
    if i > 0 { StaysAhead(q, ts, pages, rows, id, i - 1); }
    assert rows[i] !in pages[i].items;
    StepAhead(q, ts, pages, rows, id, i);
  }

  lemma {:induction false} UpToLast(q: Query, ts: seq<Table>, pages: seq<Page>, h: nat, i: nat, x: Row)
    requires q.Ok() && IsWalkOver(q, ts, pages) && ImmutableKeys(q, ts)
    requires forall k :: 0 <= k < |ts| ==> Unique(ts[k])
    requires h < i < |pages| && x in pages[h].items
    ensures |pages[i-1].items| > 0 && (x == LastRow(pages, i) || RowLess(x, LastRow(pages, i), q.Keys()))
  {
    LastIsCursor(q, ts, pages, i);
    if h < i - 1 { PagesAscend(q, ts, pages, h, i - 1, x, LastRow(pages, i)); }
  }

  /** A row that an earlier page returned does not lie behind the last one. */
  lemma {:induction false} NotBehindLast(q: Query, ts: seq<Table>, pages: seq<Page>, rows: seq<Row>, id: Id,
                                         h: nat, i: nat)
    requires Watched(q, ts, pages, rows, id) && h < i < |pages| && rows[h] in pages[h].items
    ensures |pages[i-1].items| > 0 && !RowLess(LastRow(pages, i), rows[i], q.Keys())
  {
    KeysTotal(q);
    UpToLast(q, ts, pages, h, i, rows[h]);
    SameThroughout(q, ts, pages, rows, id, h, i);
    NotPast(rows[h], LastRow(pages, i), rows[i], q.Keys());
  }

  lemma NotSkipped(q: Query, t: Table, c: Row, z: Row)
    requires Unique(t) && !RowLess(c, z, q.Keys())
    ensures !Skips(q, t, c, z)
  {
    AllOk(q, t);
    AfterIn(q.All(t), c, q.Keys());
    assert z !in After(q.All(t), c, q.Keys());
  }

  /** So it is not left out. */
  lemma {:induction false} NotOutAfter(q: Query, ts: seq<Table>, pages: seq<Page>, rows: seq<Row>, id: Id,
                                       h: nat, i: nat)
    requires Watched(q, ts, pages, rows, id) && h < i < |pages| && rows[h] in pages[h].items
    ensures !LeavesOut(q, ts, pages, i, rows[i])
  {
    NotBehindLast(q, ts, pages, rows, id, h, i);
    var c := CursorRow(ts, pages, i);
    if c.Some? {
      LastIsCursor(q, ts, pages, i);
      KeysTotal(q);
      assert SameKeys(rows[i], rows[i], q.Keys());
      RowLessSame(LastRow(pages, i), c.value, rows[i], rows[i], q.Keys());
      NotSkipped(q, ts[i], c.value, rows[i]);
    }
  }

  lemma NotPast(x: Row, e: Row, z: Row, keys: seq<Order>)
    requires Total(keys) && SameKeys(x, z, keys) && !RowLess(x, z, keys) && (x == e || RowLess(x, e, keys))
    ensures !RowLess(e, z, keys)
  {
    TotalOrder(keys, x, e, z);
  }

  /** Nor is a row that the same or a later page returns. */
  lemma {:induction false} NotOutBefore(q: Query, ts: seq<Table>, pages: seq<Page>, rows: seq<Row>, id: Id,
                                        i: nat, h: nat)
    requires Watched(q, ts, pages, rows, id) && 0 < i <= h < |pages| && rows[h] in pages[h].items
    ensures !LeavesOut(q, ts, pages, i, rows[i])
  {
    KeysTotal(q);
    CursorRowIn(q, ts, pages, i);
    if h > i { LastIsCursor(q, ts, pages, i + 1); }
    var x := if h == i then rows[h] else pages[i].items[0];
    assert x in pages[i].items;
    if h > i { PagesAscend(q, ts, pages, i, h, x, rows[h]); }
    SameThroughout(q, ts, pages, rows, id, i, h);
    var c := CursorRow(ts, pages, i).value;
    if Skips(q, ts[i], c, rows[i]) {
      SkippedIsBefore(q, ts[i], c, rows[i], x);
      TotalOrder(q.Keys(), rows[i], x, rows[h]);
    }
  }

  /** The row a request skips comes before all it returns. */
  lemma SkippedIsBefore(q: Query, t: Table, c: Row, z: Row, x: Row)
    requires q.Ok() && Unique(t) && c in t && Skips(q, t, c, z) && x in List(q, t, Some(c.id)).items
    ensures RowLess(z, x, q.Keys())
  {
    ListBehind(q, t, c);
    AllOk(q, t);
    AfterIn(q.All(t), c, q.Keys());
    var l := After(q.All(t), c, q.Keys());
    var k :| 0 <= k < |Behind(q, t, c)| && Behind(q, t, c)[k] == x;
    assert l[k+1] == x;
  }

  /** A finished walk over a changing table returns a row that matched throughout, unless some
      request left it out, and only then misses it. */
  lemma {:induction false} ReturnedIff(q: Query, ts: seq<Table>, pages: seq<Page>, rows: seq<Row>, id: Id)
    requires Watched(q, ts, pages, rows, id) && Finished(pages)
    ensures Returned(pages, id) <==>
            forall i {:trigger LeavesOut(q, ts, pages, i, rows[i])} ::
              0 < i < |pages| ==> !LeavesOut(q, ts, pages, i, rows[i])
  {
    if Returned(pages, id) {
      var h, r :| 0 <= h < |pages| && r in pages[h].items && r.id == id;
      PageAtRequest(q, ts, pages, h);
      OneOfId(ts[h], r, rows[h]);
      forall i {:trigger LeavesOut(q, ts, pages, i, rows[i])} | 0 < i < |pages|
        ensures !LeavesOut(q, ts, pages, i, rows[i])
      {
        if h < i { NotOutAfter(q, ts, pages, rows, id, h, i); } else { NotOutBefore(q, ts, pages, rows, id, i, h); }
      }
    } else if forall i {:trigger LeavesOut(q, ts, pages, i, rows[i])} ::
                0 < i < |pages| ==> !LeavesOut(q, ts, pages, i, rows[i]) {
      StaysAhead(q, ts, pages, rows, id, |pages| - 1);
    }
  }

  lemma OneOfId(t: Table, a: Row, b: Row)
    requires Unique(t) && a in t && b in t && a.id == b.id
    ensures a == b
  {
    UniqueDistinct(t);
    FindIdIs(t, a);
    FindIdIs(t, b);
  }

  /** A finished walk whose cursors' rows all still match misses no row that matched throughout. */
  lemma {:induction false} NoneMissed(q: Query, ts: seq<Table>, pages: seq<Page>, rows: seq<Row>, id: Id)
    requires Watched(q, ts, pages, rows, id) && CursorsHold(q, ts, pages) && Finished(pages)
    ensures Returned(pages, id)
  {
    forall i {:trigger LeavesOut(q, ts, pages, i, rows[i])} | 0 < i < |pages|
      ensures !LeavesOut(q, ts, pages, i, rows[i])
    {
      CursorRowIn(q, ts, pages, i);
      var c :| Matched(q, ts[i], c) && pages[i-1].nextCursor == Some(c.id);
      UniqueDistinct(ts[i]);
      FindIdIs(ts[i], c);
    }
    ReturnedIff(q, ts, pages, rows, id);
  }

  // ---------------------------------------------------------------- whose rows a page shows

  lemma {:induction false} PlacedIn(r: Row, t: Table, keys: seq<Order>)
    ensures forall x :: x in Placed(r, t, keys) ==> x == r || x in t
  {
    if t != [] { PlacedIn(r, t[1..], keys); }
  }

  lemma {:induction false} SortedIn(t: Table, keys: seq<Order>)
    ensures forall x :: x in Sorted(t, keys) ==> x in t
  {
    if t != [] {
      SortedIn(t[..|t|-1], keys);
      PlacedIn(t[|t|-1], Sorted(t[..|t|-1], keys), keys);
    }
  }

  lemma {:induction false} NotBeforeIn(t: Table, c: Row, keys: seq<Order>)
    ensures forall x :: x in NotBefore(t, c, keys) ==> x in t
  {
    if t != [] { NotBeforeIn(t[1..], c, keys); }
  }

  lemma SkipTakeIn(rows: Table, skip: nat, take: Option<nat>)
    ensures forall x :: x in SkipTake(rows, skip, take) ==> x in rows
  {}

  lemma FromIn(sorted: Table, t: Table, cursor: Option<Id>, keys: seq<Order>)
    ensures forall x :: x in From(sorted, t, cursor, keys) ==> x in sorted
  {
    if cursor.Some? && FindId(t, cursor.value).Some? { NotBeforeIn(sorted, FindId(t, cursor.value).value, keys); }
  }

  /** Whatever the table and whatever the cursor names, a page shows only matching rows of the
      tenant that are in the table. */
  lemma PageMatches(q: Query, t: Table, cursor: Option<Id>)
    requires q.Ok()
    ensures forall r :: r in List(q, t, cursor).items ==> Matched(q, t, r) && r.tenantId == q.tenant
  {
    var m := Matching(Some(ScopedWhere(q.where, q.tenant)), t);
    MatchingIn(Some(ScopedWhere(q.where, q.tenant)), t);
    SortedIn(m, q.Keys());
    FromIn(Sorted(m, q.Keys()), t, cursor, q.Keys());
    SkipTakeIn(From(Sorted(m, q.Keys()), t, cursor, q.Keys()), if cursor.Some? then 1 else 0, Some(q.limit + 1));
    assert forall r :: r in List(q, t, cursor).items ==> r in Fetched(q, t, cursor);
  }

  // ---------------------------------------------------------------- the endpoints

  const NewestFirst := Order("createdAt", true)

  function Search(col: string, search: Option<string>): seq<Cond> {
    if search.Some? && search.value != "" then [OnCol(col, Contains(search.value))] else []
  }

  /** The column holds the searched text, in either case of its letters; an empty search finds all. */
  predicate Found(r: Row, col: string, search: Option<string>) {
    search.Some? && search.value != "" ==>
      col in r.cols && r.cols[col].Text? && ContainsIgnoringCase(r.cols[col].s, search.value)
  }

  /** The list of a model that is searched by one column. */
  function SearchQuery(tenant: Tenant, col: string, allowed: seq<string>, search: Option<string>, sort: Option<string>,
                       limit: nat): Query {
    Query(tenant, Some(Where(None, Search(col, search))), sort, allowed, NewestFirst, limit)
  }

  function FilesQuery(tenant: Tenant, search: Option<string>, sort: Option<string>, limit: nat): Query {
    SearchQuery(tenant, "filename", ["createdAt", "filename", "size"], search, sort, limit)
  }

  function AuditsQuery(tenant: Tenant, search: Option<string>, sort: Option<string>, limit: nat): Query {
    SearchQuery(tenant, "url", ["createdAt", "url", "status"], search, sort, limit)
  }

  function NotificationsQuery(tenant: Tenant, userId: string, unreadOnly: bool, search: Option<string>,
                              sort: Option<string>, limit: nat): Query {
    var conds := [OnCol("userId", Equals(Text(userId)))]
      + (if unreadOnly then [OnCol("readAt", Equals(Null))] else [])
      + (if search.Some? && search.value != ""
         then [Or([Where(None, Search("title", search)), Where(None, Search("body", search))])] else []);
    Query(tenant, Some(Where(None, conds)), sort, ["createdAt"], NewestFirst, limit)
  }

  lemma SearchMatches(q: Query, tenant: Tenant, col: string, search: Option<string>, t: Table, r: Row)
    requires q.tenant == tenant && q.where == Some(Where(None, Search(col, search)))
    ensures Matched(q, t, r) <==> r in t && r.tenantId == tenant && Found(r, col, search)
  {
    var w := ScopedWhere(q.where, tenant);
    if search.Some? && search.value != "" {
      assert w.conds == [OnCol(col, Contains(search.value))];
      assert Holds(w.conds[0], r) <==> Found(r, col, search);
      assert forall c | c in w.conds :: c == w.conds[0];
    }
  }

  /** A finished walk over a searched list returns exactly the tenant's rows that are found,
      each once, by an allowed column or newest first. */
  lemma {:induction false} SearchWalk(q: Query, tenant: Tenant, col: string, allowed: seq<string>,
                                      search: Option<string>, t: Table, pages: seq<Page>)
    requires q.Ok() && Unique(t) && IsWalk(q, t, pages) && Finished(pages)
    requires q == SearchQuery(tenant, col, allowed, search, q.sort, q.limit)
    ensures forall r :: r in Items(pages) <==> r in t && r.tenantId == tenant && Found(r, col, search)
    ensures Ascending(Items(pages), q.Keys()) && DistinctIds(Items(pages))
    ensures q.Keys()[0] == Order("createdAt", true) || q.Keys()[0].col in allowed
  {
    FinishedWalkIsWhole(q, t, pages);
    AllOk(q, t);
    forall r ensures r in Items(pages) <==> r in t && r.tenantId == tenant && Found(r, col, search) {
      SearchMatches(q, tenant, col, search, t, r);
    }
    SortStaysAllowed(q.sort, allowed, NewestFirst);
  }

  lemma {:induction false} FilesWalk(tenant: Tenant, search: Option<string>, sort: Option<string>, limit: nat,
                                     t: Table, pages: seq<Page>)
    requires tenant != "" && limit >= 1 && Unique(t)
    requires IsWalk(FilesQuery(tenant, search, sort, limit), t, pages) && Finished(pages)
    ensures forall r :: r in Items(pages) <==> r in t && r.tenantId == tenant && Found(r, "filename", search)
    ensures var first := FilesQuery(tenant, search, sort, limit).Keys()[0];
            first == Order("createdAt", true) || first.col in {"createdAt", "filename", "size"}
  {
    SearchWalk(FilesQuery(tenant, search, sort, limit), tenant, "filename", ["createdAt", "filename", "size"], search,
      t, pages);
  }

  lemma {:induction false} AuditsWalk(tenant: Tenant, search: Option<string>, sort: Option<string>, limit: nat,
                                      t: Table, pages: seq<Page>)
    requires tenant != "" && limit >= 1 && Unique(t)
    requires IsWalk(AuditsQuery(tenant, search, sort, limit), t, pages) && Finished(pages)
    ensures forall r :: r in Items(pages) <==> r in t && r.tenantId == tenant && Found(r, "url", search)
    ensures var first := AuditsQuery(tenant, search, sort, limit).Keys()[0];
            first == Order("createdAt", true) || first.col in {"createdAt", "url", "status"}
  {
    SearchWalk(AuditsQuery(tenant, search, sort, limit), tenant, "url", ["createdAt", "url", "status"], search, t,
      pages);
  }

  /** A notification of this user, unread if only those are asked for, with the searched text
      in its title or body. */
  predicate Notified(r: Row, userId: string, unreadOnly: bool, search: Option<string>) {
    && "userId" in r.cols && r.cols["userId"] == Text(userId)
    && (unreadOnly ==> "readAt" !in r.cols || r.cols["readAt"] == Null)
    && (Found(r, "title", search) || Found(r, "body", search))
  }

  lemma SearchIn(col: string, search: Option<string>, r: Row)
    ensures Matches(Where(None, Search(col, search)), r) <==> Found(r, col, search)
  {
    var w := Where(None, Search(col, search));
    if search.Some? && search.value != "" {
      assert w.conds[0] == OnCol(col, Contains(search.value));
      assert Holds(w.conds[0], r) <==> Found(r, col, search);
    }
  }

  lemma {:induction false} NotificationConds(tenant: Tenant, userId: string, unreadOnly: bool, search: Option<string>,
                                             sort: Option<string>, limit: nat, r: Row)
    ensures var w := NotificationsQuery(tenant, userId, unreadOnly, search, sort, limit).where.value;
            (forall c :: c in w.conds ==> Holds(c, r)) <==> Notified(r, userId, unreadOnly, search)
  {
    var w := NotificationsQuery(tenant, userId, unreadOnly, search, sort, limit).where.value;
    var owned, unread := OnCol("userId", Equals(Text(userId))), OnCol("readAt", Equals(Null));
    var title, body := Where(None, Search("title", search)), Where(None, Search("body", search));
    var found := Or([title, body]);
    SearchIn("title", search, r);
    SearchIn("body", search, r);
    assert Holds(found, r) <==> Found(r, "title", search) || Found(r, "body", search) by {
      assert [title, body][0] == title && [title, body][1] == body;
    }
    var active := search.Some? && search.value != "";
    var mine, late := [owned], if unreadOnly then [unread] else [];
    var seek := if active then [found] else [];
    assert w.conds == mine + late + seek;
    assert forall c :: c in w.conds <==> c == owned || (unreadOnly && c == unread) || (active && c == found);
    assert Holds(owned, r) <==> "userId" in r.cols && r.cols["userId"] == Text(userId);
    assert Holds(unread, r) <==> "readAt" !in r.cols || r.cols["readAt"] == Null;
  }

  /** What the query asks for is a notification of this user, and nothing else is asked. */
  lemma NotificationMatches(tenant: Tenant, userId: string, unreadOnly: bool, search: Option<string>,
                            sort: Option<string>, limit: nat, t: Table, r: Row)
    ensures Matched(NotificationsQuery(tenant, userId, unreadOnly, search, sort, limit), t, r)
            <==> r in t && r.tenantId == tenant && Notified(r, userId, unreadOnly, search)
  {
    NotificationConds(tenant, userId, unreadOnly, search, sort, limit, r);
  }

  lemma NotificationKeys(tenant: Tenant, userId: string, unreadOnly: bool, search: Option<string>,
                         sort: Option<string>, limit: nat)
    ensures var first := NotificationsQuery(tenant, userId, unreadOnly, search, sort, limit).Keys()[0];
            first == Order("createdAt", true) || first.col == "createdAt"
  {
    SortStaysAllowed(sort, ["createdAt"], NewestFirst);
  }

  /** A finished walk returns the matching rows, each once. */
  lemma {:induction false} WalkMatches(q: Query, t: Table, pages: seq<Page>)
    requires q.Ok() && Unique(t) && IsWalk(q, t, pages) && Finished(pages)
    ensures DistinctIds(Items(pages)) && forall r :: r in Items(pages) <==> Matched(q, t, r)
  {
    FinishedWalkIsWhole(q, t, pages);
    AllOk(q, t);
  }

  /** A finished walk returns exactly the notifications of this user, each once. */
  lemma {:induction false} NotificationsWalk(tenant: Tenant, userId: string, unreadOnly: bool, search: Option<string>,
                                             sort: Option<string>, limit: nat, t: Table, pages: seq<Page>)
    requires tenant != "" && limit >= 1 && Unique(t)
    requires IsWalk(NotificationsQuery(tenant, userId, unreadOnly, search, sort, limit), t, pages) && Finished(pages)
    ensures forall r :: r in Items(pages) <==>
              r in t && r.tenantId == tenant && Notified(r, userId, unreadOnly, search)
    ensures DistinctIds(Items(pages))
    ensures var first := NotificationsQuery(tenant, userId, unreadOnly, search, sort, limit).Keys()[0];
            first == Order("createdAt", true) || first.col == "createdAt"
  {
    WalkMatches(NotificationsQuery(tenant, userId, unreadOnly, search, sort, limit), t, pages);
    NotificationKeys(tenant, userId, unreadOnly, search, sort, limit);
    forall r ensures r in Items(pages) <==>
        r in t && r.tenantId == tenant && Notified(r, userId, unreadOnly, search) {
      NotificationMatches(tenant, userId, unreadOnly, search, sort, limit, t, r);
    }
  }

  /** Every page of a user's notifications, on any table and for any cursor, even another
      user's or a stale one, shows rows of that user and tenant only. */
  lemma NotificationsAreOwn(tenant: Tenant, userId: string, unreadOnly: bool, search: Option<string>,
                            sort: Option<string>, limit: nat, t: Table, cursor: Option<Id>, r: Row)
    requires tenant != "" && limit >= 1
    requires r in List(NotificationsQuery(tenant, userId, unreadOnly, search, sort, limit), t, cursor).items
    ensures r in t && r.tenantId == tenant && Notified(r, userId, unreadOnly, search)
  {
    PageMatches(NotificationsQuery(tenant, userId, unreadOnly, search, sort, limit), t, cursor);
    NotificationMatches(tenant, userId, unreadOnly, search, sort, limit, t, r);
  }

  /** So does every walk, finished or not, while the table changes between its requests. */
  lemma {:induction false} NotificationWalksAreOwn(tenant: Tenant, userId: string, unreadOnly: bool,
                                                   search: Option<string>, sort: Option<string>, limit: nat,
                                                   ts: seq<Table>, pages: seq<Page>, i: nat, r: Row)
    requires tenant != "" && limit >= 1
    requires IsWalkOver(NotificationsQuery(tenant, userId, unreadOnly, search, sort, limit), ts, pages)
    requires i < |pages| && r in pages[i].items
    ensures r in ts[i] && r.tenantId == tenant && Notified(r, userId, unreadOnly, search)
  {
    var q := NotificationsQuery(tenant, userId, unreadOnly, search, sort, limit);
    if i > 0 { assert Follows(q, ts[i], pages, i); }
    NotificationsAreOwn(tenant, userId, unreadOnly, search, sort, limit, ts[i],
                        if i > 0 then pages[i-1].nextCursor else None, r);
  }
}
