/** Cursor pagination: the order built from a `sort` parameter, and the walk over the pages of
    the three list endpoints. */
module Pagination {
  import opened Wrappers
  import opened TenantScope

  // ---------------------------------------------------------------- parseSort

  /** An absent or empty parameter, or a field that is not allowed, falls back; `id` breaks ties. */
  function ParseSort(sort: Option<string>, allowed: seq<string>, fallback: Order): seq<Order> {
    var descending := sort.Some? && sort.value != "" && sort.value[0] == '-';
    var requested := if descending then sort.value[1..] else if sort.Some? then sort.value else "";
    var chosen :=
      if sort.Some? && sort.value != "" && requested in allowed then Order(requested, descending) else fallback;
    if chosen.col == "id" then [chosen] else [chosen, Order("id", true)]
  }

  /** A caller sorts by an allowed column, in the direction the prefix gives, or else as the
      endpoint does by default; the id comes last and decides ties, newest first. */
  lemma SortStaysAllowed(sort: Option<string>, allowed: seq<string>, fallback: Order)
    ensures var keys := ParseSort(sort, allowed, fallback);
            && (keys[0] == fallback || (sort.Some? && keys[0].col in allowed
                  && sort.value == (if keys[0].descending then "-" else "") + keys[0].col))
            && keys[|keys|-1].col == "id" && (forall i, j :: 0 <= i < j < |keys| ==> keys[i].col != keys[j].col)
            && (|keys| > 1 ==> keys[1] == Order("id", true))
    ensures forall f, d :: f in allowed && f != "" && f[0] != '-' && sort == Some((if d then "-" else "") + f) ==>
              ParseSort(sort, allowed, fallback)[0] == Order(f, d)
  {
    if sort.Some? && sort.value != "" && sort.value[0] == '-' { assert sort.value == "-" + sort.value[1..]; }
    forall f, d | f in allowed && f != "" && f[0] != '-' && sort == Some((if d then "-" else "") + f)
      ensures ParseSort(sort, allowed, fallback)[0] == Order(f, d)
    {
      if d { assert sort.value[1..] == f; } else { assert sort.value == f; }
    }
  }

  // ---------------------------------------------------------------- a strict total order

  lemma TextLessOrder(a: string, b: string, c: string)
    ensures !TextLess(a, a)
    ensures a == b || TextLess(a, b) || TextLess(b, a)
    ensures TextLess(a, b) && TextLess(b, c) ==> TextLess(a, c)
  {
    if a != "" && b != "" && c != "" {
      TextLessOrder(a[1..], b[1..], c[1..]);
      assert a == [a[0]] + a[1..] && b == [b[0]] + b[1..];
    } else if a != "" && b != "" {
      TextLessOrder(a[1..], b[1..], "");
      assert a == [a[0]] + a[1..] && b == [b[0]] + b[1..];
    } else if a != "" {
      TextLessOrder(a[1..], "", "");
    }
  }

  lemma ValueLessOrder(a: Value, b: Value, c: Value)
    ensures !ValueLess(a, a)
    ensures a == b || ValueLess(a, b) || ValueLess(b, a)
    ensures ValueLess(a, b) && ValueLess(b, c) ==> ValueLess(a, c)
  {
    var x := if a.Text? then a.s else "";
    var y := if b.Text? then b.s else "";
    var z := if c.Text? then c.s else "";
    TextLessOrder(x, y, z);
  }

  /** The rows agree on every sort key. */
  predicate SameKeys(a: Row, b: Row, keys: seq<Order>) {
    forall i :: 0 <= i < |keys| ==> Cell(a, keys[i].col) == Cell(b, keys[i].col)
  }

  lemma {:induction false} RowLessOrder(a: Row, b: Row, c: Row, keys: seq<Order>)
    ensures !RowLess(a, a, keys)
    ensures SameKeys(a, b, keys) <==> !RowLess(a, b, keys) && !RowLess(b, a, keys)
    ensures RowLess(a, b, keys) && RowLess(b, c, keys) ==> RowLess(a, c, keys)
    decreases |keys|
  {
    if keys != [] {
      RowLessOrder(a, b, c, keys[1..]);
      var x, y, z := Cell(a, keys[0].col), Cell(b, keys[0].col), Cell(c, keys[0].col);
      ValueLessOrder(x, y, z);
      ValueLessOrder(z, y, x);
      ValueLessOrder(y, x, y);
      assert SameKeys(a, b, keys) <==> x == y && SameKeys(a, b, keys[1..]) by {
        if x == y && SameKeys(a, b, keys[1..]) {
          forall i | 0 <= i < |keys| ensures Cell(a, keys[i].col) == Cell(b, keys[i].col) {
            if i > 0 { assert keys[i] == keys[1..][i-1]; }
          }
        }
        if SameKeys(a, b, keys) {
          forall i | 0 <= i < |keys[1..]| ensures Cell(a, keys[1..][i].col) == Cell(b, keys[1..][i].col) {
            assert keys[1..][i] == keys[i+1];
          }
        }
      }
    }
  }

  lemma {:induction false} RowLessSame(a: Row, a': Row, b: Row, b': Row, keys: seq<Order>)
    requires SameKeys(a, a', keys) && SameKeys(b, b', keys)
    ensures RowLess(a, b, keys) == RowLess(a', b', keys)
    decreases |keys|
  {
    if keys != [] {
      assert keys[0] in keys;
      forall i | 0 <= i < |keys[1..]|
        ensures Cell(a, keys[1..][i].col) == Cell(a', keys[1..][i].col) &&
          Cell(b, keys[1..][i].col) == Cell(b', keys[1..][i].col)
      {
        assert keys[1..][i] == keys[i+1];
      }
      RowLessSame(a, a', b, b', keys[1..]);
    }
  }

  /** Whatever the sort string, the order is strict and total on rows with distinct ids. */
  lemma SortIsStrictTotal(sort: Option<string>, allowed: seq<string>, fallback: Order, a: Row, b: Row, c: Row)
    ensures var keys := ParseSort(sort, allowed, fallback);
            && !RowLess(a, a, keys)
            && (RowLess(a, b, keys) && RowLess(b, c, keys) ==> RowLess(a, c, keys))
            && (a.id != b.id ==> RowLess(a, b, keys) || RowLess(b, a, keys))
            && (RowLess(a, b, keys) ==> !RowLess(b, a, keys))
  {
    var keys := ParseSort(sort, allowed, fallback);
    RowLessOrder(a, b, c, keys);
    RowLessOrder(a, b, a, keys);
    assert keys[|keys|-1].col == "id";
  }

  predicate Total(keys: seq<Order>) {
    exists i :: 0 <= i < |keys| && keys[i].col == "id"
  }

  lemma TotalOrder(keys: seq<Order>, a: Row, b: Row, c: Row)
    requires Total(keys)
    ensures !RowLess(a, a, keys)
    ensures RowLess(a, b, keys) && RowLess(b, c, keys) ==> RowLess(a, c, keys)
    ensures a.id != b.id ==> RowLess(a, b, keys) || RowLess(b, a, keys)
    ensures RowLess(a, b, keys) ==> !RowLess(b, a, keys)
  {
    RowLessOrder(a, b, c, keys);
    RowLessOrder(a, b, a, keys);
  }

  // ---------------------------------------------------------------- sorting

  predicate DistinctIds(t: Table) {
    forall i, j :: 0 <= i < j < |t| ==> t[i].id != t[j].id
  }

  predicate Ascending(t: Table, keys: seq<Order>) {
    forall i, j :: 0 <= i < j < |t| ==> RowLess(t[i], t[j], keys)
  }

  lemma {:induction false} PlacedOk(r: Row, t: Table, keys: seq<Order>)
    requires Total(keys) && Ascending(t, keys) && forall x :: x in t ==> x.id != r.id
    ensures Ascending(Placed(r, t, keys), keys)
    ensures |Placed(r, t, keys)| == |t| + 1
    ensures forall x :: x in Placed(r, t, keys) <==> x == r || x in t
  {
    if t != [] {
      forall x | x in t ensures RowLess(x, r, keys) || RowLess(r, x, keys) { TotalOrder(keys, x, r, x); }
      if RowLess(r, t[0], keys) {
        forall i | 0 <= i < |t| ensures RowLess(r, t[i], keys) { TotalOrder(keys, r, t[0], t[i]); }
      } else {
        var rest := Placed(r, t[1..], keys);
        PlacedOk(r, t[1..], keys);
        var s := Placed(r, t, keys);
        assert s == [t[0]] + rest;
        assert t[0] in t;
        forall i | 0 <= i < |rest| ensures RowLess(t[0], rest[i], keys) {
          assert rest[i] in rest;
          if rest[i] != r { var k :| 0 <= k < |t[1..]| && t[1..][k] == rest[i]; assert t[k+1] == rest[i]; }
        }
      }
    }
  }

  lemma {:induction false} SortedOk(t: Table, keys: seq<Order>)
    requires Total(keys) && DistinctIds(t)
    ensures Ascending(Sorted(t, keys), keys) && |Sorted(t, keys)| == |t|
    ensures forall x :: x in Sorted(t, keys) <==> x in t
  {
    if t != [] {
      var last, front := t[|t|-1], t[..|t|-1];
      SortedOk(front, keys);
      PlacedOk(last, Sorted(front, keys), keys);
      assert t == front + [last];
    }
  }

  lemma MatchingIn(w: Option<Where>, t: Table)
    ensures forall r :: r in Matching(w, t) <==> r in t && Hit(w, r)
  {
    if t != [] { MatchingIn(w, t[1..]); }
  }

  lemma MatchingDistinct(w: Option<Where>, t: Table)
    requires DistinctIds(t)
    ensures DistinctIds(Matching(w, t))
  {
    if t != [] {
      MatchingDistinct(w, t[1..]);
      MatchingIn(w, t[1..]);
      var m := Matching(w, t[1..]);
      forall i | 0 <= i < |m| ensures m[i].id != t[0].id {
        assert m[i] in m;
        var k :| 0 <= k < |t[1..]| && t[1..][k] == m[i];
        assert t[k+1] == m[i];
      }
    }
  }

  lemma UniqueDistinct(t: Table)
    requires Unique(t)
    ensures DistinctIds(t)
  {
    if t != [] {
      UniqueDistinct(t[1..]);
      forall j | 0 < j < |t| ensures t[0].id != t[j].id { assert t[j] in t[1..]; }
      forall i, j | 0 < i < j < |t| ensures t[i].id != t[j].id { assert t[i] == t[1..][i-1] && t[j] == t[1..][j-1]; }
    }
  }

  // ---------------------------------------------------------------- one page

  /** What a list endpoint is asked for, less the cursor. */
  datatype Query = Query(tenant: Tenant, where: Option<Where>, sort: Option<string>,
                         allowed: seq<string>, fallback: Order, limit: nat)
  {
    function Keys(): (k: seq<Order>) {
      ParseSort(sort, allowed, fallback)
    }

    predicate Ok() { tenant != "" && limit >= 1 }

    /** The rows of the tenant that match, in the order of the sort. */
    function All(t: Table): Table {
      Sorted(Matching(Some(ScopedWhere(where, tenant)), t), Keys())
    }
  }

  datatype Page = Page(items: seq<Row>, nextCursor: Option<Id>)

  function ListArgs(q: Query, cursor: Option<Id>): Args {
    Args(q.where, None, None, None, None, q.Keys(), cursor, if cursor.Some? then 1 else 0, Some(q.limit + 1))
  }

  /** The rows the query fetches: one more than a page, to tell whether another one follows. */
  function Fetched(q: Query, t: Table, cursor: Option<Id>): seq<Row> {
    Window(Matching(Some(ScopedWhere(q.where, q.tenant)), t), t, ListArgs(q, cursor))
  }

  /** That is the answer of the tenant-scoped client. */
  lemma FetchedIsDispatched(q: Query, t: Table, cursor: Option<Id>)
    requires q.Ok()
    ensures Dispatch(true, Some(q.tenant), FindMany, ListArgs(q, cursor), t) == (t, Rows(Fetched(q, t, cursor)))
  {
    var args := ListArgs(q, cursor);
    var scoped := args.(where := Some(ScopedWhere(args.where, q.tenant)));
    assert Scoped(FindMany, args, q.tenant) == Success(scoped);
    assert forall m :: Window(m, t, scoped) == Window(m, t, args);
  }

  /** The page made of the rows that were fetched. */
  function PageOf(rows: seq<Row>, limit: nat): Page
    requires limit >= 1
  {
    var hasMore := |rows| > limit;
    var items := if hasMore then rows[..limit] else rows;
    Page(items, if hasMore then Some(items[|items|-1].id) else None)
  }

  /** The body the three `list` methods share. */
  function List(q: Query, t: Table, cursor: Option<Id>): Page
    requires q.Ok()
  {
    PageOf(Fetched(q, t, cursor), q.limit)
  }

  lemma AllOk(q: Query, t: Table)
    requires Unique(t)
    ensures Total(q.Keys()) && DistinctIds(t)
    ensures Ascending(q.All(t), q.Keys()) && DistinctIds(q.All(t))
    ensures forall r :: r in q.All(t) <==> r in t && Hit(Some(ScopedWhere(q.where, q.tenant)), r)
  {
    var keys := q.Keys();
    assert keys[|keys|-1].col == "id";
    UniqueDistinct(t);
    var w := Some(ScopedWhere(q.where, q.tenant));
    MatchingIn(w, t);
    MatchingDistinct(w, t);
    SortedOk(Matching(w, t), keys);
    var l := q.All(t);
    forall i, j | 0 <= i < j < |l| ensures l[i].id != l[j].id {
      if l[i].id == l[j].id {
        assert l[i] in t && l[j] in t;
        var x :| 0 <= x < |t| && t[x] == l[i];
        var y :| 0 <= y < |t| && t[y] == l[j];
        assert x == y;
        TotalOrder(keys, l[i], l[j], l[i]);
      }
    }
  }

  lemma FindIdIs(t: Table, r: Row)
    requires DistinctIds(t) && r in t
    ensures FindId(t, r.id) == Some(r)
  {
    if t[0].id == r.id {
      var k :| 0 <= k < |t| && t[k] == r;
      assert k == 0;
    } else {
      assert r in t[1..];
      FindIdIs(t[1..], r);
    }
  }

  /** Cutting an ascending list at one of its rows. */
  lemma {:induction false} NotBeforeAt(l: Table, k: nat, keys: seq<Order>)
    requires Total(keys) && Ascending(l, keys) && k < |l|
    ensures NotBefore(l, l[k], keys) == l[k..]
    decreases k
  {
    if k == 0 {
      forall i | 0 <= i < |l| ensures !RowLess(l[i], l[0], keys) {
        TotalOrder(keys, l[0], l[i], l[0]);
        if i > 0 { assert RowLess(l[0], l[i], keys); }
      }
      NotBeforeAll(l, l[0], keys);
    } else {
      assert RowLess(l[0], l[k], keys);
      assert l[1..][k-1] == l[k] && l[1..][k-1..] == l[k..];
      NotBeforeAt(l[1..], k - 1, keys);
    }
  }

  lemma {:induction false} NotBeforeAll(l: Table, c: Row, keys: seq<Order>)
    requires Total(keys) && forall i :: 0 <= i < |l| ==> !RowLess(l[i], c, keys) || l[i] == c
    ensures NotBefore(l, c, keys) == l
  {
    if l != [] {
      TotalOrder(keys, c, c, c);
      NotBeforeAll(l[1..], c, keys);
      assert [l[0]] + l[1..] == l;
    }
  }

  /** `n` rows from position `k` on, or fewer at the end. */
  function Cut(l: Table, k: nat, n: nat): Table
    requires k <= |l|
  {
    if k + n <= |l| then l[k..k + n] else l[k..]
  }

  /** From the row before position `k`, or from the start. */
  lemma FromAt(l: Table, t: Table, k: nat, cursor: Option<Id>, keys: seq<Order>)
    requires Total(keys) && Ascending(l, keys) && DistinctIds(t) && (forall r :: r in l ==> r in t) && k <= |l|
    requires if k == 0 then cursor == None else cursor == Some(l[k-1].id)
    ensures From(l, t, cursor, keys) == if k == 0 then l else l[k-1..]
  {
    if k > 0 {
      assert l[k-1] in l;
      FindIdIs(t, l[k-1]);
      NotBeforeAt(l, k - 1, keys);
    }
  }

  lemma SkipTakeAt(l: Table, k: nat, n: nat)
    requires k <= |l|
    ensures SkipTake(if k == 0 then l else l[k-1..], if k == 0 then 0 else 1, Some(n)) == Cut(l, k, n)
  {}

  lemma FetchedFrom(q: Query, t: Table, cursor: Option<Id>, rows: Table)
    requires From(q.All(t), t, cursor, q.Keys()) == rows
    ensures Fetched(q, t, cursor) == SkipTake(rows, if cursor.Some? then 1 else 0, Some(q.limit + 1))
  {}

  lemma FromAll(q: Query, t: Table, k: nat, cursor: Option<Id>)
    requires q.Ok() && Unique(t) && k <= |q.All(t)|
    requires if k == 0 then cursor == None else cursor == Some(q.All(t)[k-1].id)
    ensures From(q.All(t), t, cursor, q.Keys()) == if k == 0 then q.All(t) else q.All(t)[k-1..]
  {
    AllOk(q, t);
    FromAt(q.All(t), t, k, cursor, q.Keys());
  }

  /** What is fetched when the cursor names the row before position `k` of the full list. */
  lemma FetchedAt(q: Query, t: Table, k: nat, cursor: Option<Id>)
    requires q.Ok() && Unique(t) && k <= |q.All(t)|
    requires if k == 0 then cursor == None else cursor == Some(q.All(t)[k-1].id)
    ensures Fetched(q, t, cursor) == Cut(q.All(t), k, q.limit + 1)
  {
    FromAll(q, t, k, cursor);
    FetchedFrom(q, t, cursor, if k == 0 then q.All(t) else q.All(t)[k-1..]);
    SkipTakeAt(q.All(t), k, q.limit + 1);
  }

  /** The page after position `k` of a full list. */
  function PageAfter(l: Table, k: nat, limit: nat): Page
    requires k <= |l| && limit >= 1
  {
    Page(Cut(l, k, limit), if k + limit < |l| then Some(l[k + limit - 1].id) else None)
  }

  lemma PageOfCut(l: Table, k: nat, limit: nat)
    requires k <= |l| && limit >= 1
    ensures PageOf(Cut(l, k, limit + 1), limit) == PageAfter(l, k, limit)
  {}

  lemma ListOf(q: Query, t: Table, cursor: Option<Id>, rows: Table)
    requires q.Ok() && Fetched(q, t, cursor) == rows
    ensures List(q, t, cursor) == PageOf(rows, q.limit)
  {}

  /** The page that is listed is the one after the cursor's row. */
  lemma PageAt(q: Query, t: Table, k: nat, cursor: Option<Id>)
    requires q.Ok() && Unique(t) && k <= |q.All(t)|
    requires if k == 0 then cursor == None else cursor == Some(q.All(t)[k-1].id)
    ensures List(q, t, cursor) == PageAfter(q.All(t), k, q.limit)
  {
    FetchedAt(q, t, k, cursor);
    ListOf(q, t, cursor, Cut(q.All(t), k, q.limit + 1));
    PageOfCut(q.All(t), k, q.limit);
  }
}
