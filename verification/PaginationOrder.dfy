/** The order in which the list endpoints show their rows, in terms of the columns. */
module PaginationOrder {
  import opened Wrappers
  import opened TenantScope
  import opened Pagination
  import opened PaginationWalk

  // ---------------------------------------------------------------- values

  /** Lexicographic order by character code: a proper prefix comes first, and otherwise the text
      with the smaller character at the first difference. */
  ghost predicate Before(a: string, b: string) {
    exists k {:trigger a[..k]} :: 0 <= k <= |a| && k < |b| && a[..k] == b[..k] && (k == |a| || a[k] < b[k])
  }

  lemma {:induction false} TextLessIff(a: string, b: string)
    ensures TextLess(a, b) <==> Before(a, b)
  {
    if a == "" && b != "" {
      assert a[..0] == b[..0];
    } else if a != "" && b != "" {
      TextLessIff(a[1..], b[1..]);
      if TextLess(a, b) {
        if a[0] < b[0] {
          assert a[..0] == b[..0];
        } else {
          var k :| 0 <= k <= |a[1..]| && k < |b[1..]| && a[1..][..k] == b[1..][..k]
                   && (k == |a[1..]| || a[1..][k] < b[1..][k]);
          assert a[..k+1] == [a[0]] + a[1..][..k] && b[..k+1] == [b[0]] + b[1..][..k];
        }
      }
      if Before(a, b) {
        var k :| 0 <= k <= |a| && k < |b| && a[..k] == b[..k] && (k == |a| || a[k] < b[k]);
        if k > 0 {
          assert a[0] == a[..k][0] == b[..k][0] == b[0];
          assert a[1..][..k-1] == a[..k][1..] == b[..k][1..] == b[1..][..k-1];
        }
      }
    }
  }

  /** The first of two rows may come first by this column: numbers and texts do not go down or,
      descending, up, a missing value is the greatest, and on equal values the id goes down. */
  ghost predicate ShownFirst(x: Row, y: Row, col: string, descending: bool) {
    var a := if col in x.cols then x.cols[col] else Null;
    var b := if col in y.cols then y.cols[col] else Null;
    && (a.Num? && b.Num? ==> if descending then b.n <= a.n else a.n <= b.n)
    && (a.Text? && b.Text? ==> if descending then !Before(a.s, b.s) else !Before(b.s, a.s))
    && (a.Null? && !b.Null? ==> descending) && (b.Null? && !a.Null? ==> !descending)
    && (a == b ==> y.id < x.id)
  }

  lemma LessIsShown(x: Row, y: Row, col: string, descending: bool)
    requires col != "id" && RowLess(x, y, [Order(col, descending), Order("id", true)])
    ensures ShownFirst(x, y, col, descending)
  {
    var keys := [Order(col, descending), Order("id", true)];
    var a, b := Cell(x, col), Cell(y, col);
    assert keys[1..] == [Order("id", true)] && keys[1..][1..] == [];
    ValueLessOrder(a, b, a);
    if a == b {
      assert RowLess(x, y, keys[1..]) && !RowLess(x, y, []);
      assert Cell(x, "id") == Num(x.id) && Cell(y, "id") == Num(y.id);
    }
    if a.Text? && b.Text? {
      TextLessIff(a.s, b.s);
      TextLessIff(b.s, a.s);
      TextLessOrder(a.s, b.s, a.s);
    }
  }

  // ---------------------------------------------------------------- pages

  /** A page is in the order of the sort, whatever its cursor names. */
  lemma PageAscends(q: Query, t: Table, cursor: Option<Id>)
    requires q.Ok() && Unique(t)
    ensures Ascending(List(q, t, cursor).items, q.Keys())
  {
    if cursor.None? {
      FirstPage(q, t);
    } else {
      FindIdIn(t, cursor.value);
      if FindId(t, cursor.value).Some? {
        PageBehind(q, t, FindId(t, cursor.value).value);
      } else {
        MissingCursorEndsTheWalk(q, t, cursor.value);
      }
    }
  }

  /** By which column and in which direction a query sorts. */
  predicate SortsBy(q: Query, col: string, descending: bool) {
    q.Keys() == [Order(col, descending), Order("id", true)]
  }

  lemma {:induction false} ShownInOrder(q: Query, t: Table, cursor: Option<Id>, col: string, descending: bool,
                                        i: nat, j: nat)
    requires q.Ok() && Unique(t) && SortsBy(q, col, descending) && col != "id"
    requires i < j < |List(q, t, cursor).items|
    ensures ShownFirst(List(q, t, cursor).items[i], List(q, t, cursor).items[j], col, descending)
  {
    PageAscends(q, t, cursor);
    LessIsShown(List(q, t, cursor).items[i], List(q, t, cursor).items[j], col, descending);
  }

  lemma {:induction false} WalkInOrder(q: Query, t: Table, pages: seq<Page>, col: string, descending: bool,
                                       i: nat, j: nat)
    requires q.Ok() && Unique(t) && IsWalk(q, t, pages) && Finished(pages)
    requires SortsBy(q, col, descending) && col != "id" && i < j < |Items(pages)|
    ensures ShownFirst(Items(pages)[i], Items(pages)[j], col, descending)
  {
    FinishedWalkIsWhole(q, t, pages);
    AllOk(q, t);
    LessIsShown(Items(pages)[i], Items(pages)[j], col, descending);
  }

  // ---------------------------------------------------------------- sort parameters

  /** An absent or empty parameter, or one that is no allowed column with or without a dash, sorts
      by the default. */
  lemma DefaultSort(q: Query)
    requires q.fallback.col != "id"
    requires q.sort.None? || q.sort == Some("")
             || forall f :: f in q.allowed ==> q.sort.value != f && q.sort.value != "-" + f
    ensures SortsBy(q, q.fallback.col, q.fallback.descending)
  {
    if q.sort.Some? && q.sort.value != "" && q.sort.value[0] == '-' {
      assert q.sort.value == "-" + q.sort.value[1..];
    }
  }

  lemma AskedSort(q: Query, f: string, descending: bool)
    requires f in q.allowed && f != "" && f != "id" && f[0] != '-'
    requires q.sort == Some((if descending then "-" else "") + f)
    ensures SortsBy(q, f, descending)
  {
    SortStaysAllowed(q.sort, q.allowed, q.fallback);
  }

  // ---------------------------------------------------------------- the endpoints

  /** Unless asked otherwise, a later row was created no later, and on the same instant its id
      is smaller. */
  lemma NewestComesFirst(x: Row, y: Row)
    requires ShownFirst(x, y, "createdAt", true)
    requires "createdAt" in x.cols && x.cols["createdAt"].Num? && "createdAt" in y.cols && y.cols["createdAt"].Num?
    ensures y.cols["createdAt"].n <= x.cols["createdAt"].n
    ensures y.cols["createdAt"].n == x.cols["createdAt"].n ==> y.id < x.id
  {}

  predicate Dated(t: Table) {
    forall r :: r in t ==> "createdAt" in r.cols && r.cols["createdAt"].Num?
  }

  /** The three lists as they are asked for by default: newest first, on every page and whatever
      the cursor. */
  lemma ByDefault(tenant: Tenant, userId: string, unreadOnly: bool, search: Option<string>, sort: Option<string>,
                  limit: nat, t: Table, cursor: Option<Id>, i: nat, j: nat, q: Query)
    requires tenant != "" && limit >= 1 && Unique(t) && Dated(t) && (sort.None? || sort == Some(""))
    requires q in {FilesQuery(tenant, search, sort, limit), AuditsQuery(tenant, search, sort, limit),
                   NotificationsQuery(tenant, userId, unreadOnly, search, sort, limit)}
    requires i < j < |List(q, t, cursor).items|
    ensures var x, y := List(q, t, cursor).items[i], List(q, t, cursor).items[j];
            && "createdAt" in x.cols && x.cols["createdAt"].Num? && "createdAt" in y.cols && y.cols["createdAt"].Num?
            && y.cols["createdAt"].n <= x.cols["createdAt"].n
            && (y.cols["createdAt"].n == x.cols["createdAt"].n ==> y.id < x.id)
  {
    DefaultSort(q);
    ShownInOrder(q, t, cursor, "createdAt", true, i, j);
    PageMatches(q, t, cursor);
    var x, y := List(q, t, cursor).items[i], List(q, t, cursor).items[j];
    assert x in List(q, t, cursor).items && y in List(q, t, cursor).items;
    NewestComesFirst(x, y);
  }

  /** Files sort by creation time, name or size, up or, with a dash, down. */
  lemma FilesInOrder(tenant: Tenant, search: Option<string>, f: string, descending: bool, limit: nat,
                     t: Table, cursor: Option<Id>, i: nat, j: nat)
    requires tenant != "" && limit >= 1 && Unique(t) && f in {"createdAt", "filename", "size"}
    requires var q := FilesQuery(tenant, search, Some((if descending then "-" else "") + f), limit);
             i < j < |List(q, t, cursor).items|
    ensures var q := FilesQuery(tenant, search, Some((if descending then "-" else "") + f), limit);
            ShownFirst(List(q, t, cursor).items[i], List(q, t, cursor).items[j], f, descending)
  {
    var q := FilesQuery(tenant, search, Some((if descending then "-" else "") + f), limit);
    AskedSort(q, f, descending);
    ShownInOrder(q, t, cursor, f, descending, i, j);
  }

  /** Audits sort by creation time, URL or status. */
  lemma AuditsInOrder(tenant: Tenant, search: Option<string>, f: string, descending: bool, limit: nat,
                      t: Table, cursor: Option<Id>, i: nat, j: nat)
    requires tenant != "" && limit >= 1 && Unique(t) && f in {"createdAt", "url", "status"}
    requires var q := AuditsQuery(tenant, search, Some((if descending then "-" else "") + f), limit);
             i < j < |List(q, t, cursor).items|
    ensures var q := AuditsQuery(tenant, search, Some((if descending then "-" else "") + f), limit);
            ShownFirst(List(q, t, cursor).items[i], List(q, t, cursor).items[j], f, descending)
  {
    var q := AuditsQuery(tenant, search, Some((if descending then "-" else "") + f), limit);
    AskedSort(q, f, descending);
    ShownInOrder(q, t, cursor, f, descending, i, j);
  }

  /** Notifications sort by creation time only. */
  lemma NotificationsInOrder(tenant: Tenant, userId: string, unreadOnly: bool, search: Option<string>,
                             descending: bool, limit: nat, t: Table, cursor: Option<Id>, i: nat, j: nat)
    requires tenant != "" && limit >= 1 && Unique(t)
    requires var sort := Some((if descending then "-" else "") + "createdAt");
             i < j < |List(NotificationsQuery(tenant, userId, unreadOnly, search, sort, limit), t, cursor).items|
    ensures var sort := Some((if descending then "-" else "") + "createdAt");
            var q := NotificationsQuery(tenant, userId, unreadOnly, search, sort, limit);
            ShownFirst(List(q, t, cursor).items[i], List(q, t, cursor).items[j], "createdAt", descending)
  {
    var sort := Some((if descending then "-" else "") + "createdAt");
    var q := NotificationsQuery(tenant, userId, unreadOnly, search, sort, limit);
    AskedSort(q, "createdAt", descending);
    ShownInOrder(q, t, cursor, "createdAt", descending, i, j);
  }
}
