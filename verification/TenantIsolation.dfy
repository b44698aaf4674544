/** Scoping means running on the tenant's own slice, and tenants do not see each other. */
module TenantIsolation {
  import opened Wrappers
  import opened TenantScope

  /** The tenant's own rows, in table order. */
  function Slice(t: Table, u: Tenant): Table {
    if t == [] then [] else if t[0].tenantId == u then [t[0]] + Slice(t[1..], u) else Slice(t[1..], u)
  }

  /** Everybody else's rows, in table order. */
  function Rest(t: Table, u: Tenant): Table {
    if t == [] then [] else if t[0].tenantId == u then Rest(t[1..], u) else [t[0]] + Rest(t[1..], u)
  }

  // ---------------------------------------------------------------- lists

  lemma InSlice(t: Table, u: Tenant)
    ensures forall r :: r in Slice(t, u) <==> r in t && r.tenantId == u
    ensures forall r :: r in Rest(t, u) <==> r in t && r.tenantId != u
  {
    if t != [] { InSlice(t[1..], u); }
  }

  lemma ConsAppend(r: Row, a: Table, b: Table)
    ensures [r] + (a + b) == [r] + a + b
  {}

  lemma {:induction false} SliceAppend(a: Table, b: Table, u: Tenant)
    ensures Slice(a + b, u) == Slice(a, u) + Slice(b, u)
    ensures Rest(a + b, u) == Rest(a, u) + Rest(b, u)
  {
    if a == [] {
      assert a + b == b;
    } else {
      assert (a + b)[0] == a[0] && (a + b)[1..] == a[1..] + b;
      SliceAppend(a[1..], b, u);
      ConsAppend(a[0], Slice(a[1..], u), Slice(b, u));
      ConsAppend(a[0], Rest(a[1..], u), Rest(b, u));
    }
  }

  lemma SliceOfRest(t: Table, u: Tenant, v: Tenant)
    requires u != v
    ensures Slice(Rest(t, v), u) == Slice(t, u)
  {
    if t != [] {
      SliceOfRest(t[1..], u, v);
      SliceAppend(if t[0].tenantId == v then [] else [t[0]], Rest(t[1..], v), u);
    }
  }

  // ------------------------------------------------- local wheres and payloads

  /** The `where` only meets rows of the tenant. */
  predicate LocalWhere(w: Option<Where>, u: Tenant) {
    w.Some? && w.value.tenantId == Some(Is(u))
  }

  /** Written over a row of the tenant, the payload leaves it with the tenant. */
  predicate LocalData(d: Option<Data>, u: Tenant) {
    d.Some? && d.value.tenantId.Some? ==> d.value.tenantId == Some(Plain(u))
  }

  lemma MatchingOnSlice(w: Option<Where>, t: Table, u: Tenant)
    requires LocalWhere(w, u)
    ensures Matching(w, t) == Matching(w, Slice(t, u))
  {
    if t != [] {
      MatchingOnSlice(w, t[1..], u);
      if t[0].tenantId == u {
        assert Slice(t, u)[1..] == Slice(t[1..], u);
      } else {
        assert !Hit(w, t[0]);
      }
    }
  }

  lemma WriteAllOnSlice(w: Option<Where>, d: Option<Data>, t: Table, u: Tenant)
    requires LocalWhere(w, u) && LocalData(d, u)
    ensures Slice(WriteAll(w, d, t), u) == WriteAll(w, d, Slice(t, u))
    ensures Rest(WriteAll(w, d, t), u) == Rest(t, u)
  {
    if t != [] {
      WriteAllOnSlice(w, d, t[1..], u);
      assert WriteAll(w, d, t)[1..] == WriteAll(w, d, t[1..]);
      if t[0].tenantId == u { assert Slice(t, u)[1..] == Slice(t[1..], u); } else { assert !Hit(w, t[0]); }
    }
  }

  lemma WriteFirstOnSlice(w: Option<Where>, d: Option<Data>, t: Table, u: Tenant)
    requires LocalWhere(w, u) && LocalData(d, u)
    ensures Slice(WriteFirst(w, d, t), u) == WriteFirst(w, d, Slice(t, u))
    ensures Rest(WriteFirst(w, d, t), u) == Rest(t, u)
  {
    if t != [] {
      WriteFirstOnSlice(w, d, t[1..], u);
      var t' := WriteFirst(w, d, t);
      assert t'[1..] == if Hit(w, t[0]) then t[1..] else WriteFirst(w, d, t[1..]);
      if t[0].tenantId == u { assert Slice(t, u)[1..] == Slice(t[1..], u); } else { assert !Hit(w, t[0]); }
    }
  }

  lemma RemoveAllOnSlice(w: Option<Where>, t: Table, u: Tenant)
    requires LocalWhere(w, u)
    ensures Slice(RemoveAll(w, t), u) == RemoveAll(w, Slice(t, u))
    ensures Rest(RemoveAll(w, t), u) == Rest(t, u)
  {
    if t != [] {
      RemoveAllOnSlice(w, t[1..], u);
      SliceAppend(if Hit(w, t[0]) then [] else [t[0]], RemoveAll(w, t[1..]), u);
      if t[0].tenantId == u { assert Slice(t, u)[1..] == Slice(t[1..], u); } else { assert !Hit(w, t[0]); }
    }
  }

  lemma RemoveFirstOnSlice(w: Option<Where>, t: Table, u: Tenant)
    requires LocalWhere(w, u)
    ensures Slice(RemoveFirst(w, t), u) == RemoveFirst(w, Slice(t, u))
    ensures Rest(RemoveFirst(w, t), u) == Rest(t, u)
  {
    if t != [] {
      RemoveFirstOnSlice(w, t[1..], u);
      if !Hit(w, t[0]) { assert RemoveFirst(w, t)[1..] == RemoveFirst(w, t[1..]); }
      if t[0].tenantId == u { assert Slice(t, u)[1..] == Slice(t[1..], u); } else { assert !Hit(w, t[0]); }
    }
  }

  // ---------------------------------------------------------------- ownership

  /** Whose an id or a key is. Ids are random and keys carry the tenant, so that no two
      tenants ever use the same one. */
  datatype Owners = Owners(ids: map<Id, Tenant>, keys: map<string, Tenant>)

  predicate OwnsId(o: Owners, id: Id, u: Tenant) {
    id in o.ids && o.ids[id] == u
  }

  predicate OwnsKey(o: Owners, k: Option<string>, u: Tenant) {
    k.Some? ==> k.value in o.keys && o.keys[k.value] == u
  }

  predicate RowOwned(o: Owners, r: Row) {
    OwnsId(o, r.id, r.tenantId) && OwnsKey(o, r.key, r.tenantId)
  }

  predicate TableOwned(o: Owners, t: Table) {
    forall r :: r in t ==> RowOwned(o, r)
  }

  predicate DataOwned(o: Owners, d: Option<Data>, u: Tenant) {
    d.Some? ==> (d.value.id.Some? ==> OwnsId(o, d.value.id.value, u)) && OwnsKey(o, d.value.key, u)
  }

  /** The payloads carry the tenant's own ids and keys, and so does the cursor. */
  predicate ArgsOwned(o: Owners, args: Args, u: Tenant) {
    && DataOwned(o, args.data, u) && DataOwned(o, args.create, u) && DataOwned(o, args.update, u)
    && (args.list.Some? ==> forall d :: d in args.list.value ==> DataOwned(o, Some(d), u))
    && (args.cursor.Some? ==> OwnsId(o, args.cursor.value, u))
  }

  lemma NoClashAcross(o: Owners, a: Row, b: Row)
    requires RowOwned(o, a) && RowOwned(o, b) && a.tenantId != b.tenantId
    ensures !Clash(a, b)
  {}

  lemma UniqueBySlice(o: Owners, t: Table, u: Tenant)
    requires TableOwned(o, t)
    ensures Unique(t) <==> Unique(Slice(t, u)) && Unique(Rest(t, u))
  {
    if t != [] {
      UniqueBySlice(o, t[1..], u);
      InSlice(t[1..], u);
      if t[0].tenantId == u {
        assert Slice(t, u)[1..] == Slice(t[1..], u);
        forall r | r in Rest(t[1..], u) ensures !Clash(t[0], r) { NoClashAcross(o, t[0], r); }
      } else {
        assert Rest(t, u)[1..] == Rest(t[1..], u);
        forall r | r in Slice(t[1..], u) ensures !Clash(t[0], r) { NoClashAcross(o, t[0], r); }
      }
      assert forall r :: r in t[1..] ==> r in Slice(t[1..], u) || r in Rest(t[1..], u);
    }
  }

  lemma FindIdOnSlice(o: Owners, t: Table, u: Tenant, id: Id)
    requires TableOwned(o, t) && OwnsId(o, id, u)
    ensures FindId(t, id) == FindId(Slice(t, u), id)
  {
    if t != [] {
      FindIdOnSlice(o, t[1..], u, id);
      assert RowOwned(o, t[0]);
      if t[0].tenantId == u { assert Slice(t, u)[1..] == Slice(t[1..], u); }
    }
  }

  lemma WriteAllOwned(o: Owners, w: Option<Where>, d: Option<Data>, t: Table, u: Tenant)
    requires TableOwned(o, t) && LocalWhere(w, u) && LocalData(d, u) && DataOwned(o, d, u)
    ensures TableOwned(o, WriteAll(w, d, t))
  {
    if t != [] { WriteAllOwned(o, w, d, t[1..], u); assert RowOwned(o, t[0]); }
  }

  lemma WriteFirstOwned(o: Owners, w: Option<Where>, d: Option<Data>, t: Table, u: Tenant)
    requires TableOwned(o, t) && LocalWhere(w, u) && LocalData(d, u) && DataOwned(o, d, u)
    ensures TableOwned(o, WriteFirst(w, d, t))
  {
    if t != [] { WriteFirstOwned(o, w, d, t[1..], u); assert RowOwned(o, t[0]); }
  }

  lemma RemoveIncluded(w: Option<Where>, t: Table)
    ensures forall r :: r in RemoveAll(w, t) ==> r in t
    ensures forall r :: r in RemoveFirst(w, t) ==> r in t
    ensures Unique(t) ==> Unique(RemoveAll(w, t)) && Unique(RemoveFirst(w, t))
  {
    if t != [] {
      RemoveIncluded(w, t[1..]);
      if !Hit(w, t[0]) {
        assert RemoveAll(w, t)[1..] == RemoveAll(w, t[1..]);
        assert RemoveFirst(w, t)[1..] == RemoveFirst(w, t[1..]);
      }
    }
  }

  // ------------------------------------------------- evaluation on the slice

  /** One evaluation on the table is the same evaluation on the tenant's slice: same outcome,
      same effect on the slice, none on the rest. */
  ghost predicate SameOnSlice(full: (Table, Outcome), part: (Table, Outcome), t: Table, u: Tenant) {
    full.1 == part.1 && Slice(full.0, u) == part.0 && Rest(full.0, u) == Rest(t, u)
  }

  ghost predicate Sane(o: Owners, t: Table) {
    TableOwned(o, t) && Unique(t)
  }

  lemma SettleOnSlice(o: Owners, t: Table, t': Table, out: Outcome, u: Tenant)
    requires Sane(o, t) && TableOwned(o, t') && Rest(t', u) == Rest(t, u)
    ensures SameOnSlice(Settle(t, t', out), Settle(Slice(t, u), Slice(t', u), out), t, u)
    ensures Sane(o, Settle(t, t', out).0)
  {
    UniqueBySlice(o, t, u);
    UniqueBySlice(o, t', u);
  }

  lemma AllOfTenant(rows: Table, u: Tenant)
    requires forall r :: r in rows ==> r.tenantId == u
    ensures Slice(rows, u) == rows && Rest(rows, u) == []
  {
    if rows != [] { AllOfTenant(rows[1..], u); }
  }

  lemma NewRowsOwned(o: Owners, ds: seq<Data>, u: Tenant)
    requires forall d :: d in ds ==> DataOwned(o, Some(d), u) && d.tenantId == Some(Plain(u))
    requires NewRows(ds).Success?
    ensures forall r :: r in NewRows(ds).value ==> RowOwned(o, r) && r.tenantId == u
  {
    if ds != [] { NewRowsOwned(o, ds[1..], u); }
  }

  lemma InsertOnSlice(o: Owners, t: Table, ds: seq<Data>, single: bool, u: Tenant)
    requires Sane(o, t) && forall d :: d in ds ==> DataOwned(o, Some(d), u) && d.tenantId == Some(Plain(u))
    ensures SameOnSlice(Insert(t, ds, single), Insert(Slice(t, u), ds, single), t, u)
    ensures Sane(o, Insert(t, ds, single).0)
  {
    var rows := NewRows(ds);
    if rows.Success? {
      NewRowsOwned(o, ds, u);
      AllOfTenant(rows.value, u);
      SliceAppend(t, rows.value, u);
      SettleOnSlice(o, t, t + rows.value,
                    if single && |rows.value| > 0 then One(Some(rows.value[0])) else Counted(|rows.value|), u);
    }
  }

  /** The entries an operation uses are the tenant's. */
  predicate LocalArgs(op: Operation, args: Args, u: Tenant) {
    && (op.TakesWhere() || op.Upsert? ==> LocalWhere(args.where, u))
    && (op.Update? || op.UpdateMany? ==> LocalData(args.data, u))
    && (op.Upsert? ==> LocalData(args.update, u) && args.create.Some? && args.create.value.tenantId == Some(Plain(u)))
    && (op.Create? || (op.CreateMany? && args.list.None?) ==>
        args.data.Some? && args.data.value.tenantId == Some(Plain(u)))
    && (op.CreateMany? && args.list.Some? ==> forall d :: d in args.list.value ==> d.tenantId == Some(Plain(u)))
  }

  lemma WindowOnSlice(o: Owners, op: Operation, args: Args, t: Table, u: Tenant)
    requires TableOwned(o, t) && ArgsOwned(o, args, u)
    ensures forall m :: Window(m, t, args) == Window(m, Slice(t, u), args)
  {
    if args.cursor.Some? { FindIdOnSlice(o, t, u, args.cursor.value); }
  }

  lemma EvalOnSlice(o: Owners, op: Operation, args: Args, t: Table, u: Tenant)
    requires Sane(o, t) && ArgsOwned(o, args, u) && LocalArgs(op, args, u) && !op.Unscopable()
    ensures SameOnSlice(Eval(op, args, t), Eval(op, args, Slice(t, u)), t, u)
    ensures Sane(o, Eval(op, args, t).0)
  {
    if op.TakesWhere() || op.Upsert? { MatchingOnSlice(args.where, t, u); }
    WindowOnSlice(o, op, args, t, u);
    match op
    case Update => UpdateOnSlice(o, args.where, args.data, t, u);
    case UpdateMany =>
      WriteAllOnSlice(args.where, args.data, t, u);
      WriteAllOwned(o, args.where, args.data, t, u);
      SettleOnSlice(o, t, WriteAll(args.where, args.data, t), Counted(|Matching(args.where, t)|), u);
    case Delete => RemoveFirstOnSlice(args.where, t, u); RemoveIncluded(args.where, t);
    case DeleteMany => RemoveAllOnSlice(args.where, t, u); RemoveIncluded(args.where, t);
    case Create => InsertOnSlice(o, t, [args.data.value], true, u);
    case CreateMany => InsertOnSlice(o, t, if args.list.Some? then args.list.value else [args.data.value], false, u);
    case Upsert =>
      InsertOnSlice(o, t, [args.create.value], true, u);
      UpdateOnSlice(o, args.where, args.update, t, u);
    case _ =>
  }

  lemma UpdateOnSlice(o: Owners, w: Option<Where>, d: Option<Data>, t: Table, u: Tenant)
    requires Sane(o, t) && LocalWhere(w, u) && LocalData(d, u) && DataOwned(o, d, u)
    ensures Matching(w, t) == Matching(w, Slice(t, u))
    ensures forall out :: SameOnSlice(Settle(t, WriteFirst(w, d, t), out),
      Settle(Slice(t, u), WriteFirst(w, d, Slice(t, u)), out), t, u)
    ensures forall out :: Sane(o, Settle(t, WriteFirst(w, d, t), out).0)
  {
    MatchingOnSlice(w, t, u);
    WriteFirstOnSlice(w, d, t, u);
    WriteFirstOwned(o, w, d, t, u);
    forall out
      ensures SameOnSlice(Settle(t, WriteFirst(w, d, t), out), Settle(Slice(t, u), WriteFirst(w, d, Slice(t, u)), out),
        t, u)
              && Sane(o, Settle(t, WriteFirst(w, d, t), out).0)
    {
      SettleOnSlice(o, t, WriteFirst(w, d, t), out, u);
    }
  }

  // ---------------------------------------------------------------- the diagram

  /** The original arguments with their payloads' tenant filled in. */
  function Defaulted(op: Operation, args: Args, u: Tenant): Args {
    match op
    case Create => args.(data := Some(WithTenant(args.data, u)))
    case CreateMany =>
      if args.list.Some? then args.(list := Some(WithTenants(args.list.value, u)))
        else args.(data := Some(WithTenant(args.data, u)))
    case Upsert => args.(create := Some(WithTenant(args.create, u)))
    case _ => args
  }

  /** The top level of the `where` does not exclude the tenant. */
  predicate Admits(args: Args, u: Tenant) {
    args.where.Some? && args.where.value.tenantId.Some? ==> AcceptsTenant(args.where.value.tenantId.value, u)
  }

  lemma ScopedIsLocal(o: Owners, op: Operation, args: Args, u: Tenant)
    requires Scoped(op, args, u).Success? && ArgsOwned(o, args, u)
    ensures LocalArgs(op, Scoped(op, args, u).value, u) && ArgsOwned(o, Scoped(op, args, u).value, u)
  {
    var s := Scoped(op, args, u).value;
    if op.CreateMany? && args.list.Some? {
      forall d | d in s.list.value ensures d.tenantId == Some(Plain(u)) && DataOwned(o, Some(d), u) {
        var i :| 0 <= i < |s.list.value| && s.list.value[i] == d;
        assert DataOwned(o, Some(args.list.value[i]), u);
      }
    }
  }

  lemma HitSame(args: Args, u: Tenant, r: Row)
    requires r.tenantId == u && Admits(args, u)
    ensures Hit(Some(ScopedWhere(args.where, u)), r) == Hit(args.where, r)
  {}

  lemma WhereSame(args: Args, s: Option<Where>, d: Option<Data>, t: Table, u: Tenant)
    requires s == Some(ScopedWhere(args.where, u)) && Admits(args, u)
    requires forall r :: r in t ==> r.tenantId == u
    ensures Matching(s, t) == Matching(args.where, t)
    ensures WriteAll(s, d, t) == WriteAll(args.where, d, t) && WriteFirst(s, d, t) == WriteFirst(args.where, d, t)
    ensures RemoveAll(s, t) == RemoveAll(args.where, t) && RemoveFirst(s, t) == RemoveFirst(args.where, t)
  {
    if t != [] {
      HitSame(args, u, t[0]);
      WhereSame(args, s, d, t[1..], u);
    }
  }

  lemma EvalSame(op: Operation, args: Args, t: Table, u: Tenant)
    requires Scoped(op, args, u).Success? && Admits(args, u) && !op.Unscopable()
    requires forall r :: r in t ==> r.tenantId == u
    ensures Eval(op, Scoped(op, args, u).value, t) == Eval(op, Defaulted(op, args, u), t)
  {
    var s := Scoped(op, args, u).value;
    if op.TakesWhere() || op.Upsert? {
      WhereSame(args, s.where, args.data, t, u);
      WhereSame(args, s.where, args.update, t, u);
      assert forall m :: Window(m, t, s) == Window(m, t, args);
    }
  }

  /** The scoped arguments on the whole table do what the original ones do on the tenant's
      slice, and touch nothing else. */
  lemma CommutingDiagram(o: Owners, op: Operation, args: Args, t: Table, u: Tenant)
    requires Sane(o, t) && ArgsOwned(o, args, u) && !op.Unscopable()
    requires Scoped(op, args, u).Success? && Admits(args, u)
    ensures SameOnSlice(Eval(op, Scoped(op, args, u).value, t), Eval(op, Defaulted(op, args, u), Slice(t, u)), t, u)
  {
    ScopedIsLocal(o, op, args, u);
    EvalOnSlice(o, op, Scoped(op, args, u).value, t, u);
    InSlice(t, u);
    EvalSame(op, args, Slice(t, u), u);
  }

  // ------------------------------------------------- the conditions are exact

  predicate MatchesRest(w: Where, r: Row) {
    forall c | c in w.conds :: Holds(c, r)
  }

  /** A top-level `tenantId` filter that excludes the tenant is overridden, not obeyed: the
      scoped query still finds the tenant's rows that meet the other conditions, while the
      original one would have found none of them. */
  lemma ForeignFilterIsOverridden(args: Args, t: Table, u: Tenant)
    requires !Admits(args, u)
    ensures Matching(args.where, Slice(t, u)) == []
    ensures forall r :: r in Matching(Some(ScopedWhere(args.where, u)), t) <==>
                        r in t && r.tenantId == u && MatchesRest(args.where.value, r)
  {
    if t != [] { ForeignFilterIsOverridden(args, t[1..], u); }
  }

  /** Where the filter names another tenant: nothing of the caller is reached all the same. For
      an upsert it is enough that both ways end in a violated unique index. */
  predicate NothingReached(op: Operation, args: Args, t: Table, u: Tenant) {
    var w := Some(ScopedWhere(args.where, u));
    if op.Reads() then Window(Matching(w, t), t, args) == []
    else
      Matching(w, t) == []
      || (op.Upsert? && UpdateClashes(w, args.update, t) && CreateClashes(WithTenant(args.create, u), Slice(t, u)))
  }

  predicate UpdateClashes(w: Option<Where>, d: Option<Data>, t: Table) {
    !Unique(WriteFirst(w, d, t))
  }

  predicate CreateClashes(d: Data, t: Table) {
    NewRow(d).Success? && !Unique(t + [NewRow(d).value])
  }

  ghost predicate DiagramCommutes(op: Operation, args: Args, t: Table, u: Tenant)
    requires Scoped(op, args, u).Success?
  {
    SameOnSlice(Eval(op, Scoped(op, args, u).value, t), Eval(op, Defaulted(op, args, u), Slice(t, u)), t, u)
  }

  lemma NoneMatching(w: Option<Where>, d: Option<Data>, t: Table)
    requires Matching(w, t) == []
    ensures WriteAll(w, d, t) == t && RemoveAll(w, t) == t
  {
    if t != [] { NoneMatching(w, d, t[1..]); }
  }

  lemma EmptyWindow(t: Table, args: Args)
    ensures Window([], t, args) == []
  {
    assert Sorted([], args.orderBy) == [];
  }

  lemma ReadIff(op: Operation, args: Args, t: Table, u: Tenant)
    requires op.Reads() && !Admits(args, u)
    ensures DiagramCommutes(op, args, t, u) <==> NothingReached(op, args, t, u)
  {
    ForeignFilterIsOverridden(args, t, u);
    EmptyWindow(Slice(t, u), args);
    var s := Scoped(op, args, u).value;
    assert Window(Matching(s.where, t), t, s) == Window(Matching(s.where, t), t, args);
  }

  lemma WriteIff(op: Operation, args: Args, t: Table, u: Tenant)
    requires Unique(t) && Unique(Slice(t, u))
    requires op in {Update, UpdateMany, Delete, DeleteMany}
    requires Scoped(op, args, u).Success? && !Admits(args, u)
    ensures DiagramCommutes(op, args, t, u) <==> NothingReached(op, args, t, u)
  {
    ForeignFilterIsOverridden(args, t, u);
    var w := Some(ScopedWhere(args.where, u));
    if Matching(w, t) == [] { NoneMatching(w, args.data, t); }
    NoneMatching(args.where, args.data, Slice(t, u));
  }

  lemma UpsertIff(o: Owners, args: Args, t: Table, u: Tenant)
    requires Sane(o, t) && ArgsOwned(o, args.(cursor := None), u)
    requires Scoped(Upsert, args, u).Success? && !Admits(args, u)
    ensures DiagramCommutes(Upsert, args, t, u) <==> NothingReached(Upsert, args, t, u)
  {
    ForeignFilterIsOverridden(args, t, u);
    var w := Some(ScopedWhere(args.where, u));
    var d := WithTenant(args.create, u);
    if Matching(w, t) == [] {
      InsertOnSlice(o, t, [d], true, u);
    } else {
      UpdateOnSlice(o, w, args.update, t, u);
      NewRowsOfOne(d);
      FirstKeepsSize(w, args.update, Slice(t, u));
      MatchingOnSlice(w, t, u);
      UniqueBySlice(o, t, u);
    }
  }

  lemma NewRowsOfOne(d: Data)
    ensures NewRows([d]) == if NewRow(d).Failure? then Failure(NewRow(d).error) else Success([NewRow(d).value])
  {
    assert [d][1..] == [] && NewRows([]) == Success([]);
    assert NewRow(d).Success? ==> [NewRow(d).value] + [] == [NewRow(d).value];
  }

  lemma FirstKeepsSize(w: Option<Where>, d: Option<Data>, t: Table)
    ensures |WriteFirst(w, d, t)| == |t|
  {
    if t != [] { FirstKeepsSize(w, d, t[1..]); }
  }

  // ------------------------------------------------- cursors of other tenants

  /** The cursor names a row of another tenant. */
  predicate ForeignCursor(args: Args, t: Table, u: Tenant) {
    args.cursor.Some? && FindId(t, args.cursor.value).Some? && FindId(t, args.cursor.value).value.tenantId != u
  }

  /** Nothing is left of the matched rows from the cursor row on. */
  predicate WindowSpent(args: Args, t: Table, u: Tenant)
    requires ForeignCursor(args, t, u)
  {
    var c := FindId(t, args.cursor.value).value;
    var sorted := Sorted(Matching(Some(ScopedWhere(args.where, u)), t), args.orderBy);
    args.take == Some(0) || |NotBefore(sorted, c, args.orderBy)| <= args.skip
  }

  lemma {:induction false} FindIdInSlice(t: Table, u: Tenant, id: Id)
    requires Unique(t)
    ensures FindId(Slice(t, u), id) ==
            if FindId(t, id).Some? && FindId(t, id).value.tenantId == u then FindId(t, id) else None
  {
    if t != [] {
      FindIdInSlice(t[1..], u, id);
      FindIdIn(t[1..], id);
      if t[0].tenantId == u { assert Slice(t, u)[1..] == Slice(t[1..], u); }
    }
  }

  /** The page over the table is the page over the slice exactly when the cursor names no row
      of another tenant, or the page is empty. */
  lemma WindowIff(args: Args, m: Table, t: Table, u: Tenant)
    requires Unique(t)
    ensures Window(m, t, args) == Window(m, Slice(t, u), args)
            <==> !ForeignCursor(args, t, u) || Window(m, t, args) == []
    ensures ForeignCursor(args, t, u) ==> Window(m, Slice(t, u), args) == []
  {
    if args.cursor.Some? { FindIdInSlice(t, u, args.cursor.value); }
  }

  lemma SpentIff(args: Args, t: Table, u: Tenant)
    requires ForeignCursor(args, t, u)
    ensures Window(Matching(Some(ScopedWhere(args.where, u)), t), t, args) == [] <==> WindowSpent(args, t, u)
  {}

  lemma ReadOnSliceIff(op: Operation, args: Args, t: Table, u: Tenant)
    requires op.Reads() && Unique(t)
    ensures var s := Scoped(op, args, u).value;
            SameOnSlice(Eval(op, s, t), Eval(op, s, Slice(t, u)), t, u)
            <==> !ForeignCursor(args, t, u) || WindowSpent(args, t, u)
  {
    var s := Scoped(op, args, u).value;
    MatchingOnSlice(s.where, t, u);
    var m := Matching(s.where, t);
    WindowIff(args, m, t, u);
    assert Window(m, t, s) == Window(m, t, args) && Window(m, Slice(t, u), s) == Window(m, Slice(t, u), args);
    if ForeignCursor(args, t, u) { SpentIff(args, t, u); }
  }

  /** The scoped arguments evaluate on the table as on the tenant's slice exactly when they do
      not read, or the cursor names no row of another tenant, or nothing is left from the
      cursor row on: the cursor row is looked up in the whole table. */
  lemma SliceDecidesIff(o: Owners, op: Operation, args: Args, t: Table, u: Tenant)
    requires Sane(o, t) && ArgsOwned(o, args.(cursor := None), u) && !op.Unscopable()
    requires Scoped(op, args, u).Success?
    ensures var s := Scoped(op, args, u).value;
            SameOnSlice(Eval(op, s, t), Eval(op, s, Slice(t, u)), t, u)
            <==> !op.Reads() || !ForeignCursor(args, t, u) || WindowSpent(args, t, u)
  {
    if op.Reads() {
      ReadOnSliceIff(op, args, t, u);
    } else {
      var args' := args.(cursor := None);
      var s, s' := Scoped(op, args, u).value, Scoped(op, args', u).value;
      assert s' == s.(cursor := None);
      ScopedIsLocal(o, op, args', u);
      EvalOnSlice(o, op, s', t, u);
      assert Eval(op, s, t) == Eval(op, s', t) && Eval(op, s, Slice(t, u)) == Eval(op, s', Slice(t, u));
    }
  }

  /** The condition does fail: a page of one's own rows from another tenant's row on. */
  lemma CursorConditionIsNeeded()
    ensures var mine := Row(1, "a", None, map[]);
            var theirs := Row(2, "b", None, map[]);
            var args := Args(None, None, None, None, None, [Order("id", true)], Some(2), 0, None);
            var scoped := Scoped(FindMany, args, "a");
            && scoped.Success?
            && Eval(FindMany, scoped.value, [mine, theirs]).1 == Rows([mine])
            && Eval(FindMany, scoped.value, Slice([mine, theirs], "a")).1 == Rows([])
  {
    var mine := Row(1, "a", None, map[]);
    var theirs := Row(2, "b", None, map[]);
    var args := Args(None, None, None, None, None, [Order("id", true)], Some(2), 0, None);
    var scoped := Scoped(FindMany, args, "a").value;
    var t := [mine, theirs];
    assert t[1..] == [theirs] && [theirs][1..] == [] && [mine][1..] == [];
    assert Matching(scoped.where, [theirs]) == [];
    assert Matching(scoped.where, [mine]) == [mine] + Matching(scoped.where, []);
    assert Matching(scoped.where, t) == [mine];
    assert Slice(t, "a") == [mine] by { assert Slice([theirs], "a") == []; }
    assert FindId(t, 2) == Some(theirs) by { assert FindId([theirs], 2) == Some(theirs); }
    assert FindId([mine], 2) == None;
    assert Sorted([mine], args.orderBy) == [mine] by {
      assert [mine][..0] == [];
      assert Sorted([mine], args.orderBy) == Placed(mine, Sorted([], args.orderBy), args.orderBy);
    }
    assert !RowLess(mine, theirs, args.orderBy);
    assert NotBefore([mine], theirs, args.orderBy) == [mine] + NotBefore([], theirs, args.orderBy);
  }

  // ------------------------------------------------- the diagram, exactly

  /** When the scoped arguments do on the table what the original ones do on the slice. */
  predicate Commutes(op: Operation, args: Args, t: Table, u: Tenant) {
    if op.Create? || op.CreateMany? then true
    else if Admits(args, u) then !op.Reads() || !ForeignCursor(args, t, u) || WindowSpent(args, t, u)
    else NothingReached(op, args, t, u)
  }

  /** The diagram commutes for every create; where the filter admits the tenant, unless a read
      starts at another tenant's row and something is left from there on; and where it does not,
      when nothing of the tenant is reached. */
  lemma DiagramIff(o: Owners, op: Operation, args: Args, t: Table, u: Tenant)
    requires Sane(o, t) && ArgsOwned(o, args.(cursor := None), u) && !op.Unscopable()
    requires Scoped(op, args, u).Success?
    ensures DiagramCommutes(op, args, t, u) <==> Commutes(op, args, t, u)
  {
    if op.Create? || op.CreateMany? {
      SliceDecidesIff(o, op, args, t, u);
    } else if Admits(args, u) {
      SliceDecidesIff(o, op, args, t, u);
      InSlice(t, u);
      EvalSame(op, args, Slice(t, u), u);
    } else if op.Reads() {
      ReadIff(op, args, t, u);
    } else if op.Upsert? {
      UpsertIff(o, args, t, u);
    } else {
      UniqueBySlice(o, t, u);
      WriteIff(op, args, t, u);
    }
  }

  /** The condition does fail: a filter that names another tenant still returns one's own row. */
  lemma ForeignFilterWitness()
    ensures var args := Args(Some(Where(Some(Is("b")), [])), None, None, None, None, [], None, 0, None);
            !Admits(args, "a") && !DiagramCommutes(FindMany, args, [Row(1, "a", None, map[])], "a")
  {
    var t := [Row(1, "a", None, map[])];
    var args := Args(Some(Where(Some(Is("b")), [])), None, None, None, None, [], None, 0, None);
    var w := Some(ScopedWhere(args.where, "a"));
    assert t[1..] == [] && t[..0] == [];
    assert Matching(w, t) == [t[0]] + Matching(w, []);
    assert Matching(w, t) == t;
    assert Sorted(t, []) == Placed(t[0], Sorted([], []), []) == t;
    ReadIff(FindMany, args, t, "a");
  }

  // ---------------------------------------------------------------- runs

  /** One call of the extended client on a tenant model. */
  datatype Call = Call(tenant: Tenant, op: Operation, args: Args)

  function Perform(t: Table, c: Call): (Table, Outcome) {
    Dispatch(true, Some(c.tenant), c.op, c.args, t)
  }

  function Play(t: Table, cs: seq<Call>): Table
    decreases |cs|
  {
    if cs == [] then t else Play(Perform(t, cs[0]).0, cs[1..])
  }

  /** What the tenant sees of a run: the outcomes of its own calls, in order. */
  function Seen(t: Table, cs: seq<Call>, u: Tenant): seq<Outcome>
    decreases |cs|
  {
    if cs == [] then []
    else (if cs[0].tenant == u then [Perform(t, cs[0]).1] else []) + Seen(Perform(t, cs[0]).0, cs[1..], u)
  }

  function Own(cs: seq<Call>, u: Tenant): seq<Call>
    decreases |cs|
  {
    if cs == [] then [] else if cs[0].tenant == u then [cs[0]] + Own(cs[1..], u) else Own(cs[1..], u)
  }

  /** The payloads of a call carry its tenant's own ids and keys. Its cursor may name any row. */
  predicate PayloadsOwned(o: Owners, cs: seq<Call>) {
    forall c :: c in cs ==> ArgsOwned(o, c.args.(cursor := None), c.tenant)
  }

  /** The tenant's own cursors name no row of anybody else. */
  predicate OwnCursors(o: Owners, cs: seq<Call>, u: Tenant) {
    forall c :: c in cs && c.tenant == u && c.args.cursor.Some? ==> OwnsId(o, c.args.cursor.value, u)
  }

  /** Only reads look at the cursor, and they change nothing. */
  lemma CursorIsForReads(op: Operation, args: Args, t: Table)
    ensures Eval(op, args, t).0 == Eval(op, args.(cursor := None), t).0
    ensures !op.Reads() && !op.Unscopable() ==> Eval(op, args, t) == Eval(op, args.(cursor := None), t)
  {}

  /** Whatever its cursor, a call does to the tenant's slice what it would do to it alone, and
      nothing to the rest. With a cursor of its own it also answers the same. */
  lemma PerformOnSlice(o: Owners, t: Table, c: Call)
    requires Sane(o, t) && ArgsOwned(o, c.args.(cursor := None), c.tenant)
    ensures Slice(Perform(t, c).0, c.tenant) == Perform(Slice(t, c.tenant), c).0
    ensures Rest(Perform(t, c).0, c.tenant) == Rest(t, c.tenant) && Sane(o, Perform(t, c).0)
    ensures ArgsOwned(o, c.args, c.tenant) ==> Perform(t, c).1 == Perform(Slice(t, c.tenant), c).1
  {
    var op, args, u := c.op, c.args, c.tenant;
    if u != "" && !op.Unscopable() && Scoped(op, args, u).Success? {
      var s := Scoped(op, args, u).value;
      var args' := args.(cursor := None);
      assert Scoped(op, args', u) == Success(s.(cursor := None));
      ScopedIsLocal(o, op, args', u);
      EvalOnSlice(o, op, s.(cursor := None), t, u);
      CursorIsForReads(op, s, t);
      CursorIsForReads(op, s, Slice(t, u));
      if ArgsOwned(o, args, u) {
        ScopedIsLocal(o, op, args, u);
        EvalOnSlice(o, op, s, t, u);
      }
    }
  }

  /** Somebody else's call leaves the tenant's slice as it is. */
  lemma ForeignCall(o: Owners, t: Table, c: Call, u: Tenant)
    requires Sane(o, t) && ArgsOwned(o, c.args.(cursor := None), c.tenant) && c.tenant != u
    ensures Slice(Perform(t, c).0, u) == Slice(t, u)
    ensures Sane(o, Perform(t, c).0)
  {
    PerformOnSlice(o, t, c);
    SliceOfRest(t, u, c.tenant);
    SliceOfRest(Perform(t, c).0, u, c.tenant);
  }

  lemma {:induction false} RunsAgree(o: Owners, t: Table, s: Table, cs: seq<Call>, u: Tenant)
    requires Sane(o, t) && Sane(o, s) && PayloadsOwned(o, cs) && Slice(t, u) == Slice(s, u)
    ensures Slice(Play(t, cs), u) == Slice(Play(s, Own(cs, u)), u)
    ensures OwnCursors(o, cs, u) ==> Seen(t, cs, u) == Seen(s, Own(cs, u), u)
    decreases |cs|
  {
    if cs != [] {
      var c := cs[0];
      var t' := Perform(t, c).0;
      assert c in cs && PayloadsOwned(o, cs[1..]);
      assert OwnCursors(o, cs, u) ==> OwnCursors(o, cs[1..], u);
      if c.tenant == u {
        PerformOnSlice(o, t, c);
        PerformOnSlice(o, s, c);
        assert Own(cs, u)[1..] == Own(cs[1..], u);
        RunsAgree(o, t', Perform(s, c).0, cs[1..], u);
      } else {
        ForeignCall(o, t, c, u);
        RunsAgree(o, t', s, cs[1..], u);
        assert Seen(t, cs, u) == [] + Seen(t', cs[1..], u);
      }
    }
  }

  /** Deleting every other tenant's calls from a run changes no row the tenant owns, whatever
      cursors anybody uses, and nothing it sees, as long as its own cursors name no row of
      anybody else. */
  lemma Noninterference(o: Owners, t: Table, cs: seq<Call>, u: Tenant)
    requires Sane(o, t) && PayloadsOwned(o, cs)
    ensures Slice(Play(t, cs), u) == Slice(Play(t, Own(cs, u)), u)
    ensures OwnCursors(o, cs, u) ==> Seen(t, cs, u) == Seen(t, Own(cs, u), u)
  {
    RunsAgree(o, t, t, cs, u);
  }

  /** The condition on the cursors is needed: from another tenant's row on one sees one's own
      rows, and no longer once that tenant has deleted it. */
  lemma InterferenceWitness()
    ensures var t := [Row(1, "a", None, map[]), Row(2, "b", None, map[])];
            var peek := Call("a", FindMany, Args(None, None, None, None, None, [Order("id", true)], Some(2), 0, None));
            var clear := Call("b", DeleteMany, Args(None, None, None, None, None, [], None, 0, None));
            && Seen(t, [clear, peek], "a") == [Rows([])]
            && Seen(t, Own([clear, peek], "a"), "a") == [Rows([Row(1, "a", None, map[])])]
  {
    var mine := Row(1, "a", None, map[]);
    var t := [mine, Row(2, "b", None, map[])];
    var peek := Call("a", FindMany, Args(None, None, None, None, None, [Order("id", true)], Some(2), 0, None));
    var clear := Call("b", DeleteMany, Args(None, None, None, None, None, [], None, 0, None));
    Peeks();
    Clears();
    OneSeen([mine], peek);
    OneSeen(t, peek);
    assert [clear, peek][1..] == [peek];
    assert Own([peek], "a") == [peek] by { assert [peek][1..] == []; }
    assert Own([clear, peek], "a") == Own([peek], "a");
    assert Seen(t, [clear, peek], "a") == [] + Seen([mine], [peek], "a");
  }

  lemma Peeks()
    ensures var mine := Row(1, "a", None, map[]);
            var peek := Call("a", FindMany, Args(None, None, None, None, None, [Order("id", true)], Some(2), 0, None));
            && Perform([mine, Row(2, "b", None, map[])], peek).1 == Rows([mine])
            && Perform([mine], peek).1 == Rows([])
  {
    var mine, theirs := Row(1, "a", None, map[]), Row(2, "b", None, map[]);
    CursorConditionIsNeeded();
    assert [mine, theirs][1..] == [theirs] && Slice([theirs], "a") == [];
    assert Slice([mine, theirs], "a") == [mine];
  }

  lemma Clears()
    ensures var mine := Row(1, "a", None, map[]);
            var clear := Call("b", DeleteMany, Args(None, None, None, None, None, [], None, 0, None));
            Perform([mine, Row(2, "b", None, map[])], clear).0 == [mine]
  {
    var mine, theirs := Row(1, "a", None, map[]), Row(2, "b", None, map[]);
    var w := Some(ScopedWhere(None, "b"));
    assert [mine, theirs][1..] == [theirs] && [theirs][1..] == [];
    assert RemoveAll(w, [theirs]) == RemoveAll(w, []) == [];
    assert RemoveAll(w, [mine, theirs]) == [mine];
  }

  lemma OneSeen(t: Table, c: Call)
    ensures Seen(t, [c], c.tenant) == [Perform(t, c).1]
  {
    assert [c][1..] == [] && Seen(Perform(t, c).0, [], c.tenant) == [];
  }

  lemma NewRowsError(ds: seq<Data>)
    ensures NewRows(ds).Failure? ==> NewRows(ds).error == MissingColumn
  {
    if ds != [] { NewRowsError(ds[1..]); }
  }

  /** Without a tenant in context, or through a unique lookup, a tenant model is not reached
      at all: no row comes back and nothing changes. */
  lemma FailsClosed(context: Option<Tenant>, op: Operation, args: Args, t: Table)
    ensures Dispatch(true, context, op, args, t) == (t, Refused(NoTenantContext))
            <==> context.None? || context.value == ""
    ensures context.Some? && context.value != "" ==>
              (Dispatch(true, context, op, args, t) == (t, Refused(BypassesScoping))
               <==> op in {FindUnique, FindUniqueOrThrow})
  {
    if context.Some? && Scoped(op, args, context.value).Success? {
      var s := Scoped(op, args, context.value).value;
      NewRowsError([if s.data.Some? then s.data.value else EmptyData]);
      NewRowsError([if s.create.Some? then s.create.value else EmptyData]);
      if s.list.Some? { NewRowsError(s.list.value); }
    }
  }

  /** Behind the refusals the call runs with the scoped arguments, or is refused as they are. */
  lemma DispatchRuns(u: Tenant, op: Operation, args: Args, t: Table)
    requires u != "" && op !in {FindUnique, FindUniqueOrThrow}
    ensures Scoped(op, args, u).Success? ==>
              Dispatch(true, Some(u), op, args, t) == Eval(op, Scoped(op, args, u).value, t)
    ensures Scoped(op, args, u).Failure? ==> Dispatch(true, Some(u), op, args, t) == (t, Refused(TenantMismatch))
  {}

  /** Models without a tenant pass through, in any context. */
  lemma OtherModelsPass(context: Option<Tenant>, op: Operation, args: Args, t: Table)
    ensures Dispatch(false, context, op, args, t) == Eval(op, args, t)
  {}

  // ---------------------------------------------------------------- the query language

  /** The filters by each other and by the values. */
  lemma FilterLaws(v: Value, x: Value, n: int, u: Tenant, w: Tenant)
    ensures AcceptsValue(Equals(x), v) <==> v == x
    ensures AcceptsValue(Differs(x), v) <==> !AcceptsValue(Equals(x), v)
    ensures AcceptsValue(Among([x]), v) <==> AcceptsValue(Equals(x), v)
    ensures AcceptsValue(Below(n), v) <==> v.Num? && v.n <= n - 1
    ensures AcceptsTenant(Is(u), w) <==> w == u
    ensures AcceptsTenant(OneOf([u]), w) <==> AcceptsTenant(Is(u), w)
    ensures AcceptsTenant(IsNot(u), w) <==> !AcceptsTenant(Is(u), w)
  {}

  /** And the conditions by each other. */
  lemma CondLaws(a: Where, b: Where, r: Row)
    ensures Holds(And([a, b]), r) <==> Matches(a, r) && Matches(b, r)
    ensures Holds(Or([a, b]), r) <==> Matches(a, r) || Matches(b, r)
    ensures Holds(Not(a), r) <==> !Matches(a, r)
  {
    assert [a, b][0] == a && [a, b][1] == b;
  }

  lemma {:induction false} RemoveAllIs(w: Option<Where>, t: Table)
    ensures forall r :: r in RemoveAll(w, t) <==> r in t && !Hit(w, r)
    ensures |RemoveAll(w, t)| + |Matching(w, t)| == |t|
  {
    if t != [] { RemoveAllIs(w, t[1..]); }
  }

  lemma {:induction false} WriteAllIs(w: Option<Where>, d: Option<Data>, t: Table, i: nat)
    requires i < |t|
    ensures |WriteAll(w, d, t)| == |t|
    ensures WriteAll(w, d, t)[i] == if Hit(w, t[i]) then Written(t[i], d) else t[i]
  {
    var front := [if Hit(w, t[0]) then Written(t[0], d) else t[0]];
    assert WriteAll(w, d, t) == front + WriteAll(w, d, t[1..]);
    if i > 0 {
      WriteAllIs(w, d, t[1..], i - 1);
      assert t[1..][i-1] == t[i];
    } else if |t| > 1 {
      WriteAllIs(w, d, t[1..], 0);
    }
  }

  /** `deleteMany` deletes the matching rows and counts them; `updateMany` writes over the matching
      ones, unless that violates a unique index, and counts them too. */
  lemma BulkWrites(args: Args, t: Table)
    ensures var d := Eval(DeleteMany, args, t);
            && (forall r :: r in d.0 <==> r in t && !Hit(args.where, r))
            && d.1.Counted? && d.1.n + |d.0| == |t|
    ensures var d := Eval(UpdateMany, args, t);
            if d.1.Refused? then d == (t, Refused(UniqueViolation))
            else |d.0| == |t| && d.1 == Counted(|Matching(args.where, t)|)
                 && forall i :: 0 <= i < |t| ==>
                      d.0[i] == if Hit(args.where, t[i]) then Written(t[i], args.data) else t[i]
  {
    RemoveAllIs(args.where, t);
    forall i | 0 <= i < |t|
      ensures |WriteAll(args.where, args.data, t)| == |t|
      ensures WriteAll(args.where, args.data, t)[i] == if Hit(args.where, t[i]) then Written(t[i], args.data) else t[i]
    {
      WriteAllIs(args.where, args.data, t, i);
    }
    if t == [] { assert WriteAll(args.where, args.data, t) == []; }
  }

  /** A write leaves every column the payload does not name. */
  lemma WrittenColumns(r: Row, d: Data, col: string)
    ensures var r' := Written(r, Some(d));
            && (col in r'.cols <==> col in r.cols || col in d.cols)
            && (col in d.cols ==> r'.cols[col] == d.cols[col])
            && (col in r.cols && col !in d.cols ==> r'.cols[col] == r.cols[col])
            && (d.id.None? ==> r'.id == r.id) && (d.tenantId.None? ==> r'.tenantId == r.tenantId)
  {}
}
