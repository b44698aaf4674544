/** The tenant-scope extension: a rewriting of query arguments, and the meaning of the
    arguments over a table. */
module TenantScope {
  import opened Strings
  import opened Wrappers

  type Tenant = string
  type Id = nat

  datatype Value = Null | Num(n: int) | Text(s: string)

  /** A row of a tenant model. `id` and, where the model has one, `key` are unique across tenants. */
  datatype Row = Row(id: Id, tenantId: Tenant, key: Option<string>, cols: map<string, Value>)

  type Table = seq<Row>

  // ---------------------------------------------------------------- arguments

  datatype TenantFilter = Is(t: Tenant) | OneOf(ts: seq<Tenant>) | IsNot(t: Tenant)

  datatype Filter = Equals(v: Value) | Differs(v: Value) | Among(vs: seq<Value>) | Below(n: int)
    | Contains(part: string)

  /** A `where` object: its own `tenantId` entry, if any, and everything else. */
  datatype Where = Where(tenantId: Option<TenantFilter>, conds: seq<Cond>)

  datatype Cond =
    | OnId(id: Id)
    | OnCol(name: string, f: Filter)
    | Or(any: seq<Where>)
    | And(all: seq<Where>)
    | Not(w: Where)

  /** What a payload may hold under `tenantId`. */
  datatype TenantValue = Plain(t: Tenant) | NullTenant | SetOp(t: Tenant)

  /** A `data`, `create` or `update` object. Generated ids are written out. */
  datatype Data = Data(id: Option<Id>, tenantId: Option<TenantValue>, key: Option<string>, cols: map<string, Value>)

  const EmptyData := Data(None, None, None, map[])

  datatype Order = Order(col: string, descending: bool)

  /** `list` is `data` when it is an array, which only createMany takes. */
  datatype Args = Args(
    where: Option<Where>, data: Option<Data>, list: Option<seq<Data>>, create: Option<Data>, update: Option<Data>,
    orderBy: seq<Order>, cursor: Option<Id>, skip: nat, take: Option<nat>)

  datatype Operation =
    | FindFirst | FindFirstOrThrow | FindMany | Count | Aggregate | GroupBy
    | Update | UpdateMany | Delete | DeleteMany
    | Create | CreateMany | Upsert
    | FindUnique | FindUniqueOrThrow
  {
    predicate Reads() {
      FindFirst? || FindFirstOrThrow? || FindMany? || Count? || Aggregate? || GroupBy?
    }

    predicate TakesWhere() {
      Reads() || Update? || UpdateMany? || Delete? || DeleteMany?
    }

    predicate Unscopable() { FindUnique? || FindUniqueOrThrow? }
  }

  datatype Error = TenantMismatch | NoTenantContext | BypassesScoping | NotFound | UniqueViolation | MissingColumn

  // ---------------------------------------------------------------- scopeArgs

  /** `assertTenantMatches` does not throw. */
  predicate TenantMatches(row: Option<Data>, t: Tenant) {
    row.Some? && row.value.tenantId.Some? ==> row.value.tenantId == Some(Plain(t))
  }

  function WithTenant(d: Option<Data>, t: Tenant): Data {
    (if d.Some? then d.value else EmptyData).(tenantId := Some(Plain(t)))
  }

  function ScopedWhere(w: Option<Where>, t: Tenant): Where {
    (if w.Some? then w.value else Where(None, [])).(tenantId := Some(Is(t)))
  }

  function WithTenants(ds: seq<Data>, t: Tenant): (r: seq<Data>)
    ensures |r| == |ds| && forall i :: 0 <= i < |ds| ==> r[i] == ds[i].(tenantId := Some(Plain(t)))
  {
    seq(|ds|, i requires 0 <= i < |ds| => WithTenant(Some(ds[i]), t))
  }

  /** The arguments the query runs with, or the refusal. */
  function Scoped(op: Operation, args: Args, t: Tenant): Result<Args, Error> {
    if op.TakesWhere() then
      if (op.Update? || op.UpdateMany?) && !TenantMatches(args.data, t) then Failure(TenantMismatch)
      else Success(args.(where := Some(ScopedWhere(args.where, t))))
    else if op.Create? then
      if !TenantMatches(args.data, t) then Failure(TenantMismatch)
      else Success(args.(data := Some(WithTenant(args.data, t))))
    else if op.CreateMany? then
      if args.list.None? then
        if !TenantMatches(args.data, t) then Failure(TenantMismatch)
        else Success(args.(data := Some(WithTenant(args.data, t))))
      else if exists d :: d in args.list.value && !TenantMatches(Some(d), t) then Failure(TenantMismatch)
      else Success(args.(list := Some(WithTenants(args.list.value, t))))
    else if op.Upsert? then
      if !TenantMatches(args.create, t) || !TenantMatches(args.update, t) then Failure(TenantMismatch)
      else Success(args.(where := Some(ScopedWhere(args.where, t)), create := Some(WithTenant(args.create, t))))
    else Success(args)
  }

  /** The code: a local copy of the arguments, changed entry by entry. It refuses exactly the
      payloads that it checks and that name anything but the tenant, and otherwise puts the
      tenant into the `where` or the payload and leaves the rest alone. */
  method ScopeArgs(op: Operation, args: Args, tenantId: Tenant) returns (r: Result<Args, Error>)
    ensures r == Scoped(op, args, tenantId)
    ensures r.Failure? <==>
      || ((op in {Update, UpdateMany, Create} || (op == CreateMany && args.list.None?))
          && args.data.Some? && args.data.value.tenantId.Some? && args.data.value.tenantId.value != Plain(tenantId))
      || (op == CreateMany && args.list.Some?
          && exists d :: d in args.list.value && d.tenantId.Some? && d.tenantId.value != Plain(tenantId))
      || (op == Upsert && args.create.Some? && args.create.value.tenantId.Some?
          && args.create.value.tenantId.value != Plain(tenantId))
      || (op == Upsert && args.update.Some? && args.update.value.tenantId.Some?
          && args.update.value.tenantId.value != Plain(tenantId))
    ensures r.Failure? ==> r.error == TenantMismatch
    ensures r.Success? ==>
      if op in {FindFirst, FindFirstOrThrow, FindMany, Count, Aggregate, GroupBy,
                Update, UpdateMany, Delete, DeleteMany, Upsert}
      then r.value.where == Some(Where(Some(Is(tenantId)), if args.where.Some? then args.where.value.conds else []))
      else r.value.where == args.where
    ensures r.Success? ==>
      if op == Create || (op == CreateMany && args.list.None?)
      then r.value.data.Some? && r.value.data.value.tenantId == Some(Plain(tenantId))
           && r.value.data.value == (if args.data.Some? then args.data.value else Data(None, None, None, map[])).(
                tenantId := Some(Plain(tenantId)))
      else r.value.data == args.data
    ensures r.Success? ==>
      if op == CreateMany && args.list.Some?
      then r.value.list.Some? && |r.value.list.value| == |args.list.value|
           && forall i :: 0 <= i < |args.list.value| ==>
                r.value.list.value[i] == args.list.value[i].(tenantId := Some(Plain(tenantId)))
      else r.value.list == args.list
    ensures r.Success? ==>
      if op == Upsert
      then r.value.create == Some((if args.create.Some? then args.create.value else Data(None, None, None, map[])).(
                                  tenantId := Some(Plain(tenantId))))
      else r.value.create == args.create
    ensures r.Success? ==> r.value.update == args.update && r.value.orderBy == args.orderBy
                           && r.value.cursor == args.cursor && r.value.skip == args.skip && r.value.take == args.take
  {
    var scoped := args;
    if op.TakesWhere() {
      var where := if scoped.where.Some? then scoped.where.value else Where(None, []);
      scoped := scoped.(where := Some(where.(tenantId := Some(Is(tenantId)))));
      if op.Update? || op.UpdateMany? {
        if !TenantMatches(scoped.data, tenantId) { return Failure(TenantMismatch); }
      }
    } else if op.Create? {
      if !TenantMatches(scoped.data, tenantId) { return Failure(TenantMismatch); }
      scoped := scoped.(data := Some(WithTenant(scoped.data, tenantId)));
    } else if op.CreateMany? {
      if scoped.list.Some? {
        var rows := scoped.list.value;
        var i := 0;
        var tagged: seq<Data> := [];
        while i < |rows|
          invariant 0 <= i <= |rows| && tagged == WithTenants(rows[..i], tenantId)
          invariant forall d :: d in rows[..i] ==> TenantMatches(Some(d), tenantId)
        {
          if !TenantMatches(Some(rows[i]), tenantId) { return Failure(TenantMismatch); }
          tagged := tagged + [WithTenant(Some(rows[i]), tenantId)];
          assert rows[..i+1] == rows[..i] + [rows[i]];
          i := i + 1;
        }
        assert rows[..i] == rows;
        scoped := scoped.(list := Some(tagged));
      } else {
        if !TenantMatches(scoped.data, tenantId) { return Failure(TenantMismatch); }
        scoped := scoped.(data := Some(WithTenant(scoped.data, tenantId)));
      }
    } else if op.Upsert? {
      scoped := scoped.(where := Some(ScopedWhere(scoped.where, tenantId)));
      if !TenantMatches(scoped.create, tenantId) { return Failure(TenantMismatch); }
      scoped := scoped.(create := Some(WithTenant(scoped.create, tenantId)));
      if !TenantMatches(scoped.update, tenantId) { return Failure(TenantMismatch); }
    }
    return Success(scoped);
  }

  // ---------------------------------------------------------------- meaning

  predicate AcceptsTenant(f: TenantFilter, t: Tenant) {
    match f
    case Is(u) => t == u
    case OneOf(us) => t in us
    case IsNot(u) => t != u
  }

  predicate AcceptsValue(f: Filter, v: Value) {
    match f
    case Equals(x) => v == x
    case Differs(x) => v != x
    case Among(xs) => v in xs
    case Below(n) => v.Num? && v.n < n
    case Contains(part) => v.Text? && ContainsIgnoringCase(v.s, part)
  }

  predicate Matches(w: Where, r: Row)
    decreases w
  {
    && (w.tenantId.Some? ==> AcceptsTenant(w.tenantId.value, r.tenantId))
    && (forall c | c in w.conds :: Holds(c, r))
  }

  predicate Holds(c: Cond, r: Row)
    decreases c
  {
    match c
    case OnId(id) => r.id == id
    case OnCol(name, f) => AcceptsValue(f, if name in r.cols then r.cols[name] else Null)
    case Or(ws) => exists w | w in ws :: Matches(w, r)
    case And(ws) => forall w | w in ws :: Matches(w, r)
    case Not(w) => !Matches(w, r)
  }

  predicate Hit(w: Option<Where>, r: Row) {
    w.Some? ==> Matches(w.value, r)
  }

  function Matching(w: Option<Where>, t: Table): Table {
    if t == [] then [] else if Hit(w, t[0]) then [t[0]] + Matching(w, t[1..]) else Matching(w, t[1..])
  }

  /** The row with the payload's entries written over it. */
  function Written(r: Row, d: Option<Data>): Row {
    if d.None? then r
    else Row(
      if d.value.id.Some? then d.value.id.value else r.id,
      if d.value.tenantId.Some? && !d.value.tenantId.value.NullTenant? then d.value.tenantId.value.t else r.tenantId,
      if d.value.key.Some? then d.value.key else r.key,
      r.cols + d.value.cols)
  }

  function WriteAll(w: Option<Where>, d: Option<Data>, t: Table): Table {
    if t == [] then [] else [if Hit(w, t[0]) then Written(t[0], d) else t[0]] + WriteAll(w, d, t[1..])
  }

  function WriteFirst(w: Option<Where>, d: Option<Data>, t: Table): Table {
    if t == [] then []
    else if Hit(w, t[0]) then [Written(t[0], d)] + t[1..]
    else [t[0]] + WriteFirst(w, d, t[1..])
  }

  function RemoveAll(w: Option<Where>, t: Table): Table {
    if t == [] then [] else if Hit(w, t[0]) then RemoveAll(w, t[1..]) else [t[0]] + RemoveAll(w, t[1..])
  }

  function RemoveFirst(w: Option<Where>, t: Table): Table {
    if t == [] then [] else if Hit(w, t[0]) then t[1..] else [t[0]] + RemoveFirst(w, t[1..])
  }

  predicate Clash(a: Row, b: Row) {
    a.id == b.id || (a.key.Some? && a.key == b.key)
  }

  /** The unique indexes hold. */
  predicate Unique(t: Table) {
    t == [] || ((forall r | r in t[1..] :: !Clash(t[0], r)) && Unique(t[1..]))
  }

  /** The row a create payload stands for; required columns must be there. */
  function NewRow(d: Data): Result<Row, Error> {
    if d.id.None? || d.tenantId.None? || d.tenantId.value.NullTenant? then Failure(MissingColumn)
    else Success(Row(d.id.value, d.tenantId.value.t, d.key, d.cols))
  }

  function NewRows(ds: seq<Data>): Result<Table, Error> {
    if ds == [] then Success([])
    else
      var r := NewRow(ds[0]);
      var rest := NewRows(ds[1..]);
      if r.Failure? then Failure(r.error) else if rest.Failure? then Failure(rest.error)
      else Success([r.value] + rest.value)
  }

  // ------------------------------------------------- order, cursor, skip and take

  /** PostgreSQL puts nulls last when ascending. */
  predicate ValueLess(a: Value, b: Value) {
    match (a, b)
    case (Null, _) => false
    case (_, Null) => true
    case (Num(x), Num(y)) => x < y
    case (Num(_), Text(_)) => true
    case (Text(x), Text(y)) => TextLess(x, y)
    case (_, _) => false
  }

  predicate TextLess(a: string, b: string) {
    if b == "" then false else if a == "" then true
    else a[0] < b[0] || (a[0] == b[0] && TextLess(a[1..], b[1..]))
  }

  function Cell(r: Row, col: string): Value {
    if col == "id" then Num(r.id) else if col in r.cols then r.cols[col] else Null
  }

  predicate RowLess(a: Row, b: Row, keys: seq<Order>) {
    if keys == [] then false
    else
      var x, y := Cell(a, keys[0].col), Cell(b, keys[0].col);
      if x == y then RowLess(a, b, keys[1..])
      else if keys[0].descending then ValueLess(y, x) else ValueLess(x, y)
  }

  function Placed(r: Row, t: Table, keys: seq<Order>): Table {
    if t == [] then [r] else if RowLess(r, t[0], keys) then [r] + t else [t[0]] + Placed(r, t[1..], keys)
  }

  function Sorted(t: Table, keys: seq<Order>): Table {
    if t == [] then [] else Placed(t[|t|-1], Sorted(t[..|t|-1], keys), keys)
  }

  function FindId(t: Table, id: Id): Option<Row> {
    if t == [] then None else if t[0].id == id then Some(t[0]) else FindId(t[1..], id)
  }

  lemma FindIdIn(t: Table, id: Id)
    ensures FindId(t, id).Some? ==> FindId(t, id).value in t && FindId(t, id).value.id == id
    ensures FindId(t, id).None? ==> forall r :: r in t ==> r.id != id
  {
    if t != [] { FindIdIn(t[1..], id); }
  }

  function NotBefore(t: Table, c: Row, keys: seq<Order>): Table {
    if t == [] then [] else if RowLess(t[0], c, keys) then NotBefore(t[1..], c, keys)
    else [t[0]] + NotBefore(t[1..], c, keys)
  }

  /** The rows from the cursor row on, which is looked up in the whole table. */
  function From(sorted: Table, t: Table, cursor: Option<Id>, keys: seq<Order>): Table {
    if cursor.None? then sorted
    else
      var c := FindId(t, cursor.value);
      if c.None? then [] else NotBefore(sorted, c.value, keys)
  }

  function SkipTake(rows: Table, skip: nat, take: Option<nat>): Table {
    var rest := if skip <= |rows| then rows[skip..] else [];
    if take.Some? && take.value <= |rest| then rest[..take.value] else rest
  }

  /** The page of the matched rows. */
  function Window(matched: Table, t: Table, args: Args): Table {
    SkipTake(From(Sorted(matched, args.orderBy), t, args.cursor, args.orderBy), args.skip, args.take)
  }

  datatype Outcome = Rows(rows: seq<Row>) | One(row: Option<Row>) | Counted(n: nat) | Refused(error: Error)

  function Settle(t: Table, t': Table, out: Outcome): (Table, Outcome) {
    if Unique(t') then (t', out) else (t, Refused(UniqueViolation))
  }

  function Insert(t: Table, ds: seq<Data>, single: bool): (Table, Outcome) {
    var rows := NewRows(ds);
    if rows.Failure? then (t, Refused(rows.error))
    else Settle(t, t + rows.value, if single && |rows.value| > 0 then One(Some(rows.value[0]))
      else Counted(|rows.value|))
  }

  function First(t: Table): Option<Row> {
    if t == [] then None else Some(t[0])
  }

  /** What the database does with the arguments. Aggregates are represented by the rows they
      range over. */
  function Eval(op: Operation, args: Args, t: Table): (Table, Outcome) {
    var matched := Matching(args.where, t);
    var page := Window(matched, t, args);
    match op
    case FindFirst => (t, One(First(page)))
    case FindFirstOrThrow => (t, if page == [] then Refused(NotFound) else One(First(page)))
    case FindMany => (t, Rows(page))
    case Count => (t, Counted(|page|))
    case Aggregate => (t, Rows(page))
    case GroupBy => (t, Rows(page))
    case Update =>
      if matched == [] then (t, Refused(NotFound))
      else Settle(t, WriteFirst(args.where, args.data, t), One(Some(Written(matched[0], args.data))))
    case UpdateMany => Settle(t, WriteAll(args.where, args.data, t), Counted(|matched|))
    case Delete =>
      if matched == [] then (t, Refused(NotFound)) else (RemoveFirst(args.where, t), One(Some(matched[0])))
    case DeleteMany => (RemoveAll(args.where, t), Counted(|matched|))
    case Create => Insert(t, [if args.data.Some? then args.data.value else EmptyData], true)
    case CreateMany =>
      Insert(t, if args.list.Some? then args.list.value
        else [if args.data.Some? then args.data.value else EmptyData], false)
    case Upsert =>
      if matched == [] then Insert(t, [if args.create.Some? then args.create.value else EmptyData], true)
      else Settle(t, WriteFirst(args.where, args.update, t), One(Some(Written(matched[0], args.update))))
    case FindUnique => (t, One(First(page)))
    case FindUniqueOrThrow => (t, if page == [] then Refused(NotFound) else One(First(page)))
  }

  /** The hook around every operation of the extended client. An empty tenant id counts as
      no context. */
  function Dispatch(tenantModel: bool, context: Option<Tenant>, op: Operation, args: Args, t: Table): (Table, Outcome) {
    if !tenantModel then Eval(op, args, t)
    else if context.None? || context.value == "" then (t, Refused(NoTenantContext))
    else if op.Unscopable() then (t, Refused(BypassesScoping))
    else
      var scoped := Scoped(op, args, context.value);
      if scoped.Failure? then (t, Refused(scoped.error)) else Eval(op, scoped.value, t)
  }
}
