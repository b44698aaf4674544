/** How far the soft cap on in-flight audits can be overshot. */
module AuditCap {
  import opened Sets
  import opened AuditProtocol
  import opened AuditInvariant
  import opened AuditSafety
  import opened AuditDeadline

  /** The creators of a tenant that are past the count and before the create. */
  function Counting(w: World, t: Tenant): set<Actor> {
    set a | a in w.actors && w.actors[a].Counted? && w.actors[a].request.tenant == t
  }

  /** At most `k` creators of the tenant are between count and create in any state of the run. */
  predicate Crowd(w: World, steps: seq<Step>, t: Tenant, k: nat)
    decreases |steps|
  {
    |Counting(w, t)| <= k && (steps == [] || Crowd(Next(w, steps[0]), steps[1..], t, k))
  }

  ghost predicate Capped(w: World, t: Tenant, k: nat) {
    |InFlight(w, t)| + |Counting(w, t)| <= MAX_INFLIGHT_PER_TENANT - 1 + k
  }

  /** The audit a step puts in flight for the tenant, if any. */
  function Added(w: World, s: Step, t: Tenant): set<Id> {
    if s.Create? && s.actor in Counting(w, t) then {s.id} else {}
  }

  /** Only a create puts an audit in flight. */
  lemma InFlightAfter(w: World, s: Step, t: Tenant)
    requires Inv(w)
    ensures InFlight(Next(w, s), t) <= InFlight(w, t) + Added(w, s, t)
    ensures |InFlight(Next(w, s), t)| <= |InFlight(w, t)| + |Added(w, s, t)|
  {
    forall id | id in InFlight(Next(w, s), t) ensures id in InFlight(w, t) + Added(w, s, t) { RowAfter(w, s, id); }
    SubsetSize(InFlight(Next(w, s), t), InFlight(w, t) + Added(w, s, t));
  }

  /** Only a count that passes adds a creator, and its create takes it away again. */
  lemma CountingAfter(w: World, s: Step, t: Tenant)
    ensures Counting(Next(w, s), t) <= Counting(w, t)
            || (s.Count? && s.request.tenant == t && |InFlight(w, t)| < MAX_INFLIGHT_PER_TENANT)
    ensures s.Create? && s.id !in w.h.made ==> s.actor !in Counting(Next(w, s), t)
  {}

  lemma NextKeepsCapped(w: World, s: Step, t: Tenant, k: nat)
    requires Inv(w) && Capped(w, t, k) && |Counting(Next(w, s), t)| <= k
    ensures Capped(Next(w, s), t, k)
  {
    var w' := Next(w, s);
    InFlightAfter(w, s, t);
    CountingAfter(w, s, t);
    if Counting(w', t) <= Counting(w, t) {
      SubsetSize(Counting(w', t), Counting(w, t));
      if s.Create? && s.actor in Counting(w, t) && s.id !in w.h.made {
        SubsetSize(Counting(w', t), Counting(w, t) - {s.actor});
      } else if s.Create? && s.id in w.h.made {
        assert w' == w;
      }
    }
  }

  lemma {:induction false} RunKeepsCapped(w: World, steps: seq<Step>, t: Tenant, k: nat)
    requires Inv(w) && Capped(w, t, k) && Crowd(w, steps, t, k)
    ensures Capped(Run(w, steps), t, k)
    decreases |steps|
  {
    if steps != [] {
      NextKeepsCapped(w, steps[0], t, k);
      NextKeepsInv(w, steps[0]);
      RunKeepsCapped(Next(w, steps[0]), steps[1..], t, k);
    }
  }

  /** With at most `k` creators of a tenant between the count and the create, its audits in
      flight and those creators together never exceed the cap by more than `k - 1`. */
  lemma BoundedOvershoot(w0: World, steps: seq<Step>, t: Tenant, k: nat)
    requires Init(w0) && Crowd(w0, steps, t, k)
    ensures |InFlight(Run(w0, steps), t)| + |Counting(Run(w0, steps), t)| <= 4 + k
  {
    InitInv(w0);
    assert InFlight(w0, t) == {} && Counting(w0, t) == {};
    RunKeepsCapped(w0, steps, t, k);
  }

  /** The cap is exact for creators that do not overlap. */
  lemma CapIsExactWithoutOverlap(w0: World, steps: seq<Step>, t: Tenant)
    requires Init(w0) && Crowd(w0, steps, t, 1)
    ensures |set id | id in Run(w0, steps).rows && Run(w0, steps).rows[id].request.tenant == t
                      && Run(w0, steps).rows[id].status in {PENDING, PROCESSING}| <= 5
  {
    BoundedOvershoot(w0, steps, t, 1);
    assert InFlight(Run(w0, steps), t) ==
      set id | id in Run(w0, steps).rows && Run(w0, steps).rows[id].request.tenant == t
               && Run(w0, steps).rows[id].status in {PENDING, PROCESSING};
  }

  // ---------------------------------------------------------------- the bound is attained

  lemma {:induction false} RunCrowdConcat(w: World, a: seq<Step>, b: seq<Step>, t: Tenant, k: nat)
    requires Crowd(w, a, t, k) && Crowd(Run(w, a), b, t, k)
    ensures Run(w, a + b) == Run(Run(w, a), b) && Crowd(w, a + b, t, k)
    decreases |a|
  {
    if a == [] {
      assert a + b == b;
    } else {
      assert (a + b)[0] == a[0] && (a + b)[1..] == a[1..] + b;
      RunCrowdConcat(Next(w, a[0]), a[1..], b, t, k);
    }
  }

  /** The first `n` actors created the first `n` audits, the next `m` are past the count. */
  ghost predicate Busy(w: World, q: Request, n: nat, m: nat) {
    && (forall id: Id :: id in w.h.made <==> id < n)
    && (forall id: Id :: id in w.rows <==> id < n)
    && (forall id :: id in w.rows ==> w.rows[id].request == q && w.rows[id].status == PENDING)
    && (forall a: Actor :: a in w.actors <==> a < n + m)
    && (forall a :: a in w.actors && a < n ==> w.actors[a] == Created(a))
    && (forall a :: a in w.actors && n <= a ==> w.actors[a] == Counted(q))
  }

  lemma Below(s: set<nat>, lo: nat, hi: nat)
    requires lo <= hi && forall x :: x in s <==> lo <= x < hi
    ensures |s| == hi - lo
    decreases hi - lo
  {
    if lo < hi { Below(s - {lo}, lo + 1, hi); } else { assert s == {}; }
  }

  lemma BusySizes(w: World, q: Request, n: nat, m: nat)
    requires Busy(w, q, n, m)
    ensures |InFlight(w, q.tenant)| == n && |Counting(w, q.tenant)| == m
  {
    Below(InFlight(w, q.tenant), 0, n);
    Below(Counting(w, q.tenant), n, n + m);
  }

  lemma OneStep(w: World, s: Step, t: Tenant, k: nat)
    requires |Counting(w, t)| <= k && |Counting(Next(w, s), t)| <= k
    ensures Run(w, [s]) == Next(w, s) && Crowd(w, [s], t, k)
  {
    assert [s][1..] == [];
    assert Run(w, [s]) == Run(Next(w, s), []);
  }

  /** One more creator passes the count. */
  lemma CountOne(w: World, q: Request, n: nat, m: nat, k: nat)
    requires Busy(w, q, n, m) && n < MAX_INFLIGHT_PER_TENANT && m < k
    ensures Run(w, [Count(n + m, q)]) == Next(w, Count(n + m, q)) && Crowd(w, [Count(n + m, q)], q.tenant, k)
    ensures Busy(Next(w, Count(n + m, q)), q, n, m + 1)
  {
    BusySizes(w, q, n, m);
    assert Busy(Next(w, Count(n + m, q)), q, n, m + 1);
    BusySizes(Next(w, Count(n + m, q)), q, n, m + 1);
    OneStep(w, Count(n + m, q), q.tenant, k);
  }

  /** The oldest creator past the count creates its audit. */
  lemma CreateOne(w: World, q: Request, n: nat, m: nat, k: nat)
    requires Busy(w, q, n, m) && 0 < m <= k
    ensures Run(w, [Create(n, n)]) == Next(w, Create(n, n)) && Crowd(w, [Create(n, n)], q.tenant, k)
    ensures Busy(Next(w, Create(n, n)), q, n + 1, m - 1)
  {
    BusySizes(w, q, n, m);
    assert Busy(Next(w, Create(n, n)), q, n + 1, m - 1);
    BusySizes(Next(w, Create(n, n)), q, n + 1, m - 1);
    OneStep(w, Create(n, n), q.tenant, k);
  }

  /** From `n < 5` audits in flight, `k` creators can all get past the count. */
  lemma {:induction false} CountMany(w: World, q: Request, n: nat, m: nat, k: nat) returns (steps: seq<Step>)
    requires Busy(w, q, n, m) && n < MAX_INFLIGHT_PER_TENANT && m <= k
    ensures Crowd(w, steps, q.tenant, k) && Busy(Run(w, steps), q, n, k)
    decreases k - m
  {
    if m == k {
      BusySizes(w, q, n, m);
      steps := [];
    } else {
      CountOne(w, q, n, m, k);
      var rest := CountMany(Next(w, Count(n + m, q)), q, n, m + 1, k);
      steps := [Count(n + m, q)] + rest;
      RunCrowdConcat(w, [Count(n + m, q)], rest, q.tenant, k);
    }
  }

  lemma {:induction false} CreateMany(w: World, q: Request, n: nat, m: nat, k: nat) returns (steps: seq<Step>)
    requires Busy(w, q, n, m) && m <= k
    ensures Crowd(w, steps, q.tenant, k) && Busy(Run(w, steps), q, n + m, 0)
    decreases m
  {
    if m == 0 {
      BusySizes(w, q, n, m);
      steps := [];
    } else {
      CreateOne(w, q, n, m, k);
      var rest := CreateMany(Next(w, Create(n, n)), q, n + 1, m - 1, k);
      steps := [Create(n, n)] + rest;
      RunCrowdConcat(w, [Create(n, n)], rest, q.tenant, k);
    }
  }

  lemma FillOne(w: World, q: Request, n: nat, k: nat) returns (steps: seq<Step>)
    requires Busy(w, q, n, 0) && n < MAX_INFLIGHT_PER_TENANT && k >= 1
    ensures Crowd(w, steps, q.tenant, k) && Busy(Run(w, steps), q, n + 1, 0)
  {
    var count, create := [Count(n, q)], [Create(n, n)];
    CountOne(w, q, n, 0, k);
    var w1 := Run(w, count);
    assert Busy(w1, q, n, 1);
    CreateOne(w1, q, n, 1, k);
    assert Busy(Run(w1, create), q, n + 1, 0);
    RunCrowdConcat(w, count, create, q.tenant, k);
    steps := count + create;
  }

  /** Creators one at a time, up to one below the cap. */
  lemma {:induction false} FillSerially(w: World, q: Request, n: nat, k: nat) returns (steps: seq<Step>)
    requires Busy(w, q, n, 0) && n < MAX_INFLIGHT_PER_TENANT && k >= 1
    ensures Crowd(w, steps, q.tenant, k) && Busy(Run(w, steps), q, MAX_INFLIGHT_PER_TENANT - 1, 0)
    decreases MAX_INFLIGHT_PER_TENANT - n
  {
    if n == MAX_INFLIGHT_PER_TENANT - 1 {
      BusySizes(w, q, n, 0);
      steps := [];
    } else {
      var one := FillOne(w, q, n, k);
      var rest := FillSerially(Run(w, one), q, n + 1, k);
      RunCrowdConcat(w, one, rest, q.tenant, k);
      steps := one + rest;
    }
  }

  /** The bound is tight: `k` overlapping creators can put 4 + k audits in flight, so the
      cap of 5 fails as soon as two creators overlap. */
  lemma OvershootIsAttained(w0: World, q: Request, k: nat) returns (steps: seq<Step>)
    requires Init(w0) && k >= 1
    ensures Crowd(w0, steps, q.tenant, k)
    ensures |InFlight(Run(w0, steps), q.tenant)| == 4 + k
  {
    var n := MAX_INFLIGHT_PER_TENANT - 1;
    assert w0.h.made.Keys == {} && w0.rows.Keys == {} && w0.actors.Keys == {};
    assert Busy(w0, q, 0, 0);
    var fill := FillSerially(w0, q, 0, k);
    var w1 := Run(w0, fill);
    var count := CountMany(w1, q, n, 0, k);
    var w2 := Run(w1, count);
    var create := CreateMany(w2, q, n, k, k);
    RunCrowdConcat(w1, count, create, q.tenant, k);
    RunCrowdConcat(w0, fill, count + create, q.tenant, k);
    steps := fill + (count + create);
    BusySizes(Run(w2, create), q, n + k, 0);
  }
}
