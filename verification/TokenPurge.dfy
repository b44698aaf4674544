/** The daily purge, seen from the callers: with each call taken as atomic, a table that is
    purged and one that never is give the same answers. TokenCleaning takes the calls apart. */
module TokenPurge {
  import opened Wrappers
  import opened Sets
  import opened TokenStore
  import P = TokenProtocol

  datatype Answer = Accepted(minted: Token) | Rejected | Done

  /** `Vacuum` deletes expired rows only; `Purge` is the scheduled job. */
  datatype Request =
    | SignIn(user: User, minted: Token)
    | Refresh(token: Token, minted: Token)
    | SignOut(token: Token)
    | Vacuum
    | Purge
    | Tick(ms: nat)
    | SetInactive(user: User, inactive: bool)

  /** `issue`: a duplicate token hash violates the unique index. */
  function Issue(s: Store, u: User, minted: Token): (Store, Answer) {
    if minted in s.rows then (s, Rejected) else (s.Insert(minted, u), Accepted(minted))
  }

  /** `rotate` with nothing in between its awaits. */
  function Rotate(s: Store, t: Token, minted: Token): (Store, Answer) {
    if t !in s.rows || s.rows[t].Expired(s.now) then (s, Rejected)
    else if !s.rows[t].Live() then (s.RevokeAll(s.rows[t].user), Rejected)
    else if s.rows[t].user in s.inactive then (s, Rejected)
    else Issue(s.Claim(t), s.rows[t].user, minted)
  }

  function DropExpired(s: Store): Store {
    s.(rows := map t | t in s.rows && !s.rows[t].Expired(s.now) :: s.rows[t])
  }

  function Serve(s: Store, r: Request): (Store, Answer) {
    match r
    case SignIn(u, m) => Issue(s, u, m)
    case Refresh(t, m) => Rotate(s, t, m)
    case SignOut(t) => (s.Claim(t), Done)
    case Vacuum => (DropExpired(s), Done)
    case Purge => (s.Purge(), Done)
    case Tick(ms) => (s.(now := s.now + ms), Done)
    case SetInactive(u, b) => (s.(inactive := if b then s.inactive + {u} else s.inactive - {u}), Done)
  }

  /** The same request on a table nobody cleans. */
  function ServeUncleaned(s: Store, r: Request): (Store, Answer) {
    if r.Vacuum? || r.Purge? then (s, Done) else Serve(s, r)
  }

  function Answers(s: Store, rs: seq<Request>): seq<Answer>
    decreases |rs|
  {
    if rs == [] then [] else [Serve(s, rs[0]).1] + Answers(Serve(s, rs[0]).0, rs[1..])
  }

  function AnswersUncleaned(s: Store, rs: seq<Request>): seq<Answer>
    decreases |rs|
  {
    if rs == [] then [] else [ServeUncleaned(s, rs[0]).1] + AnswersUncleaned(ServeUncleaned(s, rs[0]).0, rs[1..])
  }

  // ---------------------------------------------------------- atomic = one run

  /** The atomic call is the protocol's call with nothing in between its steps. */
  lemma RotateIsRun(w: P.World, c: P.Call, t: Token, minted: Token)
    requires P.Inv(w) && c !in w.calls && P.Fresh(w, minted)
    ensures var end := P.Run(w, [P.Look(c, t), P.Check(c), P.RevokeFamily(c), P.Claim(c), P.Create(c, minted)]);
            && end.store == Rotate(w.store, t, minted).0 && end.calls == w.calls
            && Rotate(w.store, t, minted).1 == if minted in end.store.rows then Accepted(minted) else Rejected
  {
    var steps := [P.Look(c, t), P.Check(c), P.RevokeFamily(c), P.Claim(c), P.Create(c, minted)];
    var w1 := P.Next(w, steps[0]);
    var w2 := P.Next(w1, steps[1]);
    var w3 := P.Next(w2, steps[2]);
    var w4 := P.Next(w3, steps[3]);
    var w5 := P.Next(w4, steps[4]);
    assert P.Run(w, steps) == w5 by {
      assert steps[1..][1..] == steps[2..] && steps[2..][1..] == steps[3..] && steps[3..][1..] == steps[4..] &&
        steps[4..][1..] == [];
      assert P.Run(w3, steps[3..]) == P.Run(w4, steps[4..]) == P.Run(w5, []);
      assert P.Run(w1, steps[1..]) == P.Run(w2, steps[2..]) == P.Run(w3, steps[3..]);
    }
    assert minted in w.store.rows ==> P.RowOk(w, minted);
    assert w1.calls - {c} == w.calls;
    if t in w.store.rows && !w.store.rows[t].Expired(w.store.now) && w.store.rows[t].Live()
       && w.store.rows[t].user !in w.store.inactive {
      assert w2.calls[c] == P.Claiming(t, w.store.rows[t].user);
      assert w4.calls[c] == P.Claimed(t, w.store.rows[t].user);
      assert w5.calls == w.calls;
    } else if t in w.store.rows && !w.store.rows[t].Expired(w.store.now) && !w.store.rows[t].Live() {
      assert w2.calls[c] == P.Revoking(w.store.rows[t].user);
      assert w3.calls == w.calls;
    }
  }

  // ---------------------------------------------------------- simulation

  /** A row the cleaned table may lack. */
  predicate Droppable(r: Row, now: int, purged: bool) {
    r.Expired(now) || (purged && r.LongRevoked(now))
  }

  /** The cleaned table is the uncleaned one less rows that no longer matter. */
  ghost predicate Similar(clean: Store, full: Store, purged: bool) {
    && clean.now == full.now && clean.ttlDays == full.ttlDays && clean.inactive == full.inactive
    && (forall t :: t in clean.rows ==> t in full.rows && clean.rows[t] == full.rows[t])
    && (forall t :: t in full.rows && t !in clean.rows ==> Droppable(full.rows[t], full.now, purged))
  }

  /** The request mints a token that was never stored, and does not present one that
      was revoked more than the grace period ago. */
  predicate Regular(full: Store, r: Request, purged: bool) {
    match r
    case SignIn(_, m) => m !in full.rows
    case Refresh(t, m) =>
      m !in full.rows &&
      (purged && t in full.rows && full.rows[t].LongRevoked(full.now) ==> full.rows[t].Expired(full.now))
    case Purge => purged
    case _ => true
  }

  predicate RegularRun(full: Store, rs: seq<Request>, purged: bool)
    decreases |rs|
  {
    rs == [] || (Regular(full, rs[0], purged) && RegularRun(ServeUncleaned(full, rs[0]).0, rs[1..], purged))
  }

  lemma ServeSimilar(clean: Store, full: Store, r: Request, purged: bool)
    requires Similar(clean, full, purged) && Regular(full, r, purged)
    ensures Serve(clean, r).1 == ServeUncleaned(full, r).1
    ensures Similar(Serve(clean, r).0, ServeUncleaned(full, r).0, purged)
  {}

  lemma {:induction false} RunSimilar(clean: Store, full: Store, rs: seq<Request>, purged: bool)
    requires Similar(clean, full, purged) && RegularRun(full, rs, purged)
    ensures Answers(clean, rs) == AnswersUncleaned(full, rs)
    decreases |rs|
  {
    if rs != [] {
      ServeSimilar(clean, full, rs[0], purged);
      RunSimilar(Serve(clean, rs[0]).0, ServeUncleaned(full, rs[0]).0, rs[1..], purged);
    }
  }

  predicate FreshRun(full: Store, rs: seq<Request>)
    decreases |rs|
  {
    rs == [] ||
    (!rs[0].Purge? && (rs[0].SignIn? || rs[0].Refresh? ==> rs[0].minted !in full.rows)
     && FreshRun(ServeUncleaned(full, rs[0]).0, rs[1..]))
  }

  lemma FreshIsRegular(full: Store, rs: seq<Request>)
    requires FreshRun(full, rs)
    ensures RegularRun(full, rs, false)
    decreases |rs|
  {
    if rs != [] { FreshIsRegular(ServeUncleaned(full, rs[0]).0, rs[1..]); }
  }

  /** Deleting expired rows, at any moments, never changes an answer. */
  lemma VacuumIsUnobservable(s: Store, rs: seq<Request>)
    requires FreshRun(s, rs)
    ensures Answers(s, rs) == AnswersUncleaned(s, rs)
  {
    FreshIsRegular(s, rs);
    RunSimilar(s, s, rs, false);
  }

  /** The scheduled purge never changes an answer on runs that do not present a token
      revoked more than seven days before. */
  lemma PurgeIsUnobservable(s: Store, rs: seq<Request>)
    requires RegularRun(s, rs, true)
    ensures Answers(s, rs) == AnswersUncleaned(s, rs)
  {
    RunSimilar(s, s, rs, true);
  }

  /** Reuse of this token would take a usable session away, and the purge drops its row. */
  ghost predicate ForgottenReuse(s: Store, t: Token) {
    && t in s.rows && s.rows[t].LongRevoked(s.now) && !s.rows[t].Expired(s.now)
    && exists x :: s.LiveToken(x) && s.rows[x].user == s.rows[t].user && !s.rows[x].Expired(s.now)
  }

  lemma UnforgottenStaySimilar(s: Store, t: Token, minted: Token)
    requires minted !in s.rows && !ForgottenReuse(s, t)
    ensures Similar(Rotate(s.Purge(), t, minted).0, Rotate(s, t, minted).0, true)
  {
    if t in s.rows && s.rows[t].LongRevoked(s.now) && !s.rows[t].Expired(s.now) {
      assert forall x :: s.LiveToken(x) && s.rows[x].user == s.rows[t].user ==> s.rows[x].Expired(s.now);
    } else {
      ServeSimilar(s.Purge(), s, Refresh(t, minted), true);
    }
  }

  ghost predicate TellsApart(rs: seq<Request>, clean: Store, full: Store) {
    RegularRun(full, rs, true) && Answers(clean, rs) != AnswersUncleaned(full, rs)
  }

  /** The condition is exact: presenting a token right after the purge can be told from
      presenting it without one, by some later regular calls, just when the purge dropped
      an unexpired revoked row whose owner still had a usable token. */
  lemma PurgeObservableIff(s: Store, t: Token, minted: Token)
    requires minted !in s.rows
    ensures var clean := Rotate(s.Purge(), t, minted).0; var full := Rotate(s, t, minted).0;
            (exists rs :: TellsApart(rs, clean, full)) <==> ForgottenReuse(s, t)
  {
    var clean := Rotate(s.Purge(), t, minted).0;
    var full := Rotate(s, t, minted).0;
    if ForgottenReuse(s, t) {
      var u := s.rows[t].user;
      var x :| s.LiveToken(x) && s.rows[x].user == u && !s.rows[x].Expired(s.now);
      var m := Unused(full.rows.Keys);
      var rs := [SetInactive(u, false), Refresh(x, m)];
      assert rs[1..] == [Refresh(x, m)] && rs[1..][1..] == [];
      var clean1, full1 := Serve(clean, rs[0]).0, ServeUncleaned(full, rs[0]).0;
      assert clean == s.Purge() && full == s.RevokeAll(u);
      assert Serve(clean1, rs[1]).1 == Accepted(m);
      assert ServeUncleaned(full1, rs[1]).1 == Rejected;
      assert RegularRun(full1, rs[1..], true) && RegularRun(full, rs, true);
      assert Answers(clean1, rs[1..]) == [Accepted(m)] + Answers(Serve(clean1, rs[1]).0, []);
      assert AnswersUncleaned(full1, rs[1..]) == [Rejected] + AnswersUncleaned(ServeUncleaned(full1, rs[1]).0, []);
      assert Answers(clean, rs) == [Done] + Answers(clean1, rs[1..]);
      assert AnswersUncleaned(full, rs) == [Done] + AnswersUncleaned(full1, rs[1..]);
      assert Answers(clean, rs)[1] != AnswersUncleaned(full, rs)[1];
      assert TellsApart(rs, clean, full);
    } else {
      UnforgottenStaySimilar(s, t, minted);
      forall rs ensures !TellsApart(rs, clean, full) {
        if RegularRun(full, rs, true) { RunSimilar(clean, full, rs, true); }
      }
    }
  }

  /** The table after these requests. */
  function Served(s: Store, rs: seq<Request>): Store
    decreases |rs|
  {
    if rs == [] then s else Served(Serve(s, rs[0]).0, rs[1..])
  }

  lemma ServedFour(s: Store, a: Request, b: Request, c: Request, d: Request)
    ensures Served(s, [a, b, c, d]) == Serve(Serve(Serve(Serve(s, a).0, b).0, c).0, d).0
  {
    var rs := [a, b, c, d];
    assert rs[1..] == [b, c, d] && rs[1..][1..] == [c, d] && rs[1..][1..][1..] == [d] && [d][1..] == [];
    var s3 := Serve(Serve(Serve(s, a).0, b).0, c).0;
    assert Served(s3, [d]) == Served(Serve(s3, d).0, []);
    assert Served(Serve(Serve(s, a).0, b).0, [c, d]) == Served(s3, [d]);
    assert Served(Serve(s, a).0, [b, c, d]) == Served(Serve(Serve(s, a).0, b).0, [c, d]);
  }

  /** The condition does fail: a user signs in and out, signs in again eight days later, and
      the first token is presented right after the purge. */
  lemma PurgeForgets(now: int, ttlDays: nat)
    requires ttlDays >= 8
    ensures var empty := Store(now, ttlDays, map[], {});
            var s := Served(empty, [SignIn(7, 0), SignOut(0), Tick(8 * DAY_MS), SignIn(7, 1)]);
            && ForgottenReuse(s, 0)
            && exists rs :: TellsApart(rs, Rotate(s.Purge(), 0, 2).0, Rotate(s, 0, 2).0)
  {
    var at := now + 8 * DAY_MS;
    var first := Row(7, now + ttlDays * DAY_MS, Some(now));
    var second := Row(7, at + ttlDays * DAY_MS, None);
    var empty := Store(now, ttlDays, map[], {});
    ServedFour(empty, SignIn(7, 0), SignOut(0), Tick(8 * DAY_MS), SignIn(7, 1));
    var s := Served(empty, [SignIn(7, 0), SignOut(0), Tick(8 * DAY_MS), SignIn(7, 1)]);
    assert s == Store(at, ttlDays, map[0 := first, 1 := second], {});
    assert ttlDays * DAY_MS >= 8 * DAY_MS;
    assert s.LiveToken(1) && s.rows[1].user == 7 && !s.rows[1].Expired(at);
    PurgeObservableIff(s, 0, 2);
  }
}
