/** The token service as code that changes the table in place, while other calls run
    during each of its awaits. */
module TokenServices {
  import opened Sets
  import opened Wrappers
  import opened TokenStore
  import opened TokenProtocol
  import opened TokenSafety

  datatype Error = Unauthorized

  /** Steps of everybody else: not of this call, and not minting this call's token. */
  predicate Foreign(steps: seq<Step>, me: Call, minted: Token) {
    forall i :: 0 <= i < |steps| ==> ForeignStep(steps[i], me, minted)
  }

  predicate ForeignStep(s: Step, me: Call, minted: Token) {
    match s
    case Login(_, t) => t != minted
    case Create(c, t) => c != me && t != minted
    case Look(c, _) => c != me
    case Check(c) => c != me
    case RevokeFamily(c) => c != me
    case Claim(c) => c != me
    case Crash(c) => c != me
    case _ => true
  }

  lemma {:induction false} ForeignKeeps(w: World, steps: seq<Step>, me: Call, minted: Token)
    requires Foreign(steps, me, minted) && Fresh(w, minted)
    ensures Fresh(Run(w, steps), minted)
    ensures me in w.calls <==> me in Run(w, steps).calls
    ensures me in w.calls ==> Run(w, steps).calls[me] == w.calls[me]
    decreases |steps|
  {
    if steps != [] {
      assert ForeignStep(steps[0], me, minted);
      ForeignKeeps(Next(w, steps[0]), steps[1..], me, minted);
    }
  }

  /** The steps of a call from its claim on, given what others do in its pauses. */
  ghost function ClaimTrace(w: World, me: Call, minted: Token, p1: seq<Step>, p2: seq<Step>): seq<Step> {
    var claim := p1 + [Claim(me)];
    if me !in Run(w, claim).calls then claim else claim + (p2 + [Create(me, minted)])
  }

  /** The steps of a whole `rotate` call. */
  ghost function RotateTrace(w: World, me: Call, t: Token, minted: Token,
                             p0: seq<Step>, p1: seq<Step>, p2: seq<Step>): seq<Step> {
    var checked := [Look(me, t)] + p0 + [Check(me)];
    var w1 := Run(w, checked);
    if me !in w1.calls then checked
    else if w1.calls[me].Revoking? then checked + (p1 + [RevokeFamily(me)])
    else checked + ClaimTrace(w1, me, minted, p1, p2)
  }

  lemma RunThen(w: World, a: seq<Step>, pause: seq<Step>, s: Step)
    ensures Run(w, a + (pause + [s])) == Next(Run(Run(w, a), pause), s)
  {
    var w1 := Run(w, a);
    RunConcat(w, a, pause + [s]);
    RunConcat(w1, pause, [s]);
    assert [s][1..] == [];
    assert Run(Run(w1, pause), [s]) == Run(Next(Run(w1, pause), s), []);
  }

  class TokenService {
    const ttlDays: nat
    var now: int
    var rows: map<Token, Row>
    var inactive: set<User>
    var calls: map<Call, Phase>
    var h: History

    function View(): World reads this {
      World(Store(now, ttlDays, rows, inactive), calls, h)
    }

    constructor (ttlDays: nat, now: int)
      ensures Init(View()) && View().store.now == now && View().store.ttlDays == ttlDays
    {
      this.ttlDays, this.now := ttlDays, now;
      rows, inactive, calls, h := map[], {}, map[], History(map[], map[], map[], multiset{});
    }

    method FindUnique(t: Token) returns (found: Option<Row>)
      ensures found == View().store.Find(t)
      ensures found.Some? <==> t in rows
      ensures found.Some? ==> found.value == rows[t]
    {
      found := if t in rows then Some(rows[t]) else None;
    }

    /** `updateMany` guarded by `revokedAt: null`, for the claim and for the logout. */
    method RevokeIfLive(t: Token) returns (count: nat)
      modifies this`rows
      ensures count == if old(View().store.LiveToken(t)) then 1 else 0
      ensures View() == old(View()).(store := old(View().store.Claim(t)))
      ensures count == 1 <==> t in old(rows) && old(rows)[t].revokedAt == None
      ensures rows == if count == 1 then old(rows)[t := old(rows)[t].(revokedAt := Some(now))] else old(rows)
    {
      count := 0;
      if t in rows && rows[t].revokedAt == None {
        rows := rows[t := rows[t].(revokedAt := Some(now))];
        count := 1;
      }
    }

    method RevokeAllForUser(u: User)
      modifies this`rows
      ensures View() == old(View()).(store := old(View().store.RevokeAll(u)))
      ensures LockedOut(View(), u)
      ensures rows.Keys == old(rows).Keys
      ensures forall t :: t in rows ==>
        rows[t] == if old(rows)[t].user == u && old(rows)[t].revokedAt == None
                   then old(rows)[t].(revokedAt := Some(now)) else old(rows)[t]
    {
      rows := map t | t in rows ::
        if rows[t].user == u && rows[t].revokedAt == None then rows[t].(revokedAt := Some(now)) else rows[t];
    }

    method Revoke(presented: Token)
      modifies this`rows
      ensures View() == Next(old(View()), Logout(presented))
      ensures !View().store.LiveToken(presented)
      ensures rows == if presented in old(rows) && old(rows)[presented].revokedAt == None
        then old(rows)[presented := old(rows)[presented].(revokedAt := Some(now))] else old(rows)
    {
      var _ := RevokeIfLive(presented);
    }

    /** Stores a token; a second row for the same token violates the unique index. */
    method CreateRefreshToken(u: User, token: Token) returns (created: bool)
      modifies this`rows
      ensures created <==> token !in old(rows)
      ensures View() == if created then old(View()).(store := old(View().store.Insert(token, u))) else old(View())
      ensures created ==> rows == old(rows)[token := Row(u, now + ttlDays * 86400000, None)]
    {
      if token in rows {
        return false;
      }
      var ttlMs := ttlDays * 24 * 60 * 60 * 1000;
      rows := rows[token := Row(u, now + ttlMs, None)];
      return true;
    }

    /** A fresh login. */
    method Issue(u: User, minted: Token) returns (refreshToken: Token)
      requires Inv(View()) && Fresh(View(), minted)
      modifies this
      ensures View() == Next(old(View()), Login(u, minted))
      ensures refreshToken == minted && View().store.LiveToken(refreshToken)
      ensures rows == old(rows)[minted := Row(u, now + ttlDays * 86400000, None)]
    {
      assert minted in rows ==> RowOk(View(), minted);
      var created := CreateRefreshToken(u, minted);
      assert created;
      h := Started(h, u, minted);
      refreshToken := minted;
    }

    method PurgeStale() returns (count: nat)
      modifies this`rows
      ensures View() == Next(old(View()), Purge)
      ensures count + |rows| == |old(rows)|
      ensures forall t :: t in rows <==>
        t in old(rows) && now <= old(rows)[t].expiresAt
        && (old(rows)[t].revokedAt.Some? ==> now - 604800000 <= old(rows)[t].revokedAt.value)
      ensures forall t :: t in rows ==> rows[t] == old(rows)[t]
    {
      var revokedGrace := now - 7 * 24 * 60 * 60 * 1000;
      var stale := set t | t in rows &&
        (rows[t].expiresAt < now || (rows[t].revokedAt.Some? && rows[t].revokedAt.value < revokedGrace));
      count := |stale|;
      RemovedCount(rows, stale);
      assert rows - stale == View().store.Purge().rows;
      rows := rows - stale;
    }

    /** Other calls make progress while this one waits. */
    method Others(steps: seq<Step>)
      modifies this
      ensures View() == Run(old(View()), steps)
    {
      var i := 0;
      while i < |steps|
        invariant 0 <= i <= |steps|
        invariant Run(View(), steps[i..]) == Run(old(View()), steps)
      {
        var w := Next(View(), steps[i]);
        assert steps[i..][0] == steps[i] && steps[i..][1..] == steps[i+1..];
        now, rows, inactive, calls, h := w.store.now, w.store.rows, w.store.inactive, w.calls, w.h;
        assert View() == w;
        i := i + 1;
      }
      assert steps[i..] == [];
    }

    /** The claim and what follows it: the second half of `rotate`. */
    method ClaimAndIssue(me: Call, presented: Token, user: User, minted: Token, p1: seq<Step>, p2: seq<Step>)
      returns (r: Result<Token, Error>)
      requires Inv(View()) && Fresh(View(), minted) && me in calls && calls[me] == Claiming(presented, user)
      requires Foreign(p1, me, minted) && Foreign(p2, me, minted)
      modifies this
      ensures View() == Run(old(View()), ClaimTrace(old(View()), me, minted, p1, p2))
      ensures r.Success? ==> r.value == minted && View().store.LiveToken(minted)
      ensures r.Success? ==> minted in h.node && h.node[minted].parent == Some(presented)
      ensures r.Failure? ==> Fresh(View(), minted)
      ensures me !in calls
    {
      ghost var w := View();
      Others(p1);
      ForeignKeeps(w, p1, me, minted);
      RunKeepsInv(w, p1);
      RunThen(w, [], p1, Claim(me));
      ghost var t1 := p1 + [Claim(me)];
      assert [] + t1 == t1;
      var count := RevokeIfLive(presented);
      if count == 0 {
        calls := calls - {me};
        assert View() == Run(w, t1);
        return Failure(Unauthorized);
      }
      h := h.(claims := h.claims + multiset{presented});
      calls := calls[me := Claimed(presented, user)];
      assert View() == Run(w, t1);
      RunKeepsInv(w, t1);
      ghost var w1 := View();
      Others(p2);
      ForeignKeeps(w1, p2, me, minted);
      RunKeepsInv(w1, p2);
      RunThen(w, t1, p2, Create(me, minted));
      CreateSuccessor(me, presented, user, minted);
      return Success(minted);
    }

    method CreateSuccessor(me: Call, presented: Token, user: User, minted: Token)
      requires Inv(View()) && Fresh(View(), minted) && me in calls && calls[me] == Claimed(presented, user)
      modifies this
      ensures View() == Next(old(View()), Create(me, minted))
      ensures View().store.LiveToken(minted) && me !in calls
      ensures rows == old(rows)[minted := Row(user, now + ttlDays * 86400000, None)]
      ensures minted in h.node && h.node[minted].parent == Some(presented)
    {
      assert minted in rows ==> RowOk(View(), minted);
      assert PhaseOk(h, calls[me]) && NodeOk(h, presented);
      var created := CreateRefreshToken(user, minted);
      assert created;
      calls := calls - {me};
      h := Extended(h, presented, minted);
    }

    /** One `rotate` call; `p0`, `p1` and `p2` are what others do during its awaits. */
    method Rotate(me: Call, presented: Token, minted: Token, p0: seq<Step>, p1: seq<Step>, p2: seq<Step>)
      returns (r: Result<Token, Error>)
      requires Inv(View()) && me !in calls && Fresh(View(), minted)
      requires Foreign(p0, me, minted) && Foreign(p1, me, minted) && Foreign(p2, me, minted)
      modifies this
      ensures View() == Run(old(View()), RotateTrace(old(View()), me, presented, minted, p0, p1, p2))
      ensures r.Success? ==> r.value == minted && View().store.LiveToken(minted)
      ensures r.Success? ==> minted in h.node && h.node[minted].parent == Some(presented)
      ensures r.Failure? ==> Fresh(View(), minted)
      ensures me !in calls
    {
      ghost var w := View();
      var found := FindUnique(presented);
      var ownerInactive := found.Some? && found.value.user in inactive;
      calls := calls[me := Looked(presented, found, ownerInactive)];
      ghost var w0 := View();
      assert w0 == Next(w, Look(me, presented));
      Others(p0);
      ForeignKeeps(w0, p0, me, minted);
      ghost var t1 := [Look(me, presented)] + p0 + [Check(me)];
      CheckedRun(w, me, presented, p0);

      if found.None? || found.value.expiresAt < now {
        calls := calls - {me};
        return Failure(Unauthorized);
      }
      var record := found.value;
      if record.revokedAt != None {
        calls := calls[me := Revoking(record.user)];
        assert View() == Run(w, t1);
        ghost var w2 := View();
        Others(p1);
        ForeignKeeps(w2, p1, me, minted);
        RunThen(w, t1, p1, RevokeFamily(me));
        RevokeAllForUser(record.user);
        calls := calls - {me};
        return Failure(Unauthorized);
      }
      if ownerInactive {
        calls := calls - {me};
        return Failure(Unauthorized);
      }
      calls := calls[me := Claiming(presented, record.user)];
      assert View() == Run(w, t1);
      RunKeepsInv(w, t1);
      RunConcat(w, t1, ClaimTrace(View(), me, minted, p1, p2));
      r := ClaimAndIssue(me, presented, record.user, minted, p1, p2);
    }
  }

  lemma CheckedRun(w: World, me: Call, t: Token, p0: seq<Step>)
    ensures Run(w, [Look(me, t)] + p0 + [Check(me)]) == Next(Run(Next(w, Look(me, t)), p0), Check(me))
  {
    var l := [Look(me, t)];
    assert l[1..] == [];
    assert Run(w, l) == Run(Next(w, l[0]), []);
    RunThen(w, l, p0, Check(me));
    assert l + p0 + [Check(me)] == l + (p0 + [Check(me)]);
  }

  // ---------------------------------------------------------------- a call left alone

  lemma RunUndisturbed(w: World, s: Step)
    ensures Run(w, [] + [s]) == Next(w, s) && Run(w, [s]) == Next(w, s)
  {
    assert [] + [s] == [s] && [s][1..] == [];
    assert Run(w, [s]) == Run(Next(w, s), []);
  }

  lemma ClaimUndisturbed(w: World, me: Call, t: Token, u: User, minted: Token)
    requires Inv(w) && me in w.calls && w.calls[me] == Claiming(t, u) && Fresh(w, minted)
    requires t in w.store.rows && w.store.rows[t].revokedAt == None
    ensures Run(w, ClaimTrace(w, me, minted, [], [])).store.rows ==
            w.store.rows[t := w.store.rows[t].(revokedAt := Some(w.store.now))][
              minted := Row(u, w.store.now + w.store.ttlDays * 86400000, None)]
  {
    RunUndisturbed(w, Claim(me));
    var w1 := Next(w, Claim(me));
    assert w1.calls[me] == Claimed(t, u);
    RunThen(w, [] + [Claim(me)], [], Create(me, minted));
    assert Run(w1, []) == w1;
  }

  /** A rotation left alone. A token that is not stored or has expired changes nothing; a revoked
      one revokes all of its owner's; that of an inactive owner changes nothing; and any other is
      revoked, and its successor is stored. */
  lemma RotateUndisturbed(w: World, me: Call, t: Token, minted: Token)
    requires Inv(w) && me !in w.calls && Fresh(w, minted)
    ensures var rows, now := w.store.rows, w.store.now;
            var end := Run(w, RotateTrace(w, me, t, minted, [], [], [])).store.rows;
            if t !in rows || rows[t].expiresAt < now then end == rows
            else if rows[t].revokedAt.Some? then
              end == map x | x in rows :: if rows[x].user == rows[t].user && rows[x].revokedAt == None
                                          then rows[x].(revokedAt := Some(now)) else rows[x]
            else if rows[t].user in w.store.inactive then end == rows
            else end == rows[t := rows[t].(revokedAt := Some(now))][
                          minted := Row(rows[t].user, now + w.store.ttlDays * 86400000, None)]
  {
    var checked := [Look(me, t)] + [] + [Check(me)];
    CheckedRun(w, me, t, []);
    var w0 := Next(w, Look(me, t));
    assert Run(w0, []) == w0;
    var w1 := Run(w, checked);
    NextKeepsInv(w, Look(me, t));
    NextKeepsInv(w0, Check(me));
    if me in w1.calls {
      if w1.calls[me].Revoking? {
        RunThen(w, checked, [], RevokeFamily(me));
        assert Run(w1, []) == w1;
      } else {
        RunConcat(w, checked, ClaimTrace(w1, me, minted, [], []));
        ClaimUndisturbed(w1, me, t, w.store.rows[t].user, minted);
      }
    }
  }
}
