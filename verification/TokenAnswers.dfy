/** What becomes of a presented token, in terms of the columns of its row and the clock. */
module TokenAnswers {
  import opened Wrappers
  import opened TokenStore
  import opened TokenProtocol
  import opened TokenSafety

  // ---------------------------------------------------------------- minting

  /** The step stores this token as the login of a user or as the successor in a rotation. */
  predicate Mints(w: World, s: Step, u: User, t: Token) {
    match s
    case Login(v, m) => v == u && m == t && Fresh(w, t)
    case Create(c, m) => m == t && Fresh(w, t) && c in w.calls && w.calls[c].Claimed? && w.calls[c].user == u
    case _ => false
  }

  /** A token is stored for its user, unrevoked, for the configured number of days from now, and
      no other row changes. */
  lemma MintedRow(w: World, s: Step, u: User, t: Token)
    requires Inv(w) && Mints(w, s, u, t)
    ensures var rows := Next(w, s).store.rows;
            && t in rows && rows[t].user == u && rows[t].revokedAt == None
            && rows[t].expiresAt == w.store.now + w.store.ttlDays * 86400000
            && forall x :: x != t ==> (x in rows <==> x in w.store.rows) && (x in rows ==> rows[x] == w.store.rows[x])
    ensures Inv(Next(w, s)) && t in Next(w, s).h.node
  {
    NextKeepsInv(w, s);
    if s.Create? { assert PhaseOk(w.h, w.calls[s.call]) && NodeOk(w.h, w.calls[s.call].token); }
  }

  // ---------------------------------------------------------------- what stays

  lemma NextKeepsRow(w: World, s: Step, t: Token)
    requires t in w.h.node && t in Next(w, s).store.rows
    ensures t in w.store.rows
    ensures var r, r' := w.store.rows[t], Next(w, s).store.rows[t];
            r'.user == r.user && r'.expiresAt == r.expiresAt && (r.revokedAt.Some? ==> r'.revokedAt == r.revokedAt)
  {}

  /** Whose a stored token is, when it expires and when it was revoked never change. */
  lemma {:induction false} RowStays(w: World, steps: seq<Step>, t: Token)
    requires t in w.h.node && t in Run(w, steps).store.rows
    ensures t in w.store.rows
    ensures var r, r' := w.store.rows[t], Run(w, steps).store.rows[t];
            r'.user == r.user && r'.expiresAt == r.expiresAt && (r.revokedAt.Some? ==> r'.revokedAt == r.revokedAt)
    decreases |steps|
  {
    if steps != [] {
      NextGrows(w, steps[0]);
      RowStays(Next(w, steps[0]), steps[1..], t);
      NextKeepsRow(w, steps[0], t);
    }
  }

  // ---------------------------------------------------------------- the checks

  /** Whatever others do between the look-up and the check, a presentation goes on to claim its
      token exactly if the look-up saw a row that was not revoked and whose owner was active, and
      the check comes no later than the row's expiry; it goes on to the revoke-all of the owner
      exactly if the row was revoked; and otherwise it is over. */
  lemma ChecksIff(w: World, c: Call, t: Token, pause: seq<Step>)
    requires c !in w.calls && Elsewhere(pause, c)
    ensures var rows, v := w.store.rows, Run(Next(w, Look(c, t)), pause);
            var calls := Next(v, Check(c)).calls;
            var stored := t in rows && v.store.now <= rows[t].expiresAt;
            if stored && rows[t].revokedAt.Some? then c in calls && calls[c] == Revoking(rows[t].user)
            else if stored && rows[t].user !in w.store.inactive then c in calls && calls[c] == Claiming(t, rows[t].user)
            else c !in calls
  {
    ElsewhereKeeps(Next(w, Look(c, t)), pause, c);
  }

  /** The claim goes through exactly if the row is there and not revoked, and revokes it now. */
  lemma ClaimIff(w: World, c: Call, t: Token, u: User)
    requires c in w.calls && w.calls[c] == Claiming(t, u)
    ensures var rows, w' := w.store.rows, Next(w, Claim(c));
            if t in rows && rows[t].revokedAt == None
            then w'.calls == w.calls[c := Claimed(t, u)]
                 && w'.store.rows == rows[t := rows[t].(revokedAt := Some(w.store.now))]
            else w'.calls == w.calls - {c} && w'.store.rows == rows
  {}

  /** A token minted now, left unrevoked and stored whatever else goes on, passes the checks of a
      later presentation exactly as long as its owner is active and the configured number of
      days has not passed. */
  lemma AcceptedUntilExpiry(w: World, s: Step, u: User, t: Token, more: seq<Step>, c: Call, pause: seq<Step>)
    requires Inv(w) && Mints(w, s, u, t) && Elsewhere(pause, c)
    requires var v := Run(Next(w, s), more);
             c !in v.calls && t in v.store.rows && v.store.rows[t].revokedAt == None
    ensures var v := Run(Next(w, s), more);
            var x := Run(Next(v, Look(c, t)), pause);
            c in Next(x, Check(c)).calls <==>
            u !in v.store.inactive && x.store.now <= w.store.now + w.store.ttlDays * 86400000
  {
    MintedRow(w, s, u, t);
    RowStays(Next(w, s), more, t);
    ChecksIff(Run(Next(w, s), more), c, t, pause);
  }

  lemma RunOfFour(w: World, a: Step, b: Step, c: Step, d: Step)
    ensures Run(w, [a, b, c, d]) == Next(Next(Next(Next(w, a), b), c), d)
  {
    RunUnfold(w, [a, b, c, d]);
    RunUnfold(Next(w, a), [b, c, d]);
    RunUnfold(Next(Next(w, a), b), [c, d]);
    RunUnfold(Next(Next(Next(w, a), b), c), [d]);
    assert [a, b, c, d][1..] == [b, c, d] && [b, c, d][1..] == [c, d] && [c, d][1..] == [d] && [d][1..] == [];
  }

  /** A sign-in, some time, and a presentation: it passes the checks up to and with the last
      millisecond of the configured days. */
  lemma LifeOfALogin(w: World, u: User, t: Token, ms: nat, c: Call)
    requires Inv(w) && Fresh(w, t) && c !in w.calls && u !in w.store.inactive
    ensures c in Run(w, [Login(u, t), Tick(ms), Look(c, t), Check(c)]).calls <==> ms <= w.store.ttlDays * 86400000
  {
    RunOfFour(w, Login(u, t), Tick(ms), Look(c, t), Check(c));
    MintedRow(w, Login(u, t), u, t);
    ChecksIff(Next(Next(w, Login(u, t)), Tick(ms)), c, t, []);
  }

  // ---------------------------------------------------------------- inactive owners

  predicate NeverReactivated(steps: seq<Step>, u: User) {
    forall i :: 0 <= i < |steps| ==> steps[i] != SetInactive(u, false)
  }

  lemma {:induction false} InactiveStays(w: World, steps: seq<Step>, u: User)
    requires u in w.store.inactive && NeverReactivated(steps, u)
    ensures u in Run(w, steps).store.inactive
    decreases |steps|
  {
    if steps != [] {
      assert steps[0] != SetInactive(u, false);
      InactiveStays(Next(w, steps[0]), steps[1..], u);
    }
  }

  /** Once its owner is deactivated, a token that is looked up from then on until a reactivation
      is never claimed. */
  lemma DeactivationStops(w: World, u: User, more: seq<Step>, c: Call, t: Token, pause: seq<Step>)
    requires NeverReactivated(more, u) && Elsewhere(pause, c)
    requires var v := Run(Next(w, SetInactive(u, true)), more);
             c !in v.calls && t in v.store.rows && v.store.rows[t].user == u
    ensures var v := Run(Next(w, SetInactive(u, true)), more);
            var end := Next(Run(Next(v, Look(c, t)), pause), Check(c));
            c in end.calls ==> end.calls[c] == Revoking(u)
  {
    InactiveStays(Next(w, SetInactive(u, true)), more, u);
    ChecksIff(Run(Next(w, SetInactive(u, true)), more), c, t, pause);
  }

  /** A reactivation lets it through again. */
  lemma ReactivationLets(w: World, u: User, c: Call, t: Token)
    requires c !in w.calls && t in w.store.rows && w.store.rows[t].user == u
    requires w.store.rows[t].revokedAt == None && w.store.now <= w.store.rows[t].expiresAt
    ensures var v := Next(Next(Next(w, SetInactive(u, false)), Look(c, t)), Check(c));
            c in v.calls && v.calls[c] == Claiming(t, u)
  {
    ChecksIff(Next(w, SetInactive(u, false)), c, t, []);
  }
}
