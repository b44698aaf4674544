/** What every run of the refresh-token protocol keeps. */
module TokenSafety {
  import opened Wrappers
  import opened Sets
  import opened TokenStore
  import opened TokenProtocol

  // ------------------------------------------------------- one holder a family

  /** Whatever can still turn into a usable refresh token of a family. */
  datatype Holder = InTable(token: Token) | InFlight(call: Call)

  predicate Holds(w: World, x: Holder) {
    match x
    case InTable(t) => w.store.LiveToken(t)
    case InFlight(c) => c in w.calls && w.calls[c].Claimed?
  }

  function TokenOf(w: World, x: Holder): Token
    requires Holds(w, x)
  {
    match x
    case InTable(t) => t
    case InFlight(c) => w.calls[c].token
  }

  ghost predicate InFamily(w: World, x: Holder, root: Token) {
    Holds(w, x) && TokenOf(w, x) in w.h.node && w.h.node[TokenOf(w, x)].root == root
  }

  lemma HolderIsYoungest(w: World, x: Holder)
    requires Inv(w) && Holds(w, x)
    ensures Youngest(w.h, TokenOf(w, x))
    ensures x.InTable? <==> TokenOf(w, x) !in w.h.claims
  {
    match x
    case InTable(t) => assert RowOk(w, t);
    case InFlight(c) => assert PhaseOk(w.h, w.calls[c]);
  }

  lemma YoungestIsUnique(h: History, s: Token, t: Token)
    requires HistoryOk(h) && Youngest(h, s) && Youngest(h, t) && h.node[s].root == h.node[t].root
    ensures s == t
  {
    assert NodeOk(h, s) && NodeOk(h, t);
  }

  /** In every reachable state each login family has at most one of: an unrevoked stored
      token, or a rotation that has claimed and not yet stored its successor. */
  lemma AtMostOneHolder(w0: World, steps: seq<Step>, a: Holder, b: Holder, root: Token)
    requires Init(w0)
    requires InFamily(Run(w0, steps), a, root) && InFamily(Run(w0, steps), b, root)
    ensures a == b
  {
    var w := Run(w0, steps);
    RunKeepsInv(w0, steps);
    HolderIsYoungest(w, a);
    HolderIsYoungest(w, b);
    YoungestIsUnique(w.h, TokenOf(w, a), TokenOf(w, b));
    if a.InFlight? && b.InFlight? {
      assert w.calls[a.call].Claimed? && w.calls[b.call].Claimed?;
    }
  }

  /** However many calls present it, a token is claimed at most once ever. */
  lemma ClaimedAtMostOnce(w0: World, steps: seq<Step>, t: Token)
    requires Init(w0)
    ensures Run(w0, steps).h.claims[t] <= 1
  {
    RunKeepsInv(w0, steps);
    var h := Run(w0, steps).h;
    if t in h.claims { assert NodeOk(h, t); }
  }

  // ------------------------------------------------------------ family is chain

  /** The tokens of a family, oldest first: each was created by the one rotation that
      claimed the one before it, and the list holds the whole family. */
  ghost predicate IsChain(h: History, root: Token, c: seq<Token>) {
    && |c| > 0 && c[0] == root
    && (forall i :: 0 <= i < |c| ==> c[i] in h.node && h.node[c[i]].root == root)
    && (forall i :: 0 < i < |c| ==> h.node[c[i]].parent == Some(c[i-1]))
    && (forall i :: 0 <= i < |c| - 1 ==> h.claims[c[i]] == 1)
    && (forall t :: t in h.node && h.node[t].root == root ==> t in c)
  }

  lemma {:induction false} Lineage(h: History, t: Token) returns (c: seq<Token>)
    requires HistoryOk(h) && t in h.node
    ensures |c| == h.node[t].age + 1 && c[|c| - 1] == t
    ensures forall i {:trigger c[i]} :: 0 <= i < |c| ==>
      c[i] in h.node && h.node[c[i]].root == h.node[t].root && h.node[c[i]].age == i
    ensures forall i :: 0 < i < |c| ==> h.node[c[i]].parent == Some(c[i-1])
    ensures forall i :: 0 <= i < |c| - 1 ==> h.claims[c[i]] == 1
    decreases h.node[t].age
  {
    assert NodeOk(h, t);
    if h.node[t].age == 0 {
      c := [t];
    } else {
      var older := Lineage(h, h.node[t].parent.value);
      c := older + [t];
    }
  }

  lemma ChainOf(h: History, root: Token) returns (c: seq<Token>)
    requires HistoryOk(h) && root in h.size
    ensures IsChain(h, root, c)
  {
    assert SizeOk(h, root);
    c := Lineage(h, h.slot[(root, h.size[root] - 1)]);
    assert NodeOk(h, c[0]);
    forall t | t in h.node && h.node[t].root == root ensures t in c {
      assert NodeOk(h, t) && NodeOk(h, c[h.node[t].age]);
      assert c[h.node[t].age] == t;
    }
  }

  /** Every login family of every reachable state is a chain. */
  lemma FamiliesAreChains(w0: World, steps: seq<Step>, t: Token)
    requires Init(w0) && t in Run(w0, steps).h.node
    ensures exists c :: IsChain(Run(w0, steps).h, Run(w0, steps).h.node[t].root, c)
  {
    RunKeepsInv(w0, steps);
    var h := Run(w0, steps).h;
    assert NodeOk(h, t);
    var c := ChainOf(h, h.node[t].root);
  }

  /** No two tokens have the same parent. */
  lemma NoFork(w0: World, steps: seq<Step>, s: Token, t: Token)
    requires Init(w0)
    requires s in Run(w0, steps).h.node && t in Run(w0, steps).h.node
    requires Run(w0, steps).h.node[s].parent.Some?
    requires Run(w0, steps).h.node[s].parent == Run(w0, steps).h.node[t].parent
    ensures s == t
  {
    RunKeepsInv(w0, steps);
    var h := Run(w0, steps).h;
    assert NodeOk(h, s) && NodeOk(h, t);
  }

  // ------------------------------------------------------------ reuse containment

  /** Presenting a stored, unexpired, revoked token, and nothing else in between, ends
      with the revoke-all of its owner and no new token. */
  lemma ReuseRevokesFamily(w: World, c: Call, t: Token)
    requires c !in w.calls && t in w.store.rows
    requires !w.store.rows[t].Live() && !w.store.rows[t].Expired(w.store.now)
    ensures Run(w, [Look(c, t), Check(c), RevokeFamily(c)]) == w.(store := w.store.RevokeAll(w.store.rows[t].user))
  {
    var u := w.store.rows[t].user;
    var w1 := Next(w, Look(c, t));
    var w2 := Next(w1, Check(c));
    assert w2.calls[c] == Revoking(u);
    var w3 := Next(w2, RevokeFamily(c));
    assert w3.calls == w.calls;
    assert [Look(c, t), Check(c), RevokeFamily(c)][1..] == [Check(c), RevokeFamily(c)];
    assert [Check(c), RevokeFamily(c)][1..] == [RevokeFamily(c)];
    assert Run(w2, [RevokeFamily(c)]) == Run(w3, []);
  }

  /** Steps that are not of this call. */
  predicate Elsewhere(steps: seq<Step>, c: Call) {
    forall i :: 0 <= i < |steps| ==> NotOf(steps[i], c)
  }

  predicate NotOf(s: Step, c: Call) {
    match s
    case Look(d, _) => d != c
    case Check(d) => d != c
    case RevokeFamily(d) => d != c
    case Claim(d) => d != c
    case Create(d, _) => d != c
    case Crash(d) => d != c
    case _ => true
  }

  lemma {:induction false} ElsewhereKeeps(w: World, steps: seq<Step>, c: Call)
    requires Elsewhere(steps, c) && c in w.calls
    ensures c in Run(w, steps).calls && Run(w, steps).calls[c] == w.calls[c]
    decreases |steps|
  {
    if steps != [] {
      assert NotOf(steps[0], c);
      ElsewhereKeeps(Next(w, steps[0]), steps[1..], c);
    }
  }

  /** Whatever others do between its look-up and its check, a presentation is taken for a
      reuse exactly if the look-up saw a revoked row and the check finds it unexpired. A retry
      that looked its token up while it was live never is; one that comes after the claim is. */
  lemma ReuseIsDetectedIff(w: World, c: Call, t: Token, pause: seq<Step>)
    requires c !in w.calls && Elsewhere(pause, c)
    ensures var v := Run(Next(w, Look(c, t)), pause); var end := Next(v, Check(c));
            && (c in end.calls && end.calls[c].Revoking?
                <==> t in w.store.rows && !w.store.rows[t].Live() && !w.store.rows[t].Expired(v.store.now))
            && (c in end.calls && end.calls[c].Revoking? ==> end.calls[c].user == w.store.rows[t].user)
  {
    ElsewhereKeeps(Next(w, Look(c, t)), pause, c);
  }

  lemma {:induction false} ClaimsStay(w: World, steps: seq<Step>, t: Token)
    requires t in w.h.claims
    ensures t in Run(w, steps).h.claims
    decreases |steps|
  {
    if steps != [] {
      assert w.h.claims <= Next(w, steps[0]).h.claims;
      ClaimsStay(Next(w, steps[0]), steps[1..], t);
    }
  }

  /** A client that sends its token again at any time after a request has claimed it trips the
      detection, whatever others do before its look-up and before its check, exactly if the row
      is still stored at the look-up and unexpired at the check: a claimed token is never live
      again. */
  lemma RetryAfterClaimTrips(w0: World, before: seq<Step>, p0: seq<Step>, d: Call, t: Token, p1: seq<Step>)
    requires Init(w0) && t in Run(w0, before).h.claims
    requires d !in Run(Run(w0, before), p0).calls && Elsewhere(p1, d)
    ensures var v := Run(Run(w0, before), p0); var u := Run(Next(v, Look(d, t)), p1); var end := Next(u, Check(d));
            d in end.calls && end.calls[d].Revoking?
            <==> t in v.store.rows && !v.store.rows[t].Expired(u.store.now)
  {
    var w := Run(w0, before);
    var v := Run(w, p0);
    RunKeepsInv(w0, before);
    RunKeepsInv(w, p0);
    ClaimsStay(w, p0, t);
    if t in v.store.rows { assert RowOk(v, t); }
    ReuseIsDetectedIff(v, d, t, p1);
  }

  /** A rotation of the user that has claimed and not stored its successor yet. */
  ghost predicate RotatingFamily(w: World, u: User, c: Call) {
    c in w.calls && w.calls[c].Claimed? && w.calls[c].user == u
  }

  /** The family's login came after `base`, or one of its rotations was past its claim at `base`. */
  ghost predicate Excused(base: World, u: User, root: Token) {
    root in base.h.node ==>
      exists c :: RotatingFamily(base, u, c) && base.calls[c].token in base.h.node
                  && base.h.node[base.calls[c].token].root == root
  }

  ghost predicate ExcusedToken(w: World, base: World, u: User, t: Token) {
    t in w.h.node && Excused(base, u, w.h.node[t].root)
  }

  ghost predicate Contained(w: World, base: World, u: User) {
    && (forall t {:trigger ExcusedToken(w, base, u, t)} :: w.store.LiveToken(t) && w.store.rows[t].user == u ==>
        ExcusedToken(w, base, u, t))
    && (forall c {:trigger RotatingFamily(w, u, c)} :: RotatingFamily(w, u, c) ==>
        ExcusedToken(w, base, u, w.calls[c].token))
  }

  ghost predicate Grown(h: History, h': History) {
    forall t :: t in h.node ==> t in h'.node && h'.node[t] == h.node[t]
  }

  lemma NextGrows(w: World, s: Step)
    ensures Grown(w.h, Next(w, s).h)
  {}

  /** The only ways a live row can appear. */
  lemma LiveAfter(w: World, s: Step, t: Token)
    requires Inv(w) && Next(w, s).store.LiveToken(t)
    ensures var w' := Next(w, s);
            || (w.store.LiveToken(t) && w'.store.rows[t].user == w.store.rows[t].user)
            || (s == Login(w'.store.rows[t].user, t) && t !in w.h.node && t in w'.h.node && w'.h.node[t].root == t)
            || (s.Create? && s.minted == t && RotatingFamily(w, w'.store.rows[t].user, s.call)
                && w.calls[s.call].token in w.h.node && t in w'.h.node
                && w'.h.node[t].root == w.h.node[w.calls[s.call].token].root)
  {
    if s.Create? && s.call in w.calls && w.calls[s.call].Claimed? {
      assert PhaseOk(w.h, w.calls[s.call]) && NodeOk(w.h, w.calls[s.call].token);
    }
  }

  /** The only way a rotation gets past its claim. */
  lemma RotatingAfter(w: World, s: Step, u: User, c: Call)
    requires Inv(w) && RotatingFamily(Next(w, s), u, c)
    ensures || (RotatingFamily(w, u, c) && w.calls[c] == Next(w, s).calls[c])
            || (s == Claim(c) && c in w.calls && w.calls[c].Claiming? && w.calls[c].token == Next(w, s).calls[c].token
                && w.store.LiveToken(w.calls[c].token) && w.store.rows[w.calls[c].token].user == u)
  {
    if s == Claim(c) && c in w.calls && w.calls[c].Claiming? {
      assert PhaseOk(w.h, w.calls[c]);
      if w.store.LiveToken(w.calls[c].token) { assert RowOk(w, w.calls[c].token); }
    }
  }

  lemma LiveStaysExcused(w: World, s: Step, base: World, u: User, t: Token)
    requires Inv(w) && Grown(base.h, w.h) && Contained(w, base, u)
    requires Next(w, s).store.LiveToken(t) && Next(w, s).store.rows[t].user == u
    ensures ExcusedToken(Next(w, s), base, u, t)
  {
    NextGrows(w, s);
    LiveAfter(w, s, t);
    if w.store.LiveToken(t) && w.store.rows[t].user == u {
      assert ExcusedToken(w, base, u, t);
    } else if s.Create? {
      assert RotatingFamily(w, u, s.call);
      assert ExcusedToken(w, base, u, w.calls[s.call].token);
    }
  }

  lemma RotatingStaysExcused(w: World, s: Step, base: World, u: User, c: Call)
    requires Inv(w) && Grown(base.h, w.h) && Contained(w, base, u) && RotatingFamily(Next(w, s), u, c)
    ensures ExcusedToken(Next(w, s), base, u, Next(w, s).calls[c].token)
  {
    NextGrows(w, s);
    RotatingAfter(w, s, u, c);
    assert ExcusedToken(w, base, u, w.calls[c].token);
  }

  lemma NextKeepsContained(w: World, s: Step, base: World, u: User)
    requires Inv(w) && Grown(base.h, w.h) && Contained(w, base, u)
    ensures Contained(Next(w, s), base, u)
  {
    var w' := Next(w, s);
    forall t {:trigger ExcusedToken(w', base, u, t)} | w'.store.LiveToken(t) && w'.store.rows[t].user == u
      ensures ExcusedToken(w', base, u, t)
    {
      LiveStaysExcused(w, s, base, u, t);
    }
    forall c {:trigger RotatingFamily(w', u, c)} | RotatingFamily(w', u, c)
      ensures ExcusedToken(w', base, u, w'.calls[c].token)
    {
      RotatingStaysExcused(w, s, base, u, c);
    }
  }

  lemma {:induction false} RunKeepsContained(w: World, steps: seq<Step>, base: World, u: User)
    requires Inv(w) && Grown(base.h, w.h) && Contained(w, base, u)
    ensures Contained(Run(w, steps), base, u)
    decreases |steps|
  {
    if steps != [] {
      NextKeepsInv(w, steps[0]);
      NextGrows(w, steps[0]);
      NextKeepsContained(w, steps[0], base, u);
      RunKeepsContained(Next(w, steps[0]), steps[1..], base, u);
    }
  }

  /** Once the revoke-all of a reuse has run, any token of that user that is live at any
      later point descends from a later login, or from a rotation that had already claimed
      and was still in flight at that moment. */
  lemma ReuseContainment(w0: World, before: seq<Step>, c: Call, after: seq<Step>, t: Token)
    requires Init(w0)
    requires var w := Run(w0, before); c in w.calls && w.calls[c].Revoking?
    requires var w := Run(w0, before); var end := Run(Next(w, RevokeFamily(c)), after);
             end.store.LiveToken(t) && end.store.rows[t].user == w.calls[c].user
    ensures var w := Run(w0, before); var base := Next(w, RevokeFamily(c));
            ExcusedToken(Run(base, after), base, w.calls[c].user, t)
  {
    var w := Run(w0, before);
    var base := Next(w, RevokeFamily(c));
    RunKeepsInv(w0, before);
    RevokeFamilyContains(w, c);
    RunKeepsContained(base, after, base, w.calls[c].user);
  }

  lemma RevokeFamilyContains(w: World, c: Call)
    requires Inv(w) && c in w.calls && w.calls[c].Revoking?
    ensures var base := Next(w, RevokeFamily(c)); Inv(base) && Contained(base, base, w.calls[c].user)
  {
    var u := w.calls[c].user;
    var base := Next(w, RevokeFamily(c));
    NextKeepsInv(w, RevokeFamily(c));
    forall d | RotatingFamily(base, u, d) ensures ExcusedToken(base, base, u, base.calls[d].token) {
      assert PhaseOk(base.h, base.calls[d]);
    }
  }

  // ------------------------------------- when the revoke-all forces a fresh login

  predicate NoLogin(steps: seq<Step>, u: User) {
    forall i :: 0 <= i < |steps| ==> !(steps[i].Login? && steps[i].user == u)
  }

  /** The user holds no usable refresh token. */
  predicate LockedOut(w: World, u: User) {
    forall t :: t in w.store.rows && w.store.rows[t].user == u ==> !w.store.rows[t].Live()
  }

  ghost predicate Barren(w: World, u: User) {
    LockedOut(w, u) && forall c :: !RotatingFamily(w, u, c)
  }

  lemma NextStaysBarren(w: World, s: Step, u: User)
    requires Inv(w) && Barren(w, u) && !(s.Login? && s.user == u)
    ensures Barren(Next(w, s), u)
  {
    var w' := Next(w, s);
    forall t | t in w'.store.rows && w'.store.rows[t].user == u ensures !w'.store.rows[t].Live() {
      if w'.store.LiveToken(t) { LiveAfter(w, s, t); }
    }
    forall c ensures !RotatingFamily(w', u, c) {
      if RotatingFamily(w', u, c) { RotatingAfter(w, s, u, c); }
    }
  }

  lemma {:induction false} BarrenStays(w: World, steps: seq<Step>, u: User)
    requires Inv(w) && Barren(w, u) && NoLogin(steps, u)
    ensures LockedOut(Run(w, steps), u)
    decreases |steps|
  {
    if steps != [] {
      NextKeepsInv(w, steps[0]);
      NextStaysBarren(w, steps[0], u);
      BarrenStays(Next(w, steps[0]), steps[1..], u);
    }
  }

  ghost predicate StaysLockedOut(w: World, after: seq<Step>, u: User) {
    NoLogin(after, u) ==> LockedOut(Run(w, after), u)
  }

  lemma RunUnfold(w: World, steps: seq<Step>)
    requires steps != []
    ensures Run(w, steps) == Run(Next(w, steps[0]), steps[1..])
  {}

  /** A rotation past its claim hands out a live token in spite of the revoke-all. */
  lemma RotationSurvives(w: World, c: Call, d: Call, t: Token)
    requires c in w.calls && w.calls[c].Revoking? && RotatingFamily(w, w.calls[c].user, d) && Fresh(w, t)
    ensures !StaysLockedOut(Next(w, RevokeFamily(c)), [Create(d, t)], w.calls[c].user)
  {
    var base := Next(w, RevokeFamily(c));
    RunUnfold(base, [Create(d, t)]);
    var end := Next(base, Create(d, t));
    assert [Create(d, t)][1..] == [] && Run(end, []) == end;
    assert t in end.store.rows && end.store.rows[t].Live();
  }

  /** The revoke-all locks the user out until a new login, whatever else happens, exactly
      when no rotation of that user is past its claim at that moment. */
  lemma LockoutIsExact(w0: World, before: seq<Step>, c: Call)
    requires Init(w0)
    requires var w := Run(w0, before); c in w.calls && w.calls[c].Revoking?
    ensures var w := Run(w0, before); var base := Next(w, RevokeFamily(c)); var u := w.calls[c].user;
            (forall after :: StaysLockedOut(base, after, u))
            <==> (forall d :: !RotatingFamily(w, u, d))
  {
    var w := Run(w0, before);
    var base := Next(w, RevokeFamily(c));
    var u := w.calls[c].user;
    RunKeepsInv(w0, before);
    NextKeepsInv(w, RevokeFamily(c));
    if d :| RotatingFamily(w, u, d) {
      var t := Unused(w.h.node.Keys);
      RotationSurvives(w, c, d, t);
    } else {
      forall after ensures StaysLockedOut(base, after, u) {
        assert forall d :: RotatingFamily(base, u, d) ==> RotatingFamily(w, u, d);
        if NoLogin(after, u) { BarrenStays(base, after, u); }
      }
    }
  }

  lemma RunSix(w: World, a: Step, b: Step, c: Step, d: Step, e: Step, f: Step)
    ensures Run(w, [a, b, c, d, e, f]) == Next(Next(Next(Next(Next(Next(w, a), b), c), d), e), f)
  {
    var s := [a, b, c, d, e, f];
    RunUnfold(w, s);
    RunUnfold(Next(w, a), s[1..]);
    RunUnfold(Next(Next(w, a), b), s[2..]);
    RunUnfold(Next(Next(Next(w, a), b), c), s[3..]);
    RunUnfold(Next(Next(Next(Next(w, a), b), c), d), s[4..]);
    RunUnfold(Next(Next(Next(Next(Next(w, a), b), c), d), e), s[5..]);
    assert s[1..][1..] == s[2..] && s[2..][1..] == s[3..] && s[3..][1..] == s[4..] && s[4..][1..] == s[5..] &&
      s[5..][1..] == [];
  }

  lemma FirstRotation(w0: World)
    requires Init(w0) && 7 !in w0.store.inactive
    ensures var w := Next(Next(Next(Next(w0, Login(7, 0)), Look(1, 0)), Check(1)), Claim(1));
            && w.calls == map[1 := Claimed(0, 7)] && w.h.node == map[0 := Node(0, 7, 0, None)]
            && 0 in w.store.rows && w.store.rows[0].user == 7 && !w.store.rows[0].Live() &&
               !w.store.rows[0].Expired(w.store.now)
  {
    var live := Row(7, w0.store.now + w0.store.ttlDays * DAY_MS, None);
    assert w0.store.ttlDays * DAY_MS >= 0;
    var w1 := Next(w0, Login(7, 0));
    assert w1.store.rows == map[0 := live] && w1.calls == map[];
    var w2 := Next(w1, Look(1, 0));
    assert w2.calls == map[1 := Looked(0, Some(live), false)] && w2.store == w1.store;
    var w3 := Next(w2, Check(1));
    assert w3.calls == map[1 := Claiming(0, 7)] && w3.store == w1.store;
  }

  lemma SecondPresentation(w: World)
    requires w.calls == map[1 := Claimed(0, 7)]
    requires 0 in w.store.rows && w.store.rows[0].user == 7 && !w.store.rows[0].Live() &&
      !w.store.rows[0].Expired(w.store.now)
    ensures var end := Next(Next(w, Look(2, 0)), Check(2));
            end.calls == map[1 := Claimed(0, 7), 2 := Revoking(7)] && end.h == w.h
  {
    var w1 := Next(w, Look(2, 0));
    assert 2 in w1.calls && w1.calls[2].Looked? && w1.calls[2].found == Some(w.store.rows[0]) && w1.store == w.store;
  }

  lemma ReuseBesideClaim(w0: World)
    requires Init(w0) && 7 !in w0.store.inactive
    ensures var w := Run(w0, [Login(7, 0), Look(1, 0), Check(1), Claim(1), Look(2, 0), Check(2)]);
            w.calls == map[1 := Claimed(0, 7), 2 := Revoking(7)] && w.h.node == map[0 := Node(0, 7, 0, None)]
  {
    RunSix(w0, Login(7, 0), Look(1, 0), Check(1), Claim(1), Look(2, 0), Check(2));
    FirstRotation(w0);
    SecondPresentation(Next(Next(Next(Next(w0, Login(7, 0)), Look(1, 0)), Check(1)), Claim(1)));
  }

  /** The condition does fail: user 7 logs in and one rotation claims the token; a second
      presentation of it is taken for a reuse while the first is still about to insert the
      successor, which then survives the revoke-all. */
  lemma LockoutFails(w0: World)
    requires Init(w0) && 7 !in w0.store.inactive
    ensures var w := Run(w0, [Login(7, 0), Look(1, 0), Check(1), Claim(1), Look(2, 0), Check(2)]);
            && 2 in w.calls && w.calls[2] == Revoking(7) && RotatingFamily(w, 7, 1)
            && !StaysLockedOut(Next(w, RevokeFamily(2)), [Create(1, 1)], 7)
  {
    ReuseBesideClaim(w0);
    RotationSurvives(Run(w0, [Login(7, 0), Look(1, 0), Check(1), Claim(1), Look(2, 0), Check(2)]), 2, 1, 1);
  }
}
