/** Refresh-token rotation as a concurrent protocol.

    Every awaited database call is one atomic step, and any number of `rotate` calls are
    in flight at once. A call is found in `calls` at the point it has reached; a crash
    (or an exception while the access token is signed) removes it.
  */
module TokenProtocol {
  import opened Wrappers
  import opened TokenStore

  type Call = nat

  /** Where a `rotate` call stands between two of its awaits. */
  datatype Phase =
    | Looked(token: Token, found: Option<Row>, ownerInactive: bool)  // the snapshot is back
    | Revoking(user: User)                                           // reuse detected
    | Claiming(token: Token, user: User)                             // all checks passed
    | Claimed(token: Token, user: User)                              // won; successor not created

  /** A token's place in its family: the login it descends from, how many rotations it is
      away from that login, and the token whose rotation created it. */
  datatype Node = Node(root: Token, user: User, age: nat, parent: Option<Token>)

  /** What has happened so far; no code reads it. `slot` finds the token of a family by its
      age, `size` counts a family's tokens, and `claims` counts successful claims. */
  datatype History = History(
    node: map<Token, Node>,
    slot: map<(Token, nat), Token>,
    size: map<Token, nat>,
    claims: multiset<Token>)

  datatype World = World(store: Store, calls: map<Call, Phase>, h: History)

  datatype Step =
    | Login(user: User, minted: Token)
    | Look(call: Call, token: Token)
    | Check(call: Call)
    | RevokeFamily(call: Call)
    | Claim(call: Call)
    | Create(call: Call, minted: Token)
    | Crash(call: Call)
    | Logout(token: Token)
    | Purge
    | Tick(ms: nat)
    | SetInactive(user: User, inactive: bool)

  /** Random 256-bit tokens do not repeat, not even after their row was purged. */
  predicate Fresh(w: World, t: Token) {
    t !in w.h.node
  }

  ghost predicate Init(w: World) {
    w.store.rows == map[] && w.calls == map[] && w.h == History(map[], map[], map[], multiset{})
  }

  /** One atomic step. A step whose call is not at that point does nothing. */
  function Next(w: World, s: Step): World {
    match s
    case Login(u, t) => if Fresh(w, t) then StartFamily(w, u, t) else w
    case Look(c, t) =>
      if c in w.calls then w else
      var found := w.store.Find(t);
      w.(calls := w.calls[c := Looked(t, found, found.Some? && found.value.user in w.store.inactive)])
    case Check(c) => if c in w.calls && w.calls[c].Looked? then w.(calls := Decide(w, c)) else w
    case RevokeFamily(c) =>
      if c in w.calls && w.calls[c].Revoking? then
        w.(store := w.store.RevokeAll(w.calls[c].user), calls := w.calls - {c})
      else w
    case Claim(c) => if c in w.calls && w.calls[c].Claiming? then TryClaim(w, c) else w
    case Create(c, t) =>
      if c in w.calls && w.calls[c].Claimed? && Fresh(w, t) then ExtendFamily(w, c, t) else w
    case Crash(c) => w.(calls := w.calls - {c})
    case Logout(t) => w.(store := w.store.Claim(t))
    case Purge => w.(store := w.store.Purge())
    case Tick(ms) => w.(store := w.store.(now := w.store.now + ms))
    case SetInactive(u, b) =>
      w.(store := w.store.(inactive := if b then w.store.inactive + {u} else w.store.inactive - {u}))
  }

  /** The checks on the snapshot, in the code's order. */
  function Decide(w: World, c: Call): map<Call, Phase>
    requires c in w.calls && w.calls[c].Looked?
  {
    var look := w.calls[c];
    if look.found.None? || look.found.value.Expired(w.store.now) then w.calls - {c}
    else if !look.found.value.Live() then w.calls[c := Revoking(look.found.value.user)]
    else if look.ownerInactive then w.calls - {c}
    else w.calls[c := Claiming(look.token, look.found.value.user)]
  }

  function TryClaim(w: World, c: Call): World
    requires c in w.calls && w.calls[c].Claiming?
  {
    var t := w.calls[c].token;
    if w.store.LiveToken(t) then
      World(w.store.Claim(t), w.calls[c := Claimed(t, w.calls[c].user)], w.h.(claims := w.h.claims + multiset{t}))
    else w.(calls := w.calls - {c})
  }

  function StartFamily(w: World, u: User, t: Token): World {
    World(w.store.Insert(t, u), w.calls, Started(w.h, u, t))
  }

  function Started(h: History, u: User, t: Token): History {
    h.(node := h.node[t := Node(t, u, 0, None)], slot := h.slot[(t, 0) := t], size := h.size[t := 1])
  }

  /** The successor joins the family of the claimed token. */
  function ExtendFamily(w: World, c: Call, t: Token): World
    requires c in w.calls && w.calls[c].Claimed?
  {
    World(w.store.Insert(t, w.calls[c].user), w.calls - {c}, Extended(w.h, w.calls[c].token, t))
  }

  function Extended(h: History, from: Token, t: Token): History {
    if from !in h.node || h.node[from].root !in h.size then h  // excluded by HistoryOk
    else
      var n := h.node[from];
      var size := h.size[n.root];
      h.(node := h.node[t := Node(n.root, n.user, n.age + 1, Some(from))],
         slot := h.slot[(n.root, n.age + 1) := t], size := h.size[n.root := size + 1])
  }

  function Run(w: World, steps: seq<Step>): World
    decreases |steps|
  {
    if steps == [] then w else Run(Next(w, steps[0]), steps[1..])
  }

  lemma {:induction false} RunConcat(w: World, a: seq<Step>, b: seq<Step>)
    ensures Run(w, a + b) == Run(Run(w, a), b)
    decreases |a|
  {
    if a == [] {
      assert a + b == b;
    } else {
      assert (a + b)[0] == a[0] && (a + b)[1..] == a[1..] + b;
      RunConcat(Next(w, a[0]), a[1..], b);
    }
  }

  // ---------------------------------------------------------------- invariant

  /** The token belongs to a login of this user. */
  ghost predicate OwnedBy(h: History, t: Token, u: User) {
    t in h.node && h.node[t].user == u
  }

  /** The token is the last of its family. */
  ghost predicate Youngest(h: History, t: Token) {
    t in h.node && h.node[t].root in h.size && h.node[t].age + 1 == h.size[h.node[t].root]
  }

  /** Ages number the family from its login on without gaps or doubles, each later token
      was created by the rotation that claimed the one before it, and every token but the
      last was claimed exactly once. */
  ghost predicate NodeOk(h: History, t: Token)
    requires t in h.node
  {
    var n := h.node[t];
    && n.root in h.size && n.age < h.size[n.root]
    && (n.root, n.age) in h.slot && h.slot[(n.root, n.age)] == t
    && (n.age == 0 ==> n.root == t && n.parent.None?)
    && (n.age > 0 ==> n.parent.Some? && ParentOk(h, n, n.parent.value))
    && h.claims[t] <= 1
    && (n.age + 1 < h.size[n.root] ==> h.claims[t] == 1)
  }

  ghost predicate ParentOk(h: History, n: Node, p: Token) {
    p in h.node && h.node[p].root == n.root && h.node[p].age == n.age - 1 && h.node[p].user == n.user &&
      h.claims[p] == 1
  }

  /** The slot of the last age is taken. */
  ghost predicate SizeOk(h: History, r: Token)
    requires r in h.size
  {
    && h.size[r] > 0 && (r, h.size[r] - 1) in h.slot
    && var t := h.slot[(r, h.size[r] - 1)];
    && t in h.node && h.node[t].root == r && h.node[t].age == h.size[r] - 1
  }

  ghost predicate HistoryOk(h: History) {
    && (forall t {:trigger NodeOk(h, t)} :: t in h.node ==> NodeOk(h, t))
    && (forall r {:trigger SizeOk(h, r)} :: r in h.size ==> SizeOk(h, r))
    && h.size.Keys <= h.node.Keys
    && (forall t :: t in h.claims ==> t in h.node)
  }

  ghost predicate RowOk(w: World, t: Token)
    requires t in w.store.rows
  {
    && OwnedBy(w.h, t, w.store.rows[t].user)
    && (w.store.rows[t].Live() ==> t !in w.h.claims && Youngest(w.h, t))
  }

  ghost predicate PhaseOk(h: History, p: Phase) {
    match p
    case Looked(t, found, _) => found.Some? ==> OwnedBy(h, t, found.value.user)
    case Revoking(_) => true
    case Claiming(t, u) => OwnedBy(h, t, u)
    case Claimed(t, u) => OwnedBy(h, t, u) && t in h.claims && Youngest(h, t)
  }

  ghost predicate Inv(w: World) {
    && HistoryOk(w.h)
    && (forall t {:trigger RowOk(w, t)} :: t in w.store.rows ==> RowOk(w, t))
    && (forall c {:trigger PhaseOk(w.h, w.calls[c])} :: c in w.calls ==> PhaseOk(w.h, w.calls[c]))
    && (forall c, d {:trigger w.calls[c].Claimed?, w.calls[d].Claimed?} ::
          c in w.calls && d in w.calls && c != d && w.calls[c].Claimed? && w.calls[d].Claimed? ==>
            w.calls[c].token != w.calls[d].token)
  }

  /** What a row or a call may rely on is kept when the history grows this way. */
  ghost predicate Keeps(h: History, h': History, but: set<Token>) {
    && (forall t, u :: OwnedBy(h, t, u) ==> OwnedBy(h', t, u))
    && (forall t :: Youngest(h, t) && t !in but ==> Youngest(h', t))
  }

  lemma StartedNodeOk(h: History, u: User, t: Token, x: Token)
    requires HistoryOk(h) && t !in h.node && x in Started(h, u, t).node
    ensures NodeOk(Started(h, u, t), x)
  {
    if x != t { assert NodeOk(h, x); }
  }

  lemma StartedSizeOk(h: History, u: User, t: Token, r: Token)
    requires HistoryOk(h) && t !in h.node && r in Started(h, u, t).size
    ensures SizeOk(Started(h, u, t), r)
  {
    if r != t { assert SizeOk(h, r); }
  }

  lemma StartedOk(h: History, u: User, t: Token)
    requires HistoryOk(h) && t !in h.node
    ensures HistoryOk(Started(h, u, t)) && Keeps(h, Started(h, u, t), {})
    ensures OwnedBy(Started(h, u, t), t, u) && Youngest(Started(h, u, t), t)
  {
    var h' := Started(h, u, t);
    forall x {:trigger NodeOk(h', x)} | x in h'.node ensures NodeOk(h', x) { StartedNodeOk(h, u, t, x); }
    forall r {:trigger SizeOk(h', r)} | r in h'.size ensures SizeOk(h', r) { StartedSizeOk(h, u, t, r); }
  }

  lemma ExtendedNodeOk(h: History, from: Token, t: Token, x: Token)
    requires HistoryOk(h) && t !in h.node && Youngest(h, from) && from in h.claims
    requires x in Extended(h, from, t).node
    ensures NodeOk(Extended(h, from, t), x)
  {
    assert NodeOk(h, from);
    if x != t { assert NodeOk(h, x); }
  }

  lemma ExtendedSizeOk(h: History, from: Token, t: Token, r: Token)
    requires HistoryOk(h) && t !in h.node && Youngest(h, from) && from in h.claims
    requires r in Extended(h, from, t).size
    ensures SizeOk(Extended(h, from, t), r)
  {
    assert NodeOk(h, from);
    assert SizeOk(h, r);
  }

  lemma ExtendedOk(h: History, from: Token, t: Token, u: User)
    requires HistoryOk(h) && t !in h.node && Youngest(h, from) && from in h.claims && OwnedBy(h, from, u)
    ensures HistoryOk(Extended(h, from, t)) && Keeps(h, Extended(h, from, t), {from})
    ensures OwnedBy(Extended(h, from, t), t, u) && Youngest(Extended(h, from, t), t)
  {
    var h' := Extended(h, from, t);
    assert NodeOk(h, from);
    forall x {:trigger NodeOk(h', x)} | x in h'.node ensures NodeOk(h', x) { ExtendedNodeOk(h, from, t, x); }
    forall r {:trigger SizeOk(h', r)} | r in h'.size ensures SizeOk(h', r) { ExtendedSizeOk(h, from, t, r); }
    forall x | Youngest(h, x) && x != from ensures Youngest(h', x) {
      assert NodeOk(h, x);
    }
  }

  lemma ClaimRecordedOk(h: History, t: Token)
    requires HistoryOk(h) && t in h.node && t !in h.claims
    ensures HistoryOk(h.(claims := h.claims + multiset{t})) && Keeps(h, h.(claims := h.claims + multiset{t}), {})
  {
    var h' := h.(claims := h.claims + multiset{t});
    forall x {:trigger NodeOk(h', x)} | x in h'.node ensures NodeOk(h', x) { assert NodeOk(h, x); }
    forall r {:trigger SizeOk(h', r)} | r in h'.size ensures SizeOk(h', r) { assert SizeOk(h, r); }
  }

  /** Steps that only remove rows, revoke them, or end calls keep the invariant. */
  lemma ShrinkKeepsInv(w: World, w': World)
    requires Inv(w) && w'.h == w.h
    requires forall t :: t in w'.store.rows ==> t in w.store.rows && w'.store.rows[t].user == w.store.rows[t].user
    requires forall t :: t in w'.store.rows && w'.store.rows[t].Live() ==> w.store.rows[t].Live()
    requires forall c :: c in w'.calls ==> PhaseOk(w.h, w'.calls[c])
    requires forall c :: c in w'.calls && w'.calls[c].Claimed? ==> c in w.calls && w'.calls[c] == w.calls[c]
    ensures Inv(w')
  {
    forall t {:trigger RowOk(w', t)} | t in w'.store.rows ensures RowOk(w', t) { assert RowOk(w, t); }
    forall c {:trigger PhaseOk(w'.h, w'.calls[c])} | c in w'.calls
        ensures PhaseOk(w'.h, w'.calls[c]) { assert PhaseOk(w.h, w'.calls[c]); }
  }

  lemma NextKeepsInv(w: World, s: Step)
    requires Inv(w)
    ensures Inv(Next(w, s))
  {
    match s
    case Login(u, t) => if Fresh(w, t) { StartFamilyKeepsInv(w, u, t); }
    case Create(c, t) =>
      if c in w.calls && w.calls[c].Claimed? && Fresh(w, t) { ExtendFamilyKeepsInv(w, c, t); }
    case Claim(c) => if c in w.calls && w.calls[c].Claiming? { TryClaimKeepsInv(w, c); }
    case Look(c, t) => if t in w.store.rows { assert RowOk(w, t); } ShrinkKeepsInv(w, Next(w, s));
    case Check(c) => if c in w.calls { assert PhaseOk(w.h, w.calls[c]); } ShrinkKeepsInv(w, Next(w, s));
    case _ => ShrinkKeepsInv(w, Next(w, s));
  }

  lemma StartFamilyKeepsInv(w: World, u: User, t: Token)
    requires Inv(w) && Fresh(w, t)
    ensures Inv(StartFamily(w, u, t))
  {
    var w' := StartFamily(w, u, t);
    StartedOk(w.h, u, t);
    forall x {:trigger RowOk(w', x)} | x in w'.store.rows ensures RowOk(w', x) {
      if x != t { assert RowOk(w, x); }
    }
    forall d {:trigger PhaseOk(w'.h, w'.calls[d])} | d in w'.calls
        ensures PhaseOk(w'.h, w'.calls[d]) { assert PhaseOk(w.h, w.calls[d]); }
  }

  lemma ExtendFamilyKeepsInv(w: World, c: Call, t: Token)
    requires Inv(w) && Fresh(w, t) && c in w.calls && w.calls[c].Claimed?
    ensures Inv(ExtendFamily(w, c, t))
  {
    var w' := ExtendFamily(w, c, t);
    assert PhaseOk(w.h, w.calls[c]);
    ExtendedOk(w.h, w.calls[c].token, t, w.calls[c].user);
    assert w'.h.claims == w.h.claims;
    forall x {:trigger RowOk(w', x)} | x in w'.store.rows ensures RowOk(w', x) {
      if x != t { assert RowOk(w, x); }
    }
    forall d {:trigger PhaseOk(w'.h, w'.calls[d])} | d in w'.calls
        ensures PhaseOk(w'.h, w'.calls[d]) { assert PhaseOk(w.h, w.calls[d]); }
  }

  lemma TryClaimKeepsInv(w: World, c: Call)
    requires Inv(w) && c in w.calls && w.calls[c].Claiming?
    ensures Inv(TryClaim(w, c))
  {
    var w' := TryClaim(w, c);
    var t := w.calls[c].token;
    assert PhaseOk(w.h, w.calls[c]);
    if w.store.LiveToken(t) {
      assert RowOk(w, t);
      ClaimRecordedOk(w.h, t);
      forall x {:trigger RowOk(w', x)} | x in w'.store.rows ensures RowOk(w', x) { assert RowOk(w, x); }
      forall d {:trigger PhaseOk(w'.h, w'.calls[d])} | d in w'.calls
          ensures PhaseOk(w'.h, w'.calls[d]) { assert PhaseOk(w.h, w.calls[d]); }
      assert forall d :: d in w.calls && w.calls[d].Claimed? ==> PhaseOk(w.h, w.calls[d]) && w.calls[d].token != t;
    } else {
      ShrinkKeepsInv(w, w');
    }
  }

  lemma {:induction false} RunKeepsInv(w: World, steps: seq<Step>)
    requires Inv(w)
    ensures Inv(Run(w, steps))
    decreases |steps|
  {
    if steps != [] {
      NextKeepsInv(w, steps[0]);
      RunKeepsInv(Next(w, steps[0]), steps[1..]);
    }
  }
}
