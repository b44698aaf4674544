/** Deletions between the steps of calls in flight: the cleaning of the table against rotations
    that have looked a token up and not claimed it yet. */
module TokenCleaning {
  import opened Wrappers
  import opened TokenStore
  import opened TokenProtocol
  import TokenPurge

  /** The table after the scheduled purge, or after deleting expired rows only. */
  function Cleaned(w: World, purged: bool): World {
    w.(store := if purged then w.store.Purge() else TokenPurge.DropExpired(w.store))
  }

  /** A rotation passed its checks on a live token that has expired since and is not claimed yet. */
  predicate LateClaim(w: World, c: Call) {
    c in w.calls && w.calls[c].Claiming? && w.store.LiveToken(w.calls[c].token)
    && w.store.rows[w.calls[c].token].Expired(w.store.now)
  }

  /** No look-up of an unexpired token that was revoked more than the grace period ago, where
      such rows are deleted. */
  predicate RegularStep(w: World, s: Step, purged: bool) {
    purged && s.Look? && s.token in w.store.rows && w.store.rows[s.token].LongRevoked(w.store.now) ==>
      w.store.rows[s.token].Expired(w.store.now)
  }

  predicate RegularSteps(w: World, steps: seq<Step>, purged: bool)
    decreases |steps|
  {
    steps == [] || (RegularStep(w, steps[0], purged) && RegularSteps(Next(w, steps[0]), steps[1..], purged))
  }

  // ---------------------------------------------------------------- simulation

  /** A call stands at the same point with and without the deletions, or has looked up an
      expired row where the other found none. What it may still claim is in both tables. */
  ghost predicate CallAlike(clean: World, full: World, c: Call)
    requires c in clean.calls && c in full.calls
  {
    var p, q := clean.calls[c], full.calls[c];
    && (p == q || (p.Looked? && q.Looked? && p.found.None? && q.found.Some?
                   && q.found.value.Expired(full.store.now)))
    && (q.Claiming? && full.store.LiveToken(q.token) ==> q.token in clean.store.rows)
  }

  ghost predicate Alike(clean: World, full: World, purged: bool) {
    && clean.h == full.h && TokenPurge.Similar(clean.store, full.store, purged)
    && clean.calls.Keys == full.calls.Keys
    && forall c {:trigger CallAlike(clean, full, c)} :: c in clean.calls ==> CallAlike(clean, full, c)
  }

  /** A row that was looked up keeps its expiry. */
  ghost predicate SnapshotOk(w: World, c: Call)
    requires c in w.calls
  {
    var p := w.calls[c];
    p.Looked? && p.found.Some? && p.token in w.store.rows ==> w.store.rows[p.token].expiresAt == p.found.value.expiresAt
  }

  ghost predicate Snapshots(w: World) {
    forall c {:trigger SnapshotOk(w, c)} :: c in w.calls ==> SnapshotOk(w, c)
  }

  lemma NextKeepsSnapshots(w: World, s: Step)
    requires Inv(w) && Snapshots(w)
    ensures Snapshots(Next(w, s))
  {
    var w' := Next(w, s);
    forall c {:trigger SnapshotOk(w', c)} | c in w'.calls ensures SnapshotOk(w', c) {
      if c in w.calls { assert SnapshotOk(w, c) && PhaseOk(w.h, w.calls[c]); }
    }
  }

  /** A claim wins on both sides or on neither. */
  lemma ClaimAlike(clean: World, full: World, c: Call, purged: bool)
    requires Alike(clean, full, purged) && c in full.calls && full.calls[c].Claiming?
    ensures c in clean.calls && clean.calls[c] == full.calls[c]
    ensures clean.store.LiveToken(full.calls[c].token) <==> full.store.LiveToken(full.calls[c].token)
  {
    assert CallAlike(clean, full, c);
  }

  /** The checks let a call go on on both sides or on neither. */
  lemma CheckAlike(clean: World, full: World, c: Call, purged: bool)
    requires Alike(clean, full, purged) && c in full.calls && full.calls[c].Looked?
    ensures c in clean.calls && clean.calls[c].Looked?
    ensures c in Decide(clean, c) <==> c in Decide(full, c)
  {
    assert CallAlike(clean, full, c);
  }

  lemma HistoryAlike(clean: World, full: World, s: Step, purged: bool)
    requires Alike(clean, full, purged)
    ensures Next(clean, s).h == Next(full, s).h
  {
    match s
    case Claim(c) =>
      if c in clean.calls {
        assert CallAlike(clean, full, c);
        if full.calls[c].Claiming? { ClaimAlike(clean, full, c, purged); }
      }
    case Create(c, t) => if c in clean.calls { assert CallAlike(clean, full, c); }
    case _ =>
  }

  /** The same calls are in flight. */
  lemma CallsAlike(clean: World, full: World, s: Step, purged: bool)
    requires Alike(clean, full, purged)
    ensures Next(clean, s).calls.Keys == Next(full, s).calls.Keys
  {
    if !s.Login? && !s.Logout? && !s.Purge? && !s.Tick? && !s.SetInactive? && s.call in clean.calls {
      var c := s.call;
      assert CallAlike(clean, full, c);
      if full.calls[c].Claiming? { ClaimAlike(clean, full, c, purged); }
      if full.calls[c].Looked? { CheckAlike(clean, full, c, purged); }
    }
  }

  lemma TablesAlike(clean: World, full: World, s: Step, purged: bool)
    requires Alike(clean, full, purged)
    ensures TokenPurge.Similar(Next(clean, s).store, Next(full, s).store, purged)
  {
    match s
    case Claim(c) =>
      if c in clean.calls {
        assert CallAlike(clean, full, c);
        if full.calls[c].Claiming? { ClaimAlike(clean, full, c, purged); }
      }
    case Create(c, t) => if c in clean.calls { assert CallAlike(clean, full, c); }
    case RevokeFamily(c) => if c in clean.calls { assert CallAlike(clean, full, c); }
    case _ =>
  }

  predicate StepOf(s: Step, c: Call) {
    match s
    case Look(d, _) => d == c
    case Check(d) => d == c
    case RevokeFamily(d) => d == c
    case Claim(d) => d == c
    case Create(d, _) => d == c
    case Crash(d) => d == c
    case _ => false
  }

  /** A live token that was stored before is live still, and in the cleaned table if it was. */
  lemma LiveBoth(clean: World, full: World, s: Step, purged: bool, t: Token)
    requires Alike(clean, full, purged) && TokenPurge.Similar(Next(clean, s).store, Next(full, s).store, purged)
    requires t in full.h.node && Next(full, s).store.LiveToken(t)
    ensures full.store.LiveToken(t)
    ensures t in clean.store.rows ==> t in Next(clean, s).store.rows
  {
    match s
    case Claim(c) => if c in clean.calls { assert CallAlike(clean, full, c); }
    case RevokeFamily(c) => if c in clean.calls { assert CallAlike(clean, full, c); }
    case _ =>
  }

  lemma OtherCallAlike(clean: World, full: World, s: Step, purged: bool, c: Call)
    requires Inv(full) && Alike(clean, full, purged) && !StepOf(s, c) && c in clean.calls
    requires TokenPurge.Similar(Next(clean, s).store, Next(full, s).store, purged)
    ensures c in Next(clean, s).calls && c in Next(full, s).calls && CallAlike(Next(clean, s), Next(full, s), c)
  {
    StandsStill(clean, s, c);
    StandsStill(full, s, c);
    assert CallAlike(clean, full, c) && PhaseOk(full.h, full.calls[c]);
    var q := full.calls[c];
    if q.Claiming? && Next(full, s).store.LiveToken(q.token) { LiveBoth(clean, full, s, purged, q.token); }
  }

  lemma StandsStill(w: World, s: Step, c: Call)
    requires !StepOf(s, c) && c in w.calls
    ensures c in Next(w, s).calls && Next(w, s).calls[c] == w.calls[c] && w.store.now <= Next(w, s).store.now
  {}

  lemma OwnCallAlike(clean: World, full: World, s: Step, purged: bool, c: Call)
    requires Snapshots(full) && Alike(clean, full, purged) && RegularStep(full, s, purged)
    requires StepOf(s, c) && c in Next(clean, s).calls && c in Next(full, s).calls
    ensures CallAlike(Next(clean, s), Next(full, s), c)
  {
    if c in clean.calls { assert CallAlike(clean, full, c) && SnapshotOk(full, c); }
  }

  /** A call that appears is the one the step is of. */
  lemma NewCall(w: World, s: Step, c: Call)
    requires c !in w.calls && c in Next(w, s).calls
    ensures StepOf(s, c)
  {}

  /** A step keeps the two worlds alike. */
  lemma NextAlike(clean: World, full: World, s: Step, purged: bool)
    requires Inv(full) && Snapshots(full) && Alike(clean, full, purged) && RegularStep(full, s, purged)
    ensures Alike(Next(clean, s), Next(full, s), purged)
  {
    var clean', full' := Next(clean, s), Next(full, s);
    HistoryAlike(clean, full, s, purged);
    CallsAlike(clean, full, s, purged);
    TablesAlike(clean, full, s, purged);
    forall c {:trigger CallAlike(clean', full', c)} | c in clean'.calls ensures CallAlike(clean', full', c) {
      if StepOf(s, c) {
        OwnCallAlike(clean, full, s, purged, c);
      } else {
        if c !in clean.calls { NewCall(clean, s, c); }
        OtherCallAlike(clean, full, s, purged, c);
      }
    }
  }

  lemma {:induction false} RunAlike(clean: World, full: World, steps: seq<Step>, purged: bool)
    requires Inv(full) && Snapshots(full) && Alike(clean, full, purged) && RegularSteps(full, steps, purged)
    ensures Alike(Run(clean, steps), Run(full, steps), purged)
    decreases |steps|
  {
    if steps != [] {
      NextAlike(clean, full, steps[0], purged);
      NextKeepsInv(full, steps[0]);
      NextKeepsSnapshots(full, steps[0]);
      RunAlike(Next(clean, steps[0]), Next(full, steps[0]), steps[1..], purged);
    }
  }

  lemma {:induction false} RunKeepsSnapshots(w: World, steps: seq<Step>)
    requires Inv(w) && Snapshots(w)
    ensures Snapshots(Run(w, steps))
    decreases |steps|
  {
    if steps != [] {
      NextKeepsInv(w, steps[0]);
      NextKeepsSnapshots(w, steps[0]);
      RunKeepsSnapshots(Next(w, steps[0]), steps[1..]);
    }
  }

  /** Cleaning the one table and not the other keeps them alike, if no claim comes late. */
  lemma CleanedAlike(clean: World, full: World, purged: bool, all: bool)
    requires Alike(clean, full, purged) && (all ==> purged) && forall c :: !LateClaim(full, c)
    ensures Alike(Cleaned(clean, all), full, purged)
  {
    var clean' := Cleaned(clean, all);
    forall c {:trigger CallAlike(clean', full, c)} | c in clean'.calls ensures CallAlike(clean', full, c) {
      assert CallAlike(clean, full, c) && !LateClaim(full, c);
    }
  }

  lemma SelfAlike(w: World, purged: bool)
    ensures Alike(w, w, purged)
  {
    forall c {:trigger CallAlike(w, w, c)} | c in w.calls ensures CallAlike(w, w, c) {}
  }

  // ---------------------------------------------------------------- the condition

  /** From here on the same tokens are minted and claimed, with the deletion and without it. */
  ghost predicate Unnoticed(w: World, purged: bool, steps: seq<Step>) {
    RegularSteps(w, steps, purged) ==> Run(Cleaned(w, purged), steps).h == Run(w, steps).h
  }

  lemma OneStepRun(w: World, s: Step)
    ensures Run(w, [s]) == Next(w, s)
  {
    assert [s][1..] == [];
    assert Run(w, [s]) == Run(Next(w, s), []);
  }

  /** The late claim wins without the deletion and loses with it. */
  lemma LateClaimLoses(w: World, c: Call, purged: bool)
    requires LateClaim(w, c)
    ensures !Unnoticed(w, purged, [Claim(c)])
  {
    var t := w.calls[c].token;
    OneStepRun(w, Claim(c));
    OneStepRun(Cleaned(w, purged), Claim(c));
    assert RegularSteps(Next(w, Claim(c)), [Claim(c)][1..], purged);
    assert Next(w, Claim(c)).h.claims[t] == w.h.claims[t] + 1;
    assert Next(Cleaned(w, purged), Claim(c)).h == w.h;
  }

  /** Whatever calls are in flight, the deletion of stale rows is unnoticed by all that follows
      exactly when no rotation is about to claim a token that expired after its check. */
  lemma CleaningIsUnnoticedIff(w0: World, before: seq<Step>, purged: bool)
    requires Init(w0)
    ensures var w := Run(w0, before);
            (forall steps :: Unnoticed(w, purged, steps)) <==> (forall c :: !LateClaim(w, c))
  {
    var w := Run(w0, before);
    RunKeepsInv(w0, before);
    RunKeepsSnapshots(w0, before);
    if c :| LateClaim(w, c) {
      LateClaimLoses(w, c, purged);
    } else {
      SelfAlike(w, purged);
      CleanedAlike(w, w, purged, purged);
      forall steps ensures Unnoticed(w, purged, steps) {
        if RegularSteps(w, steps, purged) { RunAlike(Cleaned(w, purged), w, steps, purged); }
      }
    }
  }

  // ---------------------------------------------------------------- many deletions

  /** A step, which may be the scheduled purge, or the deletion of expired rows only. */
  datatype Move = Does(step: Step) | Vacuum {
    predicate Cleans() { Vacuum? || step.Purge? }
  }

  function RunCleaned(w: World, ms: seq<Move>): World
    decreases |ms|
  {
    if ms == [] then w
    else RunCleaned(if ms[0].Vacuum? then Cleaned(w, false) else Next(w, ms[0].step), ms[1..])
  }

  /** The same steps on a table nobody cleans. */
  function RunUncleaned(w: World, ms: seq<Move>): World
    decreases |ms|
  {
    if ms == [] then w else RunUncleaned(if ms[0].Cleans() then w else Next(w, ms[0].step), ms[1..])
  }

  /** No deletion meets a late claim, and the other steps are regular. */
  ghost predicate Timely(w: World, ms: seq<Move>, purged: bool)
    decreases |ms|
  {
    ms == [] ||
    if ms[0].Cleans() then (ms[0].Does? ==> purged) && (forall c :: !LateClaim(w, c)) && Timely(w, ms[1..], purged)
    else RegularStep(w, ms[0].step, purged) && Timely(Next(w, ms[0].step), ms[1..], purged)
  }

  lemma {:induction false} CleaningsAlike(clean: World, full: World, ms: seq<Move>, purged: bool)
    requires Inv(full) && Snapshots(full) && Alike(clean, full, purged) && Timely(full, ms, purged)
    ensures Alike(RunCleaned(clean, ms), RunUncleaned(full, ms), purged)
    decreases |ms|
  {
    if ms != [] {
      if ms[0].Cleans() {
        CleanedAlike(clean, full, purged, ms[0].Does?);
        CleaningsAlike(Cleaned(clean, ms[0].Does?), full, ms[1..], purged);
      } else {
        var s := ms[0].step;
        NextAlike(clean, full, s, purged);
        NextKeepsInv(full, s);
        NextKeepsSnapshots(full, s);
        CleaningsAlike(Next(clean, s), Next(full, s), ms[1..], purged);
      }
    }
  }

  /** Deletions at any moments, between the steps of any calls, leave everything that is minted
      and claimed as it would be without them, unless one meets a late claim. */
  lemma CleaningsAreUnnoticed(w0: World, ms: seq<Move>, purged: bool)
    requires Init(w0) && Timely(w0, ms, purged)
    ensures RunCleaned(w0, ms).h == RunUncleaned(w0, ms).h
  {
    SelfAlike(w0, purged);
    CleaningsAlike(w0, w0, ms, purged);
  }

  // ---------------------------------------------------------------- the condition fails

  lemma RunUnfolds(w: World, a: Step, b: Step, c: Step, d: Step)
    ensures Run(w, [a, b, c, d]) == Next(Next(Next(Next(w, a), b), c), d)
  {
    var s := [a, b, c, d];
    assert s[1..] == [b, c, d] && s[1..][1..] == [c, d] && s[1..][1..][1..] == [d];
    OneStepRun(Next(Next(Next(w, a), b), c), d);
    assert Run(Next(Next(w, a), b), [c, d]) == Run(Next(Next(Next(w, a), b), c), [d]);
    assert Run(Next(w, a), [b, c, d]) == Run(Next(Next(w, a), b), [c, d]);
  }

  /** A rotation passes its checks just before its token expires, and the purge comes just
      before the claim: without the purge the claim would have won. */
  lemma PurgeRacesClaim(w0: World)
    requires Init(w0) && 7 !in w0.store.inactive
    ensures var w := Run(w0, [Login(7, 0), Look(1, 0), Check(1), Tick(w0.store.ttlDays * DAY_MS + 1)]);
            LateClaim(w, 1) && !Unnoticed(w, true, [Claim(1)])
  {
    var ms := w0.store.ttlDays * DAY_MS + 1;
    var live := Row(7, w0.store.now + w0.store.ttlDays * DAY_MS, None);
    RunUnfolds(w0, Login(7, 0), Look(1, 0), Check(1), Tick(ms));
    var w1 := Next(w0, Login(7, 0));
    assert w1.store.rows == map[0 := live] && w1.calls == map[];
    var w2 := Next(w1, Look(1, 0));
    assert w2.calls == map[1 := Looked(0, Some(live), false)] && w2.store == w1.store;
    var w3 := Next(w2, Check(1));
    assert w3.calls == map[1 := Claiming(0, 7)] && w3.store == w1.store;
    LateClaimLoses(Next(w3, Tick(ms)), 1, true);
  }
}
