/** The audit worker and the audits service as code that changes the database in place, while
    other actors run during each await. */
module AuditServices {
  import opened Sets
  import opened Wrappers
  import opened AuditProtocol
  import opened AuditInvariant
  import opened AuditDeadline
  import AuditSafety

  /** The step of somebody else. */
  predicate ForeignStep(s: Step, me: Actor) {
    s.Purge? || s.Tick? || s.actor != me
  }

  predicate Foreign(steps: seq<Step>, me: Actor) {
    forall i :: 0 <= i < |steps| ==> ForeignStep(steps[i], me)
  }

  lemma ForeignStepKeeps(w: World, s: Step, me: Actor)
    requires ForeignStep(s, me)
    ensures w.now <= Next(w, s).now
    ensures me in w.actors <==> me in Next(w, s).actors
    ensures me in w.actors ==> Next(w, s).actors[me] == w.actors[me]
  {}

  lemma {:induction false} ForeignKeeps(w: World, steps: seq<Step>, me: Actor)
    requires Foreign(steps, me)
    ensures w.now <= Run(w, steps).now
    ensures me in w.actors <==> me in Run(w, steps).actors
    ensures me in w.actors ==> Run(w, steps).actors[me] == w.actors[me]
    decreases |steps|
  {
    if steps != [] {
      ForeignStepKeeps(w, steps[0], me);
      ForeignKeeps(Next(w, steps[0]), steps[1..], me);
    }
  }

  lemma {:induction false} RunConcat(w: World, a: seq<Step>, b: seq<Step>)
    ensures Run(w, a + b) == Run(Run(w, a), b)
    decreases |a|
  {
    if a == [] {
      assert a + b == b;
    } else {
      assert (a + b)[0] == a[0] && (a + b)[1..] == a[1..] + b;
      RunConcat(Next(w, a[0]), a[1..], b);
    }
  }

  lemma RunThen(w: World, a: seq<Step>, pause: seq<Step>, s: Step)
    ensures Run(w, a + (pause + [s])) == Next(Run(Run(w, a), pause), s)
  {
    var w1 := Run(w, a);
    RunConcat(w, a, pause + [s]);
    RunConcat(w1, pause, [s]);
    assert [s][1..] == [];
    assert Run(Run(w1, pause), [s]) == Run(Next(Run(w1, pause), s), []);
  }

  class Database {
    var now: int
    var rows: map<Id, Audit>
    var queued: set<Id>
    var actors: map<Actor, Phase>
    var inbox: seq<Notification>
    var h: History

    function View(): World reads this {
      World(now, rows, queued, actors, inbox, h)
    }

    constructor (now: int)
      ensures Init(View()) && View().now == now
    {
      this.now := now;
      rows, queued, actors, inbox := map[], {}, map[], [];
      h := History(map[], {}, multiset{}, map[], map[], {});
    }

    method Become(w: World)
      modifies this
      ensures View() == w
    {
      now, rows, queued, actors, inbox, h := w.now, w.rows, w.queued, w.actors, w.inbox, w.h;
    }

    /** Other actors make progress while this one waits. */
    method Others(steps: seq<Step>)
      modifies this
      ensures View() == Run(old(View()), steps)
    {
      var i := 0;
      while i < |steps|
        invariant 0 <= i <= |steps|
        invariant Run(View(), steps[i..]) == Run(old(View()), steps)
      {
        assert steps[i..][0] == steps[i] && steps[i..][1..] == steps[i+1..];
        Become(Next(View(), steps[i]));
        i := i + 1;
      }
      assert steps[i..] == [];
    }

    /** `notification.create`; whether it succeeds is up to the database. */
    method Notify(id: Id, q: Request, kind: Status, delivered: bool)
      modifies this`inbox
      ensures inbox == old(inbox) + if delivered then [Notification(id, q, kind)] else []
    {
      if delivered { inbox := inbox + [Notification(id, q, kind)]; }
    }
  }

  /** How a run comes out: the runner returns, or it throws, or it returns and the completion
      write throws, whether or not the database applied it. */
  datatype Outcome =
    | Returned(findings: Findings)
    | Thrown(message: string)
    | Unacknowledged(findings: Findings, applied: bool, message: string)

  /** The runner's answer and the write that follows it. */
  function WriteSteps(me: Actor, outcome: Outcome): seq<Step> {
    match outcome
    case Returned(f) => [RunnerReturns(me, f), Complete(me)]
    case Thrown(m) => [RunnerThrows(me, m), Fail(me)]
    case Unacknowledged(f, applied, m) => [RunnerReturns(me, f), CompleteThrows(me, applied, m)]
  }

  /** The steps of `handle` from the runner's answer on. A completion write that throws leads
      to the failure write, which others may precede. */
  ghost function EndTrace(w: World, me: Actor, outcome: Outcome, p2: seq<Step>, p3: seq<Step>,
      delivered: bool): seq<Step> {
    var wrote := WriteSteps(me, outcome);
    var ended := if outcome.Unacknowledged? then wrote + (p2 + [Fail(me)]) else wrote;
    if me !in Run(w, ended).actors then ended
    else ended + ((if outcome.Unacknowledged? then p3 else p2) + [Tell(me, delivered)])
  }

  /** The steps of one `handle` call, given what others do in its pauses. */
  ghost function HandleTrace(w: World, me: Actor, outcome: Outcome, p0: seq<Step>, p1: seq<Step>, p2: seq<Step>,
                             p3: seq<Step>, delivered: bool): seq<Step> {
    var claimed := [Claim(me)];
    if me !in Run(w, claimed).actors then claimed
    else
      var read := claimed + (p0 + [ReadRow(me)]);
      if me !in Run(w, read).actors then read
      else read + p1 + EndTrace(Run(w, read + p1), me, outcome, p2, p3, delivered)
  }

  lemma RunTwo(w: World, s1: Step, s2: Step)
    ensures Run(w, [s1]) == Next(w, s1) && Run(w, [s1, s2]) == Next(Next(w, s1), s2)
  {
    assert [s1][1..] == [] && [s1, s2][1..] == [s2] && [s2][1..] == [];
    assert Run(w, [s1]) == Run(Next(w, s1), []);
    assert Run(Next(w, s1), [s2]) == Run(Next(Next(w, s1), s2), []);
  }

  /** Fails the stale rows among `ids`. */
  function GiveUpStale(rows: map<Id, Audit>, ids: set<Id>, cutoff: int, now: int): map<Id, Audit> {
    map id | id in rows :: if id in ids && rows[id].Stale(cutoff) then rows[id].GivenUp("Audit timed out", now)
      else rows[id]
  }

  /** What a sweep that was left alone has done when `todo` is left of its candidates. */
  predicate SweptSoFar(was: map<Id, Audit>, rows: map<Id, Audit>, all: set<Id>, todo: set<Id>, cutoff: int, now: int,
                       reaped: nat)
  {
    reaped + |todo| == |all| && rows == GiveUpStale(was, all - todo, cutoff, now)
  }

  lemma SweptOneMore(was: map<Id, Audit>, rows: map<Id, Audit>, all: set<Id>, todo: set<Id>, id: Id, cutoff: int,
                     now: int, reaped: nat)
    requires SweptSoFar(was, rows, all, todo, cutoff, now, reaped) && id in todo && todo <= all
    requires all == set x | x in was && was[x].Stale(cutoff)
    ensures id in rows && rows[id].Stale(cutoff)
    ensures SweptSoFar(was, GiveUpStale(rows, {id}, cutoff, now), all, todo - {id}, cutoff, now, reaped + 1)
  {
    GiveUpOneMore(was, all, todo, id, cutoff, now);
  }

  lemma GiveUpOneMore(rows: map<Id, Audit>, all: set<Id>, todo: set<Id>, id: Id, cutoff: int, now: int)
    requires id in todo && todo <= all
    requires all == set x | x in rows && rows[x].Stale(cutoff)
    ensures GiveUpStale(GiveUpStale(rows, all - todo, cutoff, now), {id}, cutoff, now)
            == GiveUpStale(rows, all - (todo - {id}), cutoff, now)
    ensures var r := GiveUpStale(rows, all - todo, cutoff, now); id in r && r[id].Stale(cutoff)
  {}

  lemma GiveUpNone(rows: map<Id, Audit>, all: set<Id>, cutoff: int, now: int)
    ensures GiveUpStale(rows, all - all, cutoff, now) == rows
  {}

  lemma GiveUpAll(rows: map<Id, Audit>, all: set<Id>, cutoff: int, now: int)
    requires all == set id | id in rows && rows[id].Stale(cutoff)
    ensures GiveUpStale(rows, all, cutoff, now) == GiveUpStale(rows, rows.Keys, cutoff, now)
  {}

  /** The reaper is about to announce this row and has it off its list. */
  predicate SweepTells(p: Phase, before: Phase, id: Id)
    requires before.Sweeping?
  {
    p.SweepTelling? && p.start == before.start && p.todo == before.todo - {id} && p.id == id
  }

  class GeoAuditWorker {
    const db: Database

    constructor (db: Database)
      ensures this.db == db
    {
      this.db := db;
    }

    /** The claim: `updateMany` guarded by `status: 'PENDING'`. */
    method ClaimPending(me: Actor, id: Id) returns (count: nat)
      requires me in db.actors && db.actors[me] == Delivered(id)
      modifies db
      ensures db.View() == Next(old(db.View()), Claim(me))
      ensures count == 0 <==> me !in db.actors
      ensures count > 0 ==> db.actors[me] == Won(id)
      ensures count == if id in old(db.rows) && old(db.rows)[id].status == PENDING then 1 else 0
      ensures db.rows == if count == 0 then old(db.rows)
        else old(db.rows)[id := old(db.rows)[id].(status := PROCESSING, updatedAt := db.now)]
    {
      if id in db.rows && db.rows[id].status == PENDING {
        db.rows := db.rows[id := db.rows[id].(status := PROCESSING, updatedAt := db.now)];
        db.actors := db.actors[me := Won(id)];
        db.h := db.h.(claims := db.h.claims + multiset{id});
        count := 1;
      } else {
        db.actors := db.actors - {me};
        count := 0;
      }
    }

    /** The completion, guarded by `status: 'PROCESSING'`. */
    method CompleteIfProcessing(me: Actor, id: Id, q: Request, findings: Findings) returns (count: nat)
      requires me in db.actors && db.actors[me] == Finished(id, q, findings)
      modifies db
      ensures db.View() == Next(old(db.View()), Complete(me))
      ensures count == 0 <==> me !in db.actors
      ensures count > 0 ==> db.actors[me] == Telling(id, q, COMPLETED)
      ensures count == if id in old(db.rows) && old(db.rows)[id].status == PROCESSING then 1 else 0
      ensures db.rows == if count == 0 then old(db.rows)
        else old(db.rows)[id := old(db.rows)[id].(status := COMPLETED, findings := Some(findings), error := None,
                                                  fetchedAt := Some(db.now), updatedAt := db.now)]
    {
      if id !in db.rows || db.rows[id].status != PROCESSING {
        db.actors := db.actors - {me};
        return 0;
      }
      db.rows := db.rows[id := db.rows[id].(status := COMPLETED, findings := Some(findings), error := None,
                                            fetchedAt := Some(db.now), updatedAt := db.now)];
      db.h := db.h.(ended := db.h.ended[id := COMPLETED], teller := db.h.teller[id := me]);
      db.actors := db.actors[me := Telling(id, q, COMPLETED)];
      count := 1;
    }

    /** The completion throws, after the database applied it or before, and the catch block begins. */
    method CompleteAndThrow(me: Actor, id: Id, q: Request, findings: Findings, applied: bool, message: string)
      requires me in db.actors && db.actors[me] == Finished(id, q, findings)
      modifies db
      ensures db.View() == Next(old(db.View()), CompleteThrows(me, applied, message))
      ensures !applied ==> db.rows == old(db.rows)
      ensures me in db.actors && db.actors[me] == Threw(id, q, message)
    {
      if applied {
        var _ := CompleteIfProcessing(me, id, q, findings);
      }
      db.actors := db.actors[me := Threw(id, q, message)];
    }

    /** The failure write of the catch block, under the same guard. */
    method FailIfProcessing(me: Actor, id: Id, q: Request, message: string) returns (count: nat)
      requires me in db.actors && db.actors[me] == Threw(id, q, message)
      modifies db
      ensures db.View() == Next(old(db.View()), Fail(me))
      ensures count == 0 <==> me !in db.actors
      ensures count > 0 ==> db.actors[me] == Telling(id, q, FAILED)
      ensures count == if id in old(db.rows) && old(db.rows)[id].status == PROCESSING then 1 else 0
      ensures db.rows == if count == 0 then old(db.rows)
        else old(db.rows)[id := old(db.rows)[id].(status := FAILED, error := Some(message), fetchedAt := Some(db.now),
                                                  updatedAt := db.now)]
    {
      if id !in db.rows || db.rows[id].status != PROCESSING {
        db.actors := db.actors - {me};
        return 0;
      }
      db.rows := db.rows[id := db.rows[id].(status := FAILED, error := Some(message),
                                            fetchedAt := Some(db.now), updatedAt := db.now)];
      db.h := db.h.(ended := db.h.ended[id := FAILED], teller := db.h.teller[id := me]);
      db.actors := db.actors[me := Telling(id, q, FAILED)];
      count := 1;
    }

    /** The notification of the flip, which may be lost. */
    method NotifyAudit(me: Actor, id: Id, q: Request, kind: Status, pause: seq<Step>, delivered: bool)
      requires me in db.actors && db.actors[me] == Telling(id, q, kind) && Foreign(pause, me)
      modifies db
      ensures db.View() == Next(Run(old(db.View()), pause), Tell(me, delivered))
      ensures db.inbox == Run(old(db.View()), pause).inbox + if delivered then [Notification(id, q, kind)] else []
    {
      ghost var w := db.View();
      db.Others(pause);
      ForeignKeeps(w, pause, me);
      db.Notify(id, q, kind, delivered);
      db.actors := db.actors - {me};
    }

    /** The runner's answer and the write: the `try` block, or a throw in its first statement
        and the `catch` block. */
    method Write(me: Actor, id: Id, q: Request, outcome: Outcome) returns (count: nat, kind: Status)
      requires me in db.actors && db.actors[me] == Running(id, q) && !outcome.Unacknowledged?
      modifies db
      ensures db.View() == Run(old(db.View()), WriteSteps(me, outcome))
      ensures count == 0 <==> me !in db.actors
      ensures count > 0 ==> db.actors[me] == Telling(id, q, kind)
    {
      ghost var w := db.View();
      ghost var steps := WriteSteps(me, outcome);
      RunTwo(w, steps[0], steps[1]);
      if outcome.Returned? {
        db.actors := db.actors[me := Finished(id, q, outcome.findings)];
        assert db.View() == Next(w, steps[0]);
        count := CompleteIfProcessing(me, id, q, outcome.findings);
        kind := COMPLETED;
      } else {
        db.actors := db.actors[me := Threw(id, q, outcome.message)];
        assert db.View() == Next(w, steps[0]);
        count := FailIfProcessing(me, id, q, outcome.message);
        kind := FAILED;
      }
    }

    /** The completion write throws into the catch block. */
    method WriteTwice(me: Actor, id: Id, q: Request, outcome: Outcome, pause: seq<Step>) returns (count: nat)
      requires me in db.actors && db.actors[me] == Running(id, q) && outcome.Unacknowledged? && Foreign(pause, me)
      modifies db
      ensures db.View() == Run(old(db.View()), WriteSteps(me, outcome) + (pause + [Fail(me)]))
      ensures count == 0 <==> me !in db.actors
      ensures count > 0 ==> db.actors[me] == Telling(id, q, FAILED)
    {
      ghost var w := db.View();
      ghost var steps := WriteSteps(me, outcome);
      RunTwo(w, steps[0], steps[1]);
      db.actors := db.actors[me := Finished(id, q, outcome.findings)];
      assert db.View() == Next(w, steps[0]);
      CompleteAndThrow(me, id, q, outcome.findings, outcome.applied, outcome.message);
      ghost var w1 := db.View();
      db.Others(pause);
      ForeignKeeps(w1, pause, me);
      RunThen(w, steps, pause, Fail(me));
      count := FailIfProcessing(me, id, q, outcome.message);
    }

    /** The end of the run and, if it flipped the row, the notification. */
    method Finish(me: Actor, id: Id, q: Request, outcome: Outcome, p2: seq<Step>, p3: seq<Step>, delivered: bool)
      requires me in db.actors && db.actors[me] == Running(id, q) && Foreign(p2, me) && Foreign(p3, me)
      modifies db
      ensures db.View() == Run(old(db.View()), EndTrace(old(db.View()), me, outcome, p2, p3, delivered))
    {
      ghost var w := db.View();
      var count, kind := 0, FAILED;
      if outcome.Unacknowledged? {
        count := WriteTwice(me, id, q, outcome, p2);
      } else {
        count, kind := Write(me, id, q, outcome);
      }
      ghost var wrote := WriteSteps(me, outcome);
      ghost var ended := if outcome.Unacknowledged? then wrote + (p2 + [Fail(me)]) else wrote;
      assert db.View() == Run(w, ended);
      if count > 0 {
        var pause := if outcome.Unacknowledged? then p3 else p2;
        RunThen(w, ended, pause, Tell(me, delivered));
        NotifyAudit(me, id, q, kind, pause, delivered);
      }
    }

    /** One delivery of a job. */
    method Handle(me: Actor, id: Id, outcome: Outcome, p0: seq<Step>, p1: seq<Step>, p2: seq<Step>, p3: seq<Step>,
                  delivered: bool)
      requires me in db.actors && db.actors[me] == Delivered(id)
      requires Foreign(p0, me) && Foreign(p1, me) && Foreign(p2, me) && Foreign(p3, me)
      modifies db
      ensures db.View() == Run(old(db.View()), HandleTrace(old(db.View()), me, outcome, p0, p1, p2, p3, delivered))
    {
      ghost var w := db.View();
      RunTwo(w, Claim(me), Claim(me));
      var count := ClaimPending(me, id);
      if count == 0 { return; }
      ghost var w1 := db.View();
      db.Others(p0);
      ForeignKeeps(w1, p0, me);
      ghost var read := [Claim(me)] + (p0 + [ReadRow(me)]);
      RunThen(w, [Claim(me)], p0, ReadRow(me));
      if id !in db.rows {
        db.actors := db.actors - {me};
        assert db.View() == Run(w, read);
        return;
      }
      var q := db.rows[id].request;
      db.actors := db.actors[me := Running(id, q)];
      assert db.View() == Run(w, read);
      ghost var w2 := db.View();
      db.Others(p1);
      ForeignKeeps(w2, p1, me);
      ghost var w3 := db.View();
      RunConcat(w, read, p1);
      RunConcat(w, read + p1, EndTrace(w3, me, outcome, p2, p3, delivered));
      Finish(me, id, q, outcome, p2, p3, delivered);
    }

    /** What others do during the `i`-th await of the sweep. */
    function Pause(env: seq<seq<Step>>, i: nat): seq<Step> {
      if i < |env| then env[i] else []
    }

    /** The guarded transition of one candidate. */
    method FailIfStale(me: Actor, id: Id, cutoff: int) returns (count: nat)
      requires Sound() && me in db.actors && db.actors[me].Sweeping? && id in db.actors[me].todo
      requires cutoff == db.actors[me].start - STALE_PROCESSING_MS
      modifies db
      ensures Sound() && db.View() == Next(old(db.View()), ReapRow(me, id))
      ensures db.now == old(db.now) && db.rows == GiveUpStale(old(db.rows), {id}, cutoff, db.now)
      ensures me in db.actors && if count == 0
        then db.actors[me] == Sweeping(old(db.actors)[me].start, old(db.actors)[me].todo - {id})
                                 else SweepTells(db.actors[me], old(db.actors)[me], id)
      ensures count == if id in old(db.rows) && old(db.rows)[id].Stale(cutoff) then 1 else 0
      ensures count == 1 <==> id in old(db.rows) && old(db.rows)[id].status in {PENDING, PROCESSING}
                              && old(db.rows)[id].updatedAt < cutoff
      ensures db.rows == if count == 0 then old(db.rows)
        else old(db.rows)[id := old(db.rows)[id].(status := FAILED, error := Some("Audit timed out"),
                                                  updatedAt := db.now)]
    {
      ghost var w := db.View();
      NextKeepsInv(w, ReapRow(me, id));
      NextKeepsSweeps(w, ReapRow(me, id));
      var start, todo := db.actors[me].start, db.actors[me].todo;
      count := 0;
      if id in db.rows && db.rows[id].status in {PENDING, PROCESSING} && db.rows[id].updatedAt < cutoff {
        var q := db.rows[id].request;
        db.rows := db.rows[id := db.rows[id].(status := FAILED, error := Some("Audit timed out"), updatedAt := db.now)];
        db.h := db.h.(ended := db.h.ended[id := FAILED], teller := db.h.teller[id := me]);
        db.actors := db.actors[me := SweepTelling(start, todo - {id}, id, q)];
        count := 1;
      } else {
        db.actors := db.actors[me := Sweeping(start, todo - {id})];
      }
      assert db.View() == Next(w, ReapRow(me, id));
    }

    method NotifyReaped(me: Actor, delivered: bool)
      requires Sound() && me in db.actors && db.actors[me].SweepTelling?
      modifies db
      ensures Sound() && db.View() == Next(old(db.View()), ReapTell(me, delivered))
      ensures db.now == old(db.now) && db.rows == old(db.rows) && me in db.actors
      ensures db.actors[me] == Sweeping(old(db.actors)[me].start, old(db.actors)[me].todo)
      ensures var p := old(db.actors)[me];
              db.inbox == old(db.inbox) + if delivered then [Notification(p.id, p.request, FAILED)] else []
    {
      ghost var w := db.View();
      NextKeepsInv(w, ReapTell(me, delivered));
      NextKeepsSweeps(w, ReapTell(me, delivered));
      var p := db.actors[me];
      db.Notify(p.id, p.request, FAILED, delivered);
      db.actors := db.actors[me := Sweeping(p.start, p.todo)];
      assert db.View() == Next(w, ReapTell(me, delivered));
    }

    ghost predicate Sound() reads db {
      Inv(db.View()) && SweepsOk(db.View())
    }

    /** One turn of the sweep's loop. */
    method ReapCandidate(me: Actor, id: Id, cutoff: int, p0: seq<Step>, p1: seq<Step>, delivered: bool)
        returns (count: nat)
      requires Sound() && me in db.actors && db.actors[me].Sweeping? && id in db.actors[me].todo
      requires cutoff == db.actors[me].start - STALE_PROCESSING_MS && Foreign(p0, me) && Foreign(p1, me)
      modifies db
      ensures Sound() && me in db.actors
      ensures db.actors[me] == Sweeping(old(db.actors)[me].start, old(db.actors)[me].todo - {id})
      ensures p0 == [] && p1 == [] ==>
                db.now == old(db.now) && db.rows == GiveUpStale(old(db.rows), {id}, cutoff, db.now)
                && count == if id in old(db.rows) && old(db.rows)[id].Stale(cutoff) then 1 else 0
    {
      Yield(me, p0);
      count := FailIfStale(me, id, cutoff);
      if count > 0 {
        Yield(me, p1);
        NotifyReaped(me, delivered);
      }
    }

    /** One sweep. Whatever the others do in its pauses, it leaves no row that was last
        updated before its cutoff in flight; left alone, it fails exactly the stale rows. */
    method ReapStale(me: Actor, env: seq<seq<Step>>, delivered: bool) returns (reaped: nat)
      requires Sound() && me !in db.actors
      requires forall i :: 0 <= i < |env| ==> Foreign(env[i], me)
      modifies db
      ensures Sound() && me !in db.actors
      ensures forall id :: id in db.rows && db.rows[id].status in {PENDING, PROCESSING} ==>
        old(db.now) - 900000 <= db.rows[id].updatedAt
      ensures env == [] ==> reaped == |old(StaleRows(db.View(), db.now - STALE_PROCESSING_MS))|
      ensures env == [] ==>
                db.rows == GiveUpStale(old(db.rows), old(db.rows).Keys, old(db.now) - STALE_PROCESSING_MS, old(db.now))
    {
      var start := db.now;
      var cutoff := start - STALE_PROCESSING_MS;
      ghost var rows := db.rows;
      var candidates := FindStale(me, cutoff);
      reaped := 0;
      var i := 0;
      var todo := candidates;
      GiveUpNone(rows, candidates, cutoff, start);
      while todo != {}
        invariant Sound() && me in db.actors && db.actors[me] == Sweeping(start, todo) && todo <= candidates
        invariant env == [] ==> db.now == start && SweptSoFar(rows, db.rows, candidates, todo, cutoff, start, reaped)
        decreases todo
      {
        var id :| id in todo;
        if env == [] { SweptOneMore(rows, db.rows, candidates, todo, id, cutoff, start, reaped); }
        var count := ReapCandidate(me, id, cutoff, Pause(env, i), Pause(env, i + 1), delivered);
        todo := todo - {id};
        reaped := reaped + count;
        i := i + 2;
      }
      if env == [] { GiveUpAll(rows, candidates, cutoff, start); }
      EndSweep(me, start);
    }

    /** The candidates, as one query. */
    method FindStale(me: Actor, cutoff: int) returns (candidates: set<Id>)
      requires Sound() && me !in db.actors && cutoff == db.now - STALE_PROCESSING_MS
      modifies db
      ensures Sound() && db.View() == Next(old(db.View()), ReapStart(me))
      ensures db.now == old(db.now) && db.rows == old(db.rows) && me in db.actors &&
        db.actors[me] == Sweeping(db.now, candidates)
      ensures candidates == StaleRows(old(db.View()), cutoff)
      ensures forall id :: id in candidates <==>
        id in db.rows && db.rows[id].status in {PENDING, PROCESSING} && db.rows[id].updatedAt < db.now - 900000
    {
      ghost var w := db.View();
      NextKeepsInv(w, ReapStart(me));
      NextKeepsSweeps(w, ReapStart(me));
      candidates := set id | id in db.rows && db.rows[id].status in {PENDING, PROCESSING} &&
        db.rows[id].updatedAt < cutoff;
      db.actors := db.actors[me := Sweeping(db.now, candidates)];
      assert candidates == StaleRows(w, cutoff);
      assert db.View() == Next(w, ReapStart(me));
    }

    method EndSweep(me: Actor, start: int)
      requires Sound() && me in db.actors && db.actors[me] == Sweeping(start, {})
      modifies db
      ensures Sound() && db.View() == Next(old(db.View()), ReapEnd(me))
      ensures db.rows == old(db.rows) && me !in db.actors
      ensures forall id :: id in db.rows ==> !db.rows[id].Stale(start - STALE_PROCESSING_MS)
    {
      ghost var w := db.View();
      NextKeepsInv(w, ReapEnd(me));
      NextKeepsSweeps(w, ReapEnd(me));
      assert SweepingOk(w, me);
      assert forall id :: id in w.rows ==> id !in StaleRows(w, start - STALE_PROCESSING_MS);
      db.h := db.h.(sweeps := db.h.sweeps + {Sweep(start, db.now)});
      db.actors := db.actors - {me};
      assert db.View() == Next(w, ReapEnd(me));
    }

    method Yield(me: Actor, pause: seq<Step>)
      requires Sound() && me in db.actors && Foreign(pause, me)
      modifies db
      ensures db.View() == Run(old(db.View()), pause)
      ensures Sound() && me in db.actors && db.actors[me] == old(db.actors)[me]
    {
      ghost var w := db.View();
      db.Others(pause);
      ForeignKeeps(w, pause, me);
      RunKeepsInv(w, pause);
      RunKeepsSweeps(w, pause);
    }

    /** The retention sweep. */
    method PurgeOld() returns (count: nat)
      modifies db
      ensures db.View() == Next(old(db.View()), Purge)
      ensures count + |db.rows| == |old(db.rows)|
      ensures forall id :: id in db.rows <==> id in old(db.rows) && db.now - 7776000000 <= old(db.rows)[id].createdAt
      ensures forall id :: id in db.rows ==> db.rows[id] == old(db.rows)[id]
    {
      var cutoff := db.now - RETENTION_MS;
      var stale := set id | id in db.rows && db.rows[id].createdAt < cutoff;
      count := |stale|;
      RemovedCount(db.rows, stale);
      ghost var kept := map id | id in db.rows && !(db.rows[id].createdAt < cutoff) :: db.rows[id];
      assert db.rows - stale == kept;
      db.rows := db.rows - stale;
    }
  }

  // ---------------------------------------------------------------- creation

  datatype CreateError = TooManyRequests | NotQueued

  predicate Unmade(steps: seq<Step>, id: Id) {
    forall i :: 0 <= i < |steps| ==> !(steps[i].Create? && steps[i].id == id)
  }

  lemma {:induction false} UnmadeKeeps(w: World, steps: seq<Step>, id: Id)
    requires Unmade(steps, id) && id !in w.h.made
    ensures id !in Run(w, steps).h.made
    decreases |steps|
  {
    if steps != [] {
      assert !(steps[0].Create? && steps[0].id == id);
      NextUnmade(w, steps[0], id);
      UnmadeKeeps(Next(w, steps[0]), steps[1..], id);
    }
  }

  lemma NextUnmade(w: World, s: Step, id: Id)
    requires !(s.Create? && s.id == id) && id !in w.h.made
    ensures id !in Next(w, s).h.made
  {}

  /** What the queue answers; a rejected job may have been queued all the same. */
  datatype Answer = Accepted | Rejected(queuedAnyway: bool)

  /** The steps of `create` from the insert on. */
  ghost function EnqueueTrace(me: Actor, answer: Answer, p1: seq<Step>, p2: seq<Step>): seq<Step> {
    match answer
    case Accepted => p1 + [EnqueueOk(me)]
    case Rejected(anyway) => p1 + [EnqueueRejected(me, anyway)] + (p2 + [FailUnqueued(me)])
  }

  ghost function CreateTrace(w: World, me: Actor, q: Request, id: Id, answer: Answer,
                             p0: seq<Step>, p1: seq<Step>, p2: seq<Step>): seq<Step> {
    var counted := [Count(me, q)];
    if me !in Next(w, Count(me, q)).actors then counted
    else counted + (p0 + [Create(me, id)]) + EnqueueTrace(me, answer, p1, p2)
  }

  class SiteAuditsService {
    const db: Database

    constructor (db: Database)
      ensures this.db == db
    {
      this.db := db;
    }

    /** The unguarded write after a rejected enqueue, which throws on a row that is gone. */
    method GiveUpUnqueued(me: Actor, id: Id)
      requires me in db.actors && db.actors[me] == Unqueued(id)
      modifies db
      ensures db.View() == Next(old(db.View()), FailUnqueued(me))
      ensures id in db.rows ==> db.rows[id].status == FAILED
      ensures db.rows == if id !in old(db.rows) then old(db.rows)
        else old(db.rows)[id := old(db.rows)[id].(status := FAILED, error := Some("Could not queue the audit"),
                                                  updatedAt := db.now)]
    {
      if id in db.rows {
        db.rows := db.rows[id := db.rows[id].(
          status := FAILED, error := Some("Could not queue the audit"), updatedAt := db.now)];
        if id !in db.h.ended { db.h := db.h.(ended := db.h.ended[id := FAILED]); }
      }
      db.actors := db.actors - {me};
    }

    /** The enqueue is rejected, and the compensating write follows. */
    method Compensate(me: Actor, id: Id, queuedAnyway: bool, p1: seq<Step>, p2: seq<Step>)
      requires me in db.actors && db.actors[me] == Created(id) && Foreign(p1, me) && Foreign(p2, me)
      modifies db
      ensures db.View() == Run(old(db.View()), EnqueueTrace(me, Rejected(queuedAnyway), p1, p2))
      ensures id in db.rows ==> db.rows[id].status == FAILED
    {
      ghost var w := db.View();
      db.Others(p1);
      ForeignKeeps(w, p1, me);
      RunThen(w, [], p1, EnqueueRejected(me, queuedAnyway));
      ghost var rejected := p1 + [EnqueueRejected(me, queuedAnyway)];
      assert [] + rejected == rejected;
      if queuedAnyway {
        db.queued := db.queued + {id};
        db.h := db.h.(lost := db.h.lost + {id});
      }
      db.actors := db.actors[me := Unqueued(id)];
      assert db.View() == Run(w, rejected);
      ghost var w1 := db.View();
      db.Others(p2);
      ForeignKeeps(w1, p2, me);
      RunThen(w, rejected, p2, FailUnqueued(me));
      GiveUpUnqueued(me, id);
    }

    /** The enqueue and, when it is rejected, the compensation. */
    method Enqueue(me: Actor, id: Id, answer: Answer, p1: seq<Step>, p2: seq<Step>) returns (r: Result<Id, CreateError>)
      requires me in db.actors && db.actors[me] == Created(id) && Foreign(p1, me) && Foreign(p2, me)
      modifies db
      ensures db.View() == Run(old(db.View()), EnqueueTrace(me, answer, p1, p2))
      ensures r == if answer.Accepted? then Success(id) else Failure(NotQueued)
      ensures r.Success? ==> id in db.queued
      ensures r.Failure? && id in db.rows ==> db.rows[id].status == FAILED
    {
      if answer.Rejected? {
        Compensate(me, id, answer.queuedAnyway, p1, p2);
        return Failure(NotQueued);
      }
      ghost var w := db.View();
      db.Others(p1);
      ForeignKeeps(w, p1, me);
      RunThen(w, [], p1, EnqueueOk(me));
      assert [] + (p1 + [EnqueueOk(me)]) == p1 + [EnqueueOk(me)];
      db.queued := db.queued + {id};
      db.actors := db.actors - {me};
      return Success(id);
    }

    /** Count, create, enqueue; `p0`, `p1` and `p2` are what others do in its pauses. */
    method Create(me: Actor, q: Request, id: Id, answer: Answer, p0: seq<Step>, p1: seq<Step>, p2: seq<Step>)
      returns (r: Result<Id, CreateError>)
      requires me !in db.actors && id !in db.h.made && Unmade(p0, id)
      requires Foreign(p0, me) && Foreign(p1, me) && Foreign(p2, me)
      modifies db
      ensures db.View() == Run(old(db.View()), CreateTrace(old(db.View()), me, q, id, answer, p0, p1, p2))
      ensures r == Failure(TooManyRequests) <==>
        5 <= |set x | x in old(db.rows) && old(db.rows)[x].request.tenant == q.tenant
                      && old(db.rows)[x].status in {PENDING, PROCESSING}|
      ensures r.Success? ==> r.value == id && id in db.h.made && id in db.queued
      ensures r == Failure(NotQueued) && id in db.rows ==> db.rows[id].status == FAILED
    {
      ghost var w := db.View();
      assert [Count(me, q)][1..] == [];
      assert Run(w, [Count(me, q)]) == Run(Next(w, Count(me, q)), []);
      var inflight := |set x | x in db.rows && db.rows[x].request.tenant == q.tenant &&
        db.rows[x].status in {PENDING, PROCESSING}|;
      assert (set x | x in db.rows && db.rows[x].request.tenant == q.tenant &&
        db.rows[x].status in {PENDING, PROCESSING})
             == InFlight(w, q.tenant);
      if inflight >= MAX_INFLIGHT_PER_TENANT {
        return Failure(TooManyRequests);
      }
      db.actors := db.actors[me := Counted(q)];
      ghost var w0 := db.View();
      assert w0 == Next(w, Count(me, q));
      db.Others(p0);
      ForeignKeeps(w0, p0, me);
      UnmadeKeeps(w0, p0, id);
      RunThen(w, [Count(me, q)], p0, Step.Create(me, id));
      ghost var created := [Count(me, q)] + (p0 + [Step.Create(me, id)]);
      Insert(me, q, id);
      ghost var w1 := db.View();
      assert w1 == Run(w, created);
      RunConcat(w, created, EnqueueTrace(me, answer, p1, p2));
      r := Enqueue(me, id, answer, p1, p2);
      MadeStays(w1, EnqueueTrace(me, answer, p1, p2), id);
    }

    method Insert(me: Actor, q: Request, id: Id)
      requires me in db.actors && db.actors[me] == Counted(q) && id !in db.h.made
      modifies db
      ensures db.View() == Next(old(db.View()), Step.Create(me, id))
      ensures id in db.h.made && me in db.actors && db.actors[me] == Created(id)
      ensures db.rows == old(db.rows)[id := Audit(q, PENDING, None, None, None, db.now, db.now)]
    {
      db.rows := db.rows[id := Audit(q, PENDING, None, None, None, db.now, db.now)];
      db.h := db.h.(made := db.h.made[id := Origin(me, q)]);
      db.actors := db.actors[me := Created(id)];
    }
  }

  lemma {:induction false} MadeStays(w: World, steps: seq<Step>, id: Id)
    requires id in w.h.made
    ensures id in Run(w, steps).h.made
    decreases |steps|
  {
    if steps != [] {
      AuditSafety.MadeStays(w, steps[0], id);
      MadeStays(Next(w, steps[0]), steps[1..], id);
    }
  }

  // ---------------------------------------------------------------- calls left alone

  /** The row when the run has come out so, the last write being made at this time. */
  function Concluded(r: Audit, outcome: Outcome, now: int): Audit {
    match outcome
    case Returned(f) =>
      r.(status := COMPLETED, findings := Some(f), error := None, fetchedAt := Some(now), updatedAt := now)
    case Thrown(m) => r.(status := FAILED, error := Some(m), fetchedAt := Some(now), updatedAt := now)
    case Unacknowledged(f, applied, m) =>
      if applied
      then r.(status := COMPLETED, findings := Some(f), error := None, fetchedAt := Some(now), updatedAt := now)
      else r.(status := FAILED, error := Some(m), fetchedAt := Some(now), updatedAt := now)
  }

  /** What the requester is told of it, if anything: a completion that was not acknowledged is
      not announced. */
  function Told(outcome: Outcome): Option<Status> {
    match outcome
    case Returned(_) => Some(COMPLETED)
    case Thrown(_) => Some(FAILED)
    case Unacknowledged(_, applied, _) => if applied then None else Some(FAILED)
  }

  lemma EndRun(w: World, me: Actor, id: Id, q: Request, outcome: Outcome)
    requires me in w.actors && w.actors[me] == Running(id, q) && id in w.rows && w.rows[id].status == PROCESSING
    ensures var wrote := WriteSteps(me, outcome);
            var ended := if outcome.Unacknowledged? then wrote + ([] + [Fail(me)]) else wrote;
            var end := Run(w, ended);
            && end.now == w.now && end.inbox == w.inbox
            && end.rows == w.rows[id := Concluded(w.rows[id], outcome, w.now)]
            && end.actors == if Told(outcome).Some? then w.actors[me := Telling(id, q, Told(outcome).value)]
                             else w.actors - {me}
  {
    var wrote := WriteSteps(me, outcome);
    RunTwo(w, wrote[0], wrote[1]);
    var w1 := Next(w, wrote[0]);
    var w2 := Next(w1, wrote[1]);
    match outcome
    case Returned(f) => assert w1 == Move(w, me, Finished(id, q, f)) && w2 == TryComplete(w1, me);
    case Thrown(m) => assert w1 == Move(w, me, Threw(id, q, m)) && w2 == TryFail(w1, me);
    case Unacknowledged(f, applied, m) =>
      RunThen(w, wrote, [], Fail(me));
      assert Run(Run(w, wrote), []) == w2;
      UnacknowledgedRun(w, me, id, q, f, applied, m);
  }

  lemma UnacknowledgedRun(w: World, me: Actor, id: Id, q: Request, f: Findings, applied: bool, m: string)
    requires me in w.actors && w.actors[me] == Running(id, q) && id in w.rows && w.rows[id].status == PROCESSING
    ensures var end := Next(Next(Next(w, RunnerReturns(me, f)), CompleteThrows(me, applied, m)), Fail(me));
            && end.now == w.now && end.inbox == w.inbox
            && end.rows == w.rows[id := Concluded(w.rows[id], Unacknowledged(f, applied, m), w.now)]
            && end.actors == if applied then w.actors - {me} else w.actors[me := Telling(id, q, FAILED)]
  {
    var w1 := Next(w, RunnerReturns(me, f));
    assert w1 == Move(w, me, Finished(id, q, f));
    var w2 := Next(w1, CompleteThrows(me, applied, m));
    assert w2 == Move(if applied then TryComplete(w1, me) else w1, me, Threw(id, q, m));
    assert Next(w2, Fail(me)) == TryFail(w2, me);
  }

  lemma TellRun(w: World, me: Actor, id: Id, q: Request, kind: Status, delivered: bool)
    requires me in w.actors && w.actors[me] == Telling(id, q, kind)
    ensures Next(w, Tell(me, delivered)).inbox == w.inbox + if delivered then [Notification(id, q, kind)] else []
    ensures Next(w, Tell(me, delivered)).rows == w.rows
  {}

  lemma EndUndisturbed(w: World, me: Actor, id: Id, q: Request, outcome: Outcome, delivered: bool)
    requires me in w.actors && w.actors[me] == Running(id, q) && id in w.rows && w.rows[id].status == PROCESSING
    ensures var end := Run(w, EndTrace(w, me, outcome, [], [], delivered));
            && end.rows == w.rows[id := Concluded(w.rows[id], outcome, w.now)]
            && end.inbox == w.inbox + if delivered && Told(outcome).Some?
                                      then [Notification(id, q, Told(outcome).value)] else []
  {
    EndRun(w, me, id, q, outcome);
    var wrote := WriteSteps(me, outcome);
    var ended := if outcome.Unacknowledged? then wrote + ([] + [Fail(me)]) else wrote;
    if Told(outcome).Some? {
      RunThen(w, ended, [], Tell(me, delivered));
      TellRun(Run(w, ended), me, id, q, Told(outcome).value, delivered);
    }
  }

  lemma ClaimRun(w: World, me: Actor, id: Id)
    requires me in w.actors && w.actors[me] == Delivered(id) && id in w.rows && w.rows[id].status == PENDING
    ensures var w2 := Next(Next(w, Claim(me)), ReadRow(me));
            && w2.rows == w.rows[id := w.rows[id].(status := PROCESSING, updatedAt := w.now)]
            && w2.now == w.now && w2.inbox == w.inbox && w2.actors == w.actors[me := Running(id, w.rows[id].request)]
  {
    var w1 := Next(w, Claim(me));
    assert w1 == TryClaim(w, me) && w1.actors[me] == Won(id);
  }

  lemma ReadRun(w: World, me: Actor)
    ensures Run(w, [Claim(me)] + ([] + [ReadRow(me)])) == Next(Next(w, Claim(me)), ReadRow(me))
  {
    RunTwo(w, Claim(me), Claim(me));
    RunThen(w, [Claim(me)], [], ReadRow(me));
    var w1 := Next(w, Claim(me));
    assert Run(w1, []) == w1;
  }

  /** A delivery left alone: a pending audit ends as the runner and the completion write come
      out, and is announced accordingly; any other audit is not touched. */
  lemma HandleUndisturbed(w: World, me: Actor, id: Id, outcome: Outcome, delivered: bool)
    requires me in w.actors && w.actors[me] == Delivered(id)
    ensures var end := Run(w, HandleTrace(w, me, outcome, [], [], [], [], delivered));
            if id in w.rows && w.rows[id].status == PENDING
            then end.rows == w.rows[id := Concluded(w.rows[id], outcome, w.now)]
                 && end.inbox == w.inbox + if delivered && Told(outcome).Some?
                                           then [Notification(id, w.rows[id].request, Told(outcome).value)] else []
            else end.rows == w.rows && end.inbox == w.inbox
  {
    RunTwo(w, Claim(me), Claim(me));
    if id in w.rows && w.rows[id].status == PENDING {
      ClaimRun(w, me, id);
      var read := [Claim(me)] + ([] + [ReadRow(me)]);
      ReadRun(w, me);
      var w2 := Run(w, read);
      assert read + [] == read;
      EndUndisturbed(w2, me, id, w.rows[id].request, outcome, delivered);
      RunConcat(w, read, EndTrace(w2, me, outcome, [], [], delivered));
      assert read + [] + EndTrace(w2, me, outcome, [], [], delivered) ==
        read + EndTrace(w2, me, outcome, [], [], delivered);
    }
  }

  lemma EnqueueRun(w: World, me: Actor, id: Id, answer: Answer)
    requires me in w.actors && w.actors[me] == Created(id) && id in w.rows
    ensures var end := Run(w, EnqueueTrace(me, answer, [], []));
            && end.queued == (if answer == Rejected(false) then w.queued else w.queued + {id})
            && end.rows == if answer.Accepted? then w.rows
                           else w.rows[id := w.rows[id].(status := FAILED, error := Some("Could not queue the audit"),
                                                         updatedAt := w.now)]
  {
    if answer.Accepted? {
      RunTwo(w, EnqueueOk(me), EnqueueOk(me));
      assert [] + [EnqueueOk(me)] == [EnqueueOk(me)];
    } else {
      var rejected := [] + [EnqueueRejected(me, answer.queuedAnyway)];
      assert rejected == [EnqueueRejected(me, answer.queuedAnyway)];
      RunTwo(w, EnqueueRejected(me, answer.queuedAnyway), FailUnqueued(me));
      RunThen(w, rejected, [], FailUnqueued(me));
      var w1 := Next(w, EnqueueRejected(me, answer.queuedAnyway));
      assert Run(w1, []) == w1;
      assert Next(w1, FailUnqueued(me)) == GiveUp(w1, me);
    }
  }

  lemma InFlightIs(w: World, t: Tenant)
    ensures InFlight(w, t) ==
            set x | x in w.rows && w.rows[x].request.tenant == t && w.rows[x].status in {PENDING, PROCESSING}
  {}

  lemma CreatedRun(w: World, me: Actor, q: Request, id: Id, answer: Answer)
    requires me in w.actors && w.actors[me] == Counted(q) && id !in w.h.made
    ensures var end := Run(Next(w, Step.Create(me, id)), EnqueueTrace(me, answer, [], []));
            && end.queued == (if answer == Rejected(false) then w.queued else w.queued + {id})
            && end.rows == w.rows[id := if answer.Accepted? then Audit(q, PENDING, None, None, None, w.now, w.now)
                 else Audit(q, FAILED, None, Some("Could not queue the audit"), None, w.now, w.now)]
  {
    var w1 := Next(w, Step.Create(me, id));
    assert w1 == CreateRow(w, me, id);
    EnqueueRun(w1, me, id, answer);
  }

  /** A creation left alone: below the cap it leaves one more audit, pending and queued or, when
      the enqueue is rejected, failed. */
  lemma CreateUndisturbed(w: World, me: Actor, q: Request, id: Id, answer: Answer)
    requires me !in w.actors && id !in w.h.made
    ensures var end := Run(w, CreateTrace(w, me, q, id, answer, [], [], []));
            if 5 <= |set x | x in w.rows && w.rows[x].request.tenant == q.tenant
                             && w.rows[x].status in {PENDING, PROCESSING}|
            then end.rows == w.rows && end.queued == w.queued
            else end.queued == (if answer == Rejected(false) then w.queued else w.queued + {id})
                 && end.rows == w.rows[id := if answer.Accepted? then Audit(q, PENDING, None, None, None, w.now, w.now)
                      else Audit(q, FAILED, None, Some("Could not queue the audit"), None, w.now, w.now)]
  {
    InFlightIs(w, q.tenant);
    RunTwo(w, Count(me, q), Count(me, q));
    var w1 := Next(w, Count(me, q));
    if me in w1.actors {
      var created := [Count(me, q)] + ([] + [Step.Create(me, id)]);
      RunThen(w, [Count(me, q)], [], Step.Create(me, id));
      assert Run(w1, []) == w1;
      CreatedRun(w1, me, q, id, answer);
      RunConcat(w, created, EnqueueTrace(me, answer, [], []));
    }
  }
}
