/** What every run of the audit protocol keeps. */
module AuditSafety {
  import opened Sets
  import opened Wrappers
  import opened AuditProtocol
  import opened AuditInvariant

  /** However often its job is delivered and however many workers there are, an audit is
      claimed at most once. */
  lemma ClaimedAtMostOnce(w0: World, steps: seq<Step>, id: Id)
    requires Init(w0)
    ensures Run(w0, steps).h.claims[id] <= 1
  {
    InitInv(w0);
    RunKeepsInv(w0, steps);
    assert ClaimOk(Run(w0, steps), id);
  }

  lemma InitInv(w: World)
    requires Init(w)
    ensures Inv(w)
  {}

  /** A completed audit has findings and no error, and one in flight has neither. A failed one
      has no findings, unless its job was queued although the enqueue was rejected. */
  lemma TerminalRowsAreWhole(w0: World, steps: seq<Step>, id: Id)
    requires Init(w0) && id in Run(w0, steps).rows
    ensures var r := Run(w0, steps).rows[id];
            && (r.status == COMPLETED ==> r.findings.Some? && r.error.None?)
            && (r.status == FAILED && id !in Run(w0, steps).h.lost ==> r.findings.None?)
            && (r.status.InFlight() ==> r.findings.None? && r.error.None?)
  {
    InitInv(w0);
    RunKeepsInv(w0, steps);
    assert RowOk(Run(w0, steps), id);
  }

  /** Every audit is announced at most once, to the user who asked for it, with the terminal
      status it reached first. That is the status of its row, unless a completed audit was
      overwritten because its job was queued although the enqueue was rejected. */
  lemma AtMostOneNotification(w0: World, steps: seq<Step>, i: nat, j: nat)
    requires Init(w0)
    requires i < |Run(w0, steps).inbox| && j < |Run(w0, steps).inbox|
    requires Run(w0, steps).inbox[i].audit == Run(w0, steps).inbox[j].audit
    ensures i == j
    ensures var w := Run(w0, steps); var n := w.inbox[i];
            && n.kind in {COMPLETED, FAILED}
            && n.audit in w.h.made && n.request == w.h.made[n.audit].request
            && n.audit in w.h.ended && w.h.ended[n.audit] == n.kind
            && (n.audit in w.rows ==> w.rows[n.audit].request == n.request)
            && (n.audit in w.rows && w.rows[n.audit].status != n.kind ==>
                w.rows[n.audit].status == FAILED && n.kind == COMPLETED && n.audit in w.h.lost)
  {
    var w := Run(w0, steps);
    InitInv(w0);
    RunKeepsInv(w0, steps);
    assert InboxOk(w, i) && EndedOk(w, w.inbox[i].audit);
    if w.inbox[i].audit in w.rows { assert RowOk(w, w.inbox[i].audit); }
  }

  // ---------------------------------------------------------------- absorption

  /** The terminal statuses recorded stay recorded, and a deleted audit stays deleted. */
  ghost predicate Later(w: World, w': World) {
    && (forall id :: id in w.h.made ==> id in w'.h.made)
    && (forall id :: id in w.h.ended ==> id in w'.h.ended && w'.h.ended[id] == w.h.ended[id])
    && (forall id :: id in w'.rows && id !in w.rows ==> id !in w.h.made)
  }

  lemma EndedStays(w: World, s: Step, id: Id)
    requires Inv(w) && id in w.h.ended
    ensures id in Next(w, s).h.ended && Next(w, s).h.ended[id] == w.h.ended[id]
  {
    if id in w.rows { assert RowOk(w, id); }
  }

  lemma MadeStays(w: World, s: Step, id: Id)
    requires id in w.h.made
    ensures id in Next(w, s).h.made && (id in Next(w, s).rows ==> id in w.rows)
  {}

  lemma NextIsLater(w: World, s: Step)
    requires Inv(w)
    ensures Later(w, Next(w, s))
  {
    var w' := Next(w, s);
    forall id | id in w.h.ended ensures id in w'.h.ended && w'.h.ended[id] == w.h.ended[id] { EndedStays(w, s, id); }
    forall id | id in w.h.made ensures id in w'.h.made && (id in w'.rows ==> id in w.rows) { MadeStays(w, s, id); }
  }

  lemma {:induction false} RunIsLater(w: World, steps: seq<Step>)
    requires Inv(w)
    ensures Later(w, Run(w, steps))
    decreases |steps|
  {
    if steps != [] {
      NextIsLater(w, steps[0]);
      NextKeepsInv(w, steps[0]);
      RunIsLater(Next(w, steps[0]), steps[1..]);
    }
  }

  /** The audit is completed, and a creator is about to write FAILED over it. */
  ghost predicate Doomed(w: World, id: Id) {
    && id in w.rows && w.rows[id].status == COMPLETED
    && exists a :: a in w.actors && w.actors[a] == Unqueued(id)
  }

  ghost predicate KeepsStatus(w: World, after: seq<Step>, id: Id)
    requires id in w.rows
  {
    id in Run(w, after).rows ==> Run(w, after).rows[id].status == w.rows[id].status
  }

  /** A terminal status that nobody is about to overwrite. */
  ghost predicate Settled(w: World, id: Id, s: Status) {
    && !s.InFlight() && id in w.h.made && (id in w.rows ==> w.rows[id].status == s)
    && (s == COMPLETED ==> id in w.queued && forall a :: a in w.actors ==> w.actors[a] != Unqueued(id))
  }

  /** Behind a queued job no creator gets to the unguarded write any more. */
  lemma NotUnqueued(w: World, s: Step, a: Actor, id: Id)
    requires Inv(w) && id in w.queued && a in Next(w, s).actors
    requires a in w.actors ==> w.actors[a] != Unqueued(id)
    ensures Next(w, s).actors[a] != Unqueued(id)
  {
    if a in w.actors { assert PhaseOk(w, a); }
  }

  lemma StaysQueued(w: World, s: Step, id: Id)
    requires id in w.queued
    ensures id in Next(w, s).queued
  {}

  lemma StatusStays(w: World, step: Step, id: Id, s: Status)
    requires Settled(w, id, s) && id in Next(w, step).rows
    ensures Next(w, step).rows[id].status == s
  {}

  lemma NextKeepsSettled(w: World, step: Step, id: Id, s: Status)
    requires Inv(w) && Settled(w, id, s)
    ensures Settled(Next(w, step), id, s)
  {
    MadeStays(w, step, id);
    if id in Next(w, step).rows { StatusStays(w, step, id, s); }
    if s == COMPLETED {
      StaysQueued(w, step, id);
      forall a | a in Next(w, step).actors ensures Next(w, step).actors[a] != Unqueued(id) {
        NotUnqueued(w, step, a, id);
      }
    }
  }

  lemma {:induction false} RunKeepsSettled(w: World, steps: seq<Step>, id: Id, s: Status)
    requires Inv(w) && Settled(w, id, s)
    ensures Settled(Run(w, steps), id, s)
    decreases |steps|
  {
    if steps != [] {
      NextKeepsInv(w, steps[0]);
      NextKeepsSettled(w, steps[0], id, s);
      RunKeepsSettled(Next(w, steps[0]), steps[1..], id, s);
    }
  }

  lemma SettledUnlessDoomed(w: World, id: Id)
    requires Inv(w) && id in w.rows && !w.rows[id].status.InFlight() && !Doomed(w, id)
    ensures Settled(w, id, w.rows[id].status)
  {
    assert RowOk(w, id) && ClaimOk(w, id);
  }

  /** COMPLETED and FAILED are absorbing, whatever follows, exactly when no creator is about to
      write FAILED over COMPLETED. */
  lemma TerminalIsAbsorbing(w0: World, before: seq<Step>, id: Id)
    requires Init(w0)
    requires var w := Run(w0, before); id in w.rows && !w.rows[id].status.InFlight()
    ensures var w := Run(w0, before); (forall after :: KeepsStatus(w, after, id)) <==> !Doomed(w, id)
  {
    var w := Run(w0, before);
    InitInv(w0);
    RunKeepsInv(w0, before);
    if Doomed(w, id) {
      var a :| a in w.actors && w.actors[a] == Unqueued(id);
      RunOne(w, FailUnqueued(a), []);
      assert [FailUnqueued(a)] + [] == [FailUnqueued(a)];
      assert !KeepsStatus(w, [FailUnqueued(a)], id);
    } else {
      SettledUnlessDoomed(w, id);
      forall after ensures KeepsStatus(w, after, id) { RunKeepsSettled(w, after, id, w.rows[id].status); }
    }
  }

  /** An audit whose job was not queued behind its creator's back is never doomed. */
  lemma DoomedIsLost(w0: World, before: seq<Step>, id: Id)
    requires Init(w0) && Doomed(Run(w0, before), id)
    ensures id in Run(w0, before).h.lost
  {
    var w := Run(w0, before);
    InitInv(w0);
    RunKeepsInv(w0, before);
    var a :| a in w.actors && w.actors[a] == Unqueued(id);
    if id !in w.h.lost { UnqueuedIsUnclaimed(w, a); }
  }

  /** Deletion is final. */
  lemma DeletionIsFinal(w0: World, before: seq<Step>, after: seq<Step>, id: Id)
    requires Init(w0)
    requires id in Run(w0, before).h.made && id !in Run(w0, before).rows
    ensures id !in Run(Run(w0, before), after).rows
  {
    InitInv(w0);
    RunKeepsInv(w0, before);
    RunIsLater(Run(w0, before), after);
  }

  // ----------------------------------------- what the unguarded write relies on

  /** The creator's write would turn this completed audit into a failed one. */
  ghost predicate Overwrites(w: World, a: Actor, id: Id) {
    && id in w.rows && w.rows[id].status == COMPLETED
    && id in Next(w, FailUnqueued(a)).rows && Next(w, FailUnqueued(a)).rows[id].status == FAILED
  }

  ghost predicate CanOverwrite(w: World, more: seq<Step>, a: Actor, id: Id) {
    Overwrites(Run(w, more), a, id)
  }

  lemma RunOne(w: World, s: Step, more: seq<Step>)
    ensures Run(w, [s] + more) == Run(Next(w, s), more)
  {
    assert ([s] + more)[1..] == more;
  }

  lemma RunFive(w: World, s1: Step, s2: Step, s3: Step, s4: Step, s5: Step)
    ensures Run(w, [s1, s2, s3, s4, s5]) == Next(Next(Next(Next(Next(w, s1), s2), s3), s4), s5)
  {
    var w1 := Next(w, s1);
    var w2 := Next(w1, s2);
    var w3 := Next(w2, s3);
    RunOne(w, s1, [s2, s3, s4, s5]);
    RunOne(w1, s2, [s3, s4, s5]);
    RunOne(w2, s3, [s4, s5]);
    RunOne(w3, s4, [s5]);
    RunOne(Next(w3, s4), s5, []);
    assert [s1, s2, s3, s4, s5] == [s1] + [s2, s3, s4, s5];
    assert [s2, s3, s4, s5] == [s2] + [s3, s4, s5];
    assert [s3, s4, s5] == [s3] + [s4, s5];
    assert [s4, s5] == [s4] + [s5];
    assert [s5] == [s5] + [];
  }

  lemma WorkerClaims(w: World, b: Actor, id: Id)
    requires b !in w.actors && id in w.queued && id in w.rows && w.rows[id].status == PENDING
    ensures var w2 := Next(Next(w, Deliver(b, id)), Claim(b));
            w2.actors == w.actors[b := Won(id)] && w2.now == w.now
            && w2.rows == w.rows[id := w.rows[id].(status := PROCESSING, updatedAt := w.now)]
  {
    var w1 := Next(w, Deliver(b, id));
    assert w1 == Move(w, b, Delivered(id));
    assert Next(w1, Claim(b)) == TryClaim(w1, b);
  }

  lemma WorkerEnds(w: World, b: Actor, id: Id, f: Findings)
    requires b in w.actors && w.actors[b] == Won(id) && id in w.rows && w.rows[id].status == PROCESSING
    ensures var end := Next(Next(Next(w, ReadRow(b)), RunnerReturns(b, f)), Complete(b));
            && end.now == w.now && end.actors == w.actors[b := Telling(id, w.rows[id].request, COMPLETED)]
            && end.rows == w.rows[id := w.rows[id].(status := COMPLETED, findings := Some(f), error := None,
                                                     fetchedAt := Some(w.now), updatedAt := w.now)]
  {
    var q := w.rows[id].request;
    var w1 := Next(w, ReadRow(b));
    assert w1 == Move(w, b, Running(id, q));
    var w2 := Next(w1, RunnerReturns(b, f));
    assert w2 == Move(w1, b, Finished(id, q, f));
    assert Next(w2, Complete(b)) == TryComplete(w2, b);
  }

  /** A worker takes a queued pending audit to COMPLETED, with what its runner returned. */
  lemma WorkerCompletes(w: World, b: Actor, id: Id, f: Findings)
    requires b !in w.actors && id in w.queued && id in w.rows && w.rows[id].status == PENDING
    ensures var end := Run(w, [Deliver(b, id), Claim(b), ReadRow(b), RunnerReturns(b, f), Complete(b)]);
            && end.rows == w.rows[id := w.rows[id].(status := COMPLETED, findings := Some(f), error := None,
                                                     fetchedAt := Some(w.now), updatedAt := w.now)]
            && forall a :: a in w.actors ==> a in end.actors && end.actors[a] == w.actors[a]
  {
    RunFive(w, Deliver(b, id), Claim(b), ReadRow(b), RunnerReturns(b, f), Complete(b));
    WorkerClaims(w, b, id);
    WorkerEnds(Next(Next(w, Deliver(b, id)), Claim(b)), b, id, f);
  }

  /** A job that was queued although its enqueue was rejected. */
  lemma LostAcknowledgement(w: World, a: Actor, id: Id) returns (more: seq<Step>)
    requires a in w.actors && w.actors[a] == Unqueued(id) && id in w.queued
    requires id in w.rows && w.rows[id].status == PENDING
    ensures CanOverwrite(w, more, a, id)
  {
    var b := Unused(w.actors.Keys);
    more := [Deliver(b, id), Claim(b), ReadRow(b), RunnerReturns(b, 0), Complete(b)];
    WorkerCompletes(w, b, id, 0);
  }

  /** The job of this audit was not queued behind its creator's back and cannot be any more. */
  ghost predicate NeverLost(w: World, id: Id) {
    && id in w.h.made && id !in w.h.lost
    && forall a :: a in w.actors ==> w.actors[a] != Created(id)
  }

  lemma BeforeCreated(w: World, s: Step, a: Actor, id: Id)
    requires id in w.h.made && a in Next(w, s).actors && Next(w, s).actors[a] == Created(id)
    ensures a in w.actors && w.actors[a] == Created(id)
  {}

  lemma NotLost(w: World, s: Step, id: Id)
    requires NeverLost(w, id)
    ensures id in Next(w, s).h.made && id !in Next(w, s).h.lost
  {}

  lemma NextNeverLost(w: World, s: Step, id: Id)
    requires NeverLost(w, id)
    ensures NeverLost(Next(w, s), id)
  {
    NotLost(w, s, id);
    forall a | a in Next(w, s).actors ensures Next(w, s).actors[a] != Created(id) {
      if Next(w, s).actors[a] == Created(id) { BeforeCreated(w, s, a, id); }
    }
  }

  lemma {:induction false} RunNeverLost(w: World, steps: seq<Step>, id: Id)
    requires NeverLost(w, id)
    ensures NeverLost(Run(w, steps), id)
    decreases |steps|
  {
    if steps != [] {
      NextNeverLost(w, steps[0], id);
      RunNeverLost(Next(w, steps[0]), steps[1..], id);
    }
  }

  lemma NoOverwrite(w: World, a: Actor, id: Id)
    requires Inv(w) && id !in w.h.lost
    ensures !Overwrites(w, a, id)
  {
    if a in w.actors && w.actors[a].Unqueued? && w.actors[a].id == id && id in w.rows { UnqueuedIsUnclaimed(w, a); }
  }

  /** An audit that the reaper gave up or the purge deleted is not completed any more. */
  lemma NotPending(w: World, more: seq<Step>, a: Actor, id: Id)
    requires Inv(w) && id in w.h.made && (id in w.rows ==> w.rows[id].status == FAILED)
    ensures !CanOverwrite(w, more, a, id)
  {
    RunKeepsSettled(w, more, id, FAILED);
  }

  /** The unguarded write of a rejected creation can overwrite a completed audit exactly when
      the rejected enqueue had queued the job after all, and the audit is still pending then.
      What happens to other audits does not matter. */
  lemma UnguardedWriteReliesOnTheQueue(w0: World, before: seq<Step>, a: Actor, id: Id, queuedAnyway: bool)
    requires Init(w0)
    requires var w := Run(w0, before); a in w.actors && w.actors[a] == Created(id)
    ensures var v := Run(w0, before); var w := Next(v, EnqueueRejected(a, queuedAnyway));
            (exists more :: CanOverwrite(w, more, a, id))
            <==> queuedAnyway && id in v.rows && v.rows[id].status == PENDING
  {
    var v := Run(w0, before);
    var w := Next(v, EnqueueRejected(a, queuedAnyway));
    InitInv(w0);
    RunKeepsInv(w0, before);
    NextKeepsInv(v, EnqueueRejected(a, queuedAnyway));
    assert PhaseOk(v, a) && ClaimOk(v, id);
    if id !in v.rows || v.rows[id].status != PENDING {
      if id in v.rows { assert RowOk(v, id); }
      forall more ensures !CanOverwrite(w, more, a, id) { NotPending(w, more, a, id); }
    } else if queuedAnyway {
      var more := LostAcknowledgement(w, a, id);
    } else {
      OneCreator(v, a, id);
      forall more ensures !CanOverwrite(w, more, a, id) {
        RunKeepsInv(w, more);
        RunNeverLost(w, more, id);
        NoOverwrite(Run(w, more), a, id);
      }
    }
  }

  lemma RunThree(w: World, a: Step, b: Step, c: Step)
    ensures Run(w, [a, b, c]) == Next(Next(Next(w, a), b), c)
  {
    RunOne(w, a, [b, c]);
    RunOne(Next(w, a), b, [c]);
    RunOne(Next(Next(w, a), b), c, []);
    assert [a, b, c] == [a] + [b, c] && [b, c] == [b] + [c] && [c] == [c] + [];
  }

  lemma LostFromTheStart(w0: World, q: Request)
    requires Init(w0)
    ensures var w := Next(Next(Next(w0, Count(0, q)), Create(0, 0)), EnqueueRejected(0, true));
            w.actors == map[0 := Unqueued(0)] && w.queued == {0} && w.rows == map[0 := NewAudit(q, w0.now)]
  {
    var w1 := Next(w0, Count(0, q));
    assert InFlight(w0, q.tenant) == {} && w1 == w0.(actors := map[0 := Counted(q)]);
    var w2 := Next(w1, Create(0, 0));
    assert w2.actors == map[0 := Created(0)] && w2.rows == map[0 := NewAudit(q, w0.now)] && w2.queued == {};
  }

  lemma UnqueuedOverwrites(w: World, a: Actor, id: Id)
    requires a in w.actors && w.actors[a] == Unqueued(id) && id in w.rows && w.rows[id].status == COMPLETED
    ensures Overwrites(w, a, id) && Doomed(w, id)
  {}

  /** The overwriting is reached from the start: a creation whose enqueue is rejected though it
      queued the job, a worker that completes the audit, and the creator about to write FAILED. */
  lemma OverwriteIsReached(w0: World, q: Request)
    requires Init(w0)
    ensures var w := Run(w0, [Count(0, q), Create(0, 0), EnqueueRejected(0, true)]);
            var end := Run(w, [Deliver(1, 0), Claim(1), ReadRow(1), RunnerReturns(1, 0), Complete(1)]);
            Overwrites(end, 0, 0) && Doomed(end, 0)
  {
    RunThree(w0, Count(0, q), Create(0, 0), EnqueueRejected(0, true));
    LostFromTheStart(w0, q);
    var w := Run(w0, [Count(0, q), Create(0, 0), EnqueueRejected(0, true)]);
    WorkerCompletes(w, 1, 0, 0);
    assert 0 in w.actors;
    UnqueuedOverwrites(Run(w, [Deliver(1, 0), Claim(1), ReadRow(1), RunnerReturns(1, 0), Complete(1)]), 0, 0);
  }

  lemma OneCreator(v: World, a: Actor, id: Id)
    requires Inv(v) && a in v.actors && v.actors[a] == Created(id)
    ensures NeverLost(Next(v, EnqueueRejected(a, false)), id)
  {
    assert PhaseOk(v, a) && ClaimOk(v, id);
    forall b | b in v.actors && v.actors[b] == Created(id) ensures b == a { assert PhaseOk(v, b); }
  }
}
