/** Where the findings and the error of an audit, and what its requester is told, come from. */
module AuditAnswers {
  import opened Wrappers
  import opened AuditProtocol
  import opened AuditInvariant
  import opened AuditSafety

  // ---------------------------------------------------------------- findings

  /** Step `i` of the run is the runner's answer to a worker of this audit. */
  ghost predicate AnswerAt(w0: World, steps: seq<Step>, i: nat, id: Id, f: Findings)
    requires i < |steps|
  {
    var w, s := Run(w0, steps[..i]), steps[i];
    s.RunnerReturns? && s.findings == f && s.actor in w.actors && w.actors[s.actor].Running?
    && w.actors[s.actor].id == id
  }

  /** The runner has answered so to some worker of this audit. */
  ghost predicate Answered(w0: World, steps: seq<Step>, id: Id, f: Findings) {
    exists i :: 0 <= i < |steps| && AnswerAt(w0, steps, i, id, f)
  }

  lemma RunOfMore(w0: World, steps: seq<Step>, s: Step)
    ensures Run(w0, steps + [s]) == Next(Run(w0, steps), s)
    decreases |steps|
  {
    if steps == [] {
      assert [] + [s] == [s] && [s][1..] == [];
      assert Run(w0, [s]) == Run(Next(w0, s), []);
    } else {
      assert (steps + [s])[0] == steps[0] && (steps + [s])[1..] == steps[1..] + [s];
      RunOfMore(Next(w0, steps[0]), steps[1..], s);
    }
  }

  lemma AnsweredStays(w0: World, steps: seq<Step>, s: Step, id: Id, f: Findings)
    requires Answered(w0, steps, id, f)
    ensures Answered(w0, steps + [s], id, f)
  {
    var i :| 0 <= i < |steps| && AnswerAt(w0, steps, i, id, f);
    assert (steps + [s])[..i] == steps[..i] && (steps + [s])[i] == steps[i];
    assert AnswerAt(w0, steps + [s], i, id, f);
  }

  lemma AnsweredNow(w0: World, steps: seq<Step>, s: Step, id: Id, f: Findings)
    requires s.RunnerReturns? && s.findings == f && s.actor in Run(w0, steps).actors
    requires Run(w0, steps).actors[s.actor].Running? && Run(w0, steps).actors[s.actor].id == id
    ensures Answered(w0, steps + [s], id, f)
  {
    assert (steps + [s])[..|steps|] == steps;
    assert AnswerAt(w0, steps + [s], |steps|, id, f);
  }

  /** The findings a row holds after a step were there before or are a worker's answer. */
  lemma FindingsAfter(w: World, s: Step, id: Id)
    requires id in Next(w, s).rows && Next(w, s).rows[id].findings.Some?
    ensures (id in w.rows && w.rows[id].findings == Next(w, s).rows[id].findings)
            || ((s.Complete? || s.CompleteThrows?) && s.actor in w.actors && w.actors[s.actor].Finished?
                && w.actors[s.actor].id == id && Next(w, s).rows[id].findings == Some(w.actors[s.actor].findings))
  {}

  /** A worker that has an answer got it from its runner. */
  lemma FinishedAfter(w: World, s: Step, a: Actor)
    requires a in Next(w, s).actors && Next(w, s).actors[a].Finished?
    ensures var p := Next(w, s).actors[a];
            (a in w.actors && w.actors[a] == p)
            || (s.RunnerReturns? && s.actor == a && s.findings == p.findings && a in w.actors
                && w.actors[a].Running? && w.actors[a].id == p.id)
  {}

  lemma {:induction false} AnswersAreTheRunners(w0: World, steps: seq<Step>)
    requires Init(w0)
    ensures forall id :: id in Run(w0, steps).rows && Run(w0, steps).rows[id].findings.Some? ==>
              Answered(w0, steps, id, Run(w0, steps).rows[id].findings.value)
    ensures forall a :: a in Run(w0, steps).actors && Run(w0, steps).actors[a].Finished? ==>
              Answered(w0, steps, Run(w0, steps).actors[a].id, Run(w0, steps).actors[a].findings)
    decreases |steps|
  {
    if steps != [] {
      var front, s := steps[..|steps|-1], steps[|steps|-1];
      assert front + [s] == steps;
      AnswersAreTheRunners(w0, front);
      RunOfMore(w0, front, s);
      var w, w' := Run(w0, front), Run(w0, steps);
      forall id | id in w'.rows && w'.rows[id].findings.Some?
        ensures Answered(w0, steps, id, w'.rows[id].findings.value)
      {
        FindingsAfter(w, s, id);
        AnsweredStays(w0, front, s, id, w'.rows[id].findings.value);
      }
      forall a | a in w'.actors && w'.actors[a].Finished?
        ensures Answered(w0, steps, w'.actors[a].id, w'.actors[a].findings)
      {
        FinishedAfter(w, s, a);
        if a in w.actors && w.actors[a] == w'.actors[a] {
          AnsweredStays(w0, front, s, w'.actors[a].id, w'.actors[a].findings);
        } else {
          AnsweredNow(w0, front, s, w'.actors[a].id, w'.actors[a].findings);
        }
      }
    }
  }

  /** In every run a completed audit holds what the runner returned to a worker of this audit. */
  lemma CompletedHoldsAnAnswer(w0: World, steps: seq<Step>, id: Id)
    requires Init(w0) && id in Run(w0, steps).rows && Run(w0, steps).rows[id].status == COMPLETED
    ensures var r := Run(w0, steps).rows[id]; r.findings.Some? && Answered(w0, steps, id, r.findings.value)
  {
    TerminalRowsAreWhole(w0, steps, id);
    AnswersAreTheRunners(w0, steps);
  }

  // ---------------------------------------------------------------- errors

  /** Step `i` is a throw, by the runner or by the completion write, in a worker of this audit. */
  ghost predicate ThrowAt(w0: World, steps: seq<Step>, i: nat, id: Id, m: string)
    requires i < |steps|
  {
    var w, s := Run(w0, steps[..i]), steps[i];
    (s.RunnerThrows? || s.CompleteThrows?) && s.message == m && s.actor in w.actors
    && (w.actors[s.actor].Running? || w.actors[s.actor].Finished?) && w.actors[s.actor].id == id
  }

  ghost predicate Thrown(w0: World, steps: seq<Step>, id: Id, m: string) {
    exists i :: 0 <= i < |steps| && ThrowAt(w0, steps, i, id, m)
  }

  lemma ThrownStays(w0: World, steps: seq<Step>, s: Step, id: Id, m: string)
    requires Thrown(w0, steps, id, m)
    ensures Thrown(w0, steps + [s], id, m)
  {
    var i :| 0 <= i < |steps| && ThrowAt(w0, steps, i, id, m);
    assert (steps + [s])[..i] == steps[..i] && (steps + [s])[i] == steps[i];
    assert ThrowAt(w0, steps + [s], i, id, m);
  }

  lemma ThrownNow(w0: World, steps: seq<Step>, s: Step, id: Id, m: string)
    requires (s.RunnerThrows? || s.CompleteThrows?) && s.message == m && s.actor in Run(w0, steps).actors
    requires var p := Run(w0, steps).actors[s.actor]; (p.Running? || p.Finished?) && p.id == id
    ensures Thrown(w0, steps + [s], id, m)
  {
    assert (steps + [s])[..|steps|] == steps;
    assert ThrowAt(w0, steps + [s], |steps|, id, m);
  }

  predicate FixedError(m: string) {
    m == "Audit timed out" || m == "Could not queue the audit"
  }

  lemma ErrorAfter(w: World, s: Step, id: Id)
    requires id in Next(w, s).rows && Next(w, s).rows[id].error.Some?
    ensures var e := Next(w, s).rows[id].error;
            || (id in w.rows && w.rows[id].error == e)
            || FixedError(e.value)
            || (s.Fail? && s.actor in w.actors && w.actors[s.actor].Threw? && w.actors[s.actor].id == id
                && e == Some(w.actors[s.actor].message))
  {}

  lemma ThrewAfter(w: World, s: Step, a: Actor)
    requires a in Next(w, s).actors && Next(w, s).actors[a].Threw?
    ensures var p := Next(w, s).actors[a];
            (a in w.actors && w.actors[a] == p)
            || ((s.RunnerThrows? || s.CompleteThrows?) && s.actor == a && s.message == p.message && a in w.actors
                && (w.actors[a].Running? || w.actors[a].Finished?) && w.actors[a].id == p.id)
  {}

  lemma {:induction false} ErrorsAreThrown(w0: World, steps: seq<Step>)
    requires Init(w0)
    ensures forall id :: id in Run(w0, steps).rows && Run(w0, steps).rows[id].error.Some? ==>
              var m := Run(w0, steps).rows[id].error.value; FixedError(m) || Thrown(w0, steps, id, m)
    ensures forall a :: a in Run(w0, steps).actors && Run(w0, steps).actors[a].Threw? ==>
              Thrown(w0, steps, Run(w0, steps).actors[a].id, Run(w0, steps).actors[a].message)
    decreases |steps|
  {
    if steps != [] {
      var front, s := steps[..|steps|-1], steps[|steps|-1];
      assert front + [s] == steps;
      ErrorsAreThrown(w0, front);
      RunOfMore(w0, front, s);
      var w, w' := Run(w0, front), Run(w0, steps);
      forall id | id in w'.rows && w'.rows[id].error.Some?
        ensures var m := w'.rows[id].error.value; FixedError(m) || Thrown(w0, steps, id, m)
      {
        ErrorAfter(w, s, id);
        var m := w'.rows[id].error.value;
        if !FixedError(m) { ThrownStays(w0, front, s, id, m); }
      }
      forall a | a in w'.actors && w'.actors[a].Threw?
        ensures Thrown(w0, steps, w'.actors[a].id, w'.actors[a].message)
      {
        ThrewAfter(w, s, a);
        if a in w.actors && w.actors[a] == w'.actors[a] {
          ThrownStays(w0, front, s, w'.actors[a].id, w'.actors[a].message);
        } else {
          ThrownNow(w0, front, s, w'.actors[a].id, w'.actors[a].message);
        }
      }
    }
  }

  lemma EndsWithAWord(w: World, s: Step, id: Id)
    requires Inv(w) && id in Next(w, s).rows && Next(w, s).rows[id].status == FAILED
    ensures Next(w, s).rows[id].error.Some? || (id in w.rows && w.rows[id] == Next(w, s).rows[id])
  {}

  lemma {:induction false} FailedHasAnError(w: World, steps: seq<Step>)
    requires Inv(w) && forall id :: id in w.rows && w.rows[id].status == FAILED ==> w.rows[id].error.Some?
    ensures forall id :: id in Run(w, steps).rows && Run(w, steps).rows[id].status == FAILED ==>
              Run(w, steps).rows[id].error.Some?
    decreases |steps|
  {
    if steps != [] {
      var w' := Next(w, steps[0]);
      forall id | id in w'.rows && w'.rows[id].status == FAILED ensures w'.rows[id].error.Some? {
        EndsWithAWord(w, steps[0], id);
      }
      NextKeepsInv(w, steps[0]);
      FailedHasAnError(w', steps[1..]);
    }
  }

  /** In every run a failed audit says why: that it timed out, that it could not be queued, or
      what was thrown in a worker of this audit. */
  lemma FailedSaysWhy(w0: World, steps: seq<Step>, id: Id)
    requires Init(w0) && id in Run(w0, steps).rows && Run(w0, steps).rows[id].status == FAILED
    ensures var r := Run(w0, steps).rows[id];
            r.error.Some? && (r.error.value in {"Audit timed out", "Could not queue the audit"}
                              || Thrown(w0, steps, id, r.error.value))
  {
    InitInv(w0);
    FailedHasAnError(w0, steps);
    ErrorsAreThrown(w0, steps);
  }

  // ---------------------------------------------------------------- the ends of a delivery

  lemma WorkerThrows(w: World, b: Actor, id: Id, m: string)
    requires b in w.actors && w.actors[b] == Won(id) && id in w.rows && w.rows[id].status == PROCESSING
    ensures var end := Next(Next(Next(w, ReadRow(b)), RunnerThrows(b, m)), Fail(b));
            && end.inbox == w.inbox && end.actors == w.actors[b := Telling(id, w.rows[id].request, FAILED)]
            && end.rows == w.rows[id := w.rows[id].(status := FAILED, error := Some(m),
                                                     fetchedAt := Some(w.now), updatedAt := w.now)]
  {
    var q := w.rows[id].request;
    var w1 := Next(w, ReadRow(b));
    assert w1 == Move(w, b, Running(id, q));
    var w2 := Next(w1, RunnerThrows(b, m));
    assert w2 == Move(w1, b, Threw(id, q, m));
    assert Next(w2, Fail(b)) == TryFail(w2, b);
  }

  /** A delivery whose runner throws, left alone, fails the audit with what was thrown. */
  lemma WorkerFails(w: World, b: Actor, id: Id, m: string)
    requires b !in w.actors && id in w.queued && id in w.rows && w.rows[id].status == PENDING
    ensures var end := Run(w, [Deliver(b, id), Claim(b), ReadRow(b), RunnerThrows(b, m), Fail(b)]);
            end.rows == w.rows[id := w.rows[id].(status := FAILED, error := Some(m),
                                                  fetchedAt := Some(w.now), updatedAt := w.now)]
  {
    RunFive(w, Deliver(b, id), Claim(b), ReadRow(b), RunnerThrows(b, m), Fail(b));
    WorkerClaims(w, b, id);
    WorkerThrows(Next(Next(w, Deliver(b, id)), Claim(b)), b, id, m);
  }

  /** What a worker or a reaper tells arrives, once, unless the database drops it. */
  lemma TellingArrives(w: World, s: Step)
    requires (s.Tell? && s.actor in w.actors && w.actors[s.actor].Telling?)
             || (s.ReapTell? && s.actor in w.actors && w.actors[s.actor].SweepTelling?)
    ensures var p := w.actors[s.actor];
            Next(w, s).inbox == w.inbox +
              if s.delivered then [Notification(p.id, p.request, if p.Telling? then p.kind else FAILED)] else []
  {}

  /** A creation that passes the cap and whose job is queued leaves a pending audit of just that
      request, to be delivered. */
  lemma CreatedIsPending(w: World, a: Actor, q: Request, id: Id)
    requires a in w.actors && w.actors[a] == Counted(q) && id !in w.h.made
    ensures var end := Next(Next(w, Create(a, id)), EnqueueOk(a));
            && end.rows == w.rows[id := Audit(q, PENDING, None, None, None, w.now, w.now)]
            && end.queued == w.queued + {id} && end.actors == w.actors - {a}
  {
    var w1 := Next(w, Create(a, id));
    assert w1 == CreateRow(w, a, id);
    assert w1.actors[a] == Created(id);
    assert w1.actors - {a} == w.actors - {a};
  }
}
