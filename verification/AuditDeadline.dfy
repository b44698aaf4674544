/** Timing of the reaper: what a sweep leaves behind, and by when an audit has ended. */
module AuditDeadline {
  import opened AuditProtocol
  import opened AuditInvariant
  import opened AuditSafety

  /** Everything that can happen to a row in one step. */
  lemma RowAfter(w: World, s: Step, id: Id)
    requires Inv(w) && id in Next(w, s).rows
    ensures var r' := Next(w, s).rows[id];
            || (id in w.rows && r' == w.rows[id])
            || (id in w.rows && s.Claim? && w.rows[id].status == PENDING && r' == w.rows[id].Claimed(w.now))
            || (id in w.rows && !r'.status.InFlight() && r'.request == w.rows[id].request)
            || (s.Create? && s.actor in w.actors && w.actors[s.actor].Counted? && id == s.id && id !in w.rows
                && r' == NewAudit(w.actors[s.actor].request, w.now))
  {
    if s.Create? && id in w.rows { assert RowOk(w, id); }
  }

  // ---------------------------------------------------------------- reaper deadline

  /** A sweep under way still has every row that is stale for it on its list. */
  ghost predicate SweepingOk(w: World, a: Actor)
    requires a in w.actors
  {
    w.actors[a].Sweeping? || w.actors[a].SweepTelling? ==>
      w.actors[a].start <= w.now && StaleRows(w, w.actors[a].start - STALE_PROCESSING_MS) <= w.actors[a].todo
  }

  /** What a finished sweep says of a row from then on. */
  ghost predicate SweptOk(w: World, id: Id, sw: Sweep)
    requires id in w.rows
  {
    var r := w.rows[id];
    var cutoff := sw.start - STALE_PROCESSING_MS;
    && !r.Stale(cutoff)
    && (r.status == PROCESSING && sw.end < r.updatedAt ==> cutoff <= r.createdAt)
  }

  ghost predicate SweepsOk(w: World) {
    && (forall a {:trigger SweepingOk(w, a)} :: a in w.actors ==> SweepingOk(w, a))
    && (forall sw :: sw in w.h.sweeps ==> sw.start <= sw.end <= w.now)
    && (forall id, sw {:trigger SweptOk(w, id, sw)} :: id in w.rows && sw in w.h.sweeps ==> SweptOk(w, id, sw))
  }

  /** No step makes a row stale for a cutoff that lies in the past. */
  lemma NoNewStale(w: World, s: Step, id: Id, cutoff: int)
    requires Inv(w) && id in Next(w, s).rows && Next(w, s).rows[id].Stale(cutoff) && cutoff <= w.now
    ensures id in w.rows && w.rows[id].Stale(cutoff)
  {
    RowAfter(w, s, id);
  }

  /** A sweep under way has just begun or goes on from the same start. */
  lemma SweepGoesOn(w: World, s: Step, a: Actor)
    requires a in Next(w, s).actors && (Next(w, s).actors[a].Sweeping? || Next(w, s).actors[a].SweepTelling?)
    ensures var p := Next(w, s).actors[a];
            if a !in w.actors then s == ReapStart(a) && p == Sweeping(w.now, StaleRows(w, w.now - STALE_PROCESSING_MS))
            else (w.actors[a].Sweeping? || w.actors[a].SweepTelling?) && p.start == w.actors[a].start
  {}

  /** Only what was reaped leaves the list. */
  lemma LeftTheList(w: World, s: Step, a: Actor, id: Id)
    requires a in w.actors && a in Next(w, s).actors && (w.actors[a].Sweeping? || w.actors[a].SweepTelling?)
    requires Next(w, s).actors[a].Sweeping? || Next(w, s).actors[a].SweepTelling?
    requires id in w.actors[a].todo && id !in Next(w, s).actors[a].todo
    ensures id !in StaleRows(Next(w, s), w.actors[a].start - STALE_PROCESSING_MS)
  {
    assert s == ReapRow(a, id);
  }

  lemma SweepingAfter(w: World, s: Step, a: Actor)
    requires Inv(w) && SweepsOk(w) && a in Next(w, s).actors
    ensures SweepingOk(Next(w, s), a)
  {
    var w' := Next(w, s);
    if w'.actors[a].Sweeping? || w'.actors[a].SweepTelling? {
      SweepGoesOn(w, s, a);
      if a !in w.actors {
        assert StaleRows(w', w'.actors[a].start - STALE_PROCESSING_MS) == w'.actors[a].todo;
      } else {
        assert SweepingOk(w, a);
        var cutoff := w'.actors[a].start - STALE_PROCESSING_MS;
        forall id | id in StaleRows(w', cutoff) ensures id in w'.actors[a].todo {
          NoNewStale(w, s, id, cutoff);
          assert id in StaleRows(w, cutoff);
          if id !in w'.actors[a].todo { LeftTheList(w, s, a, id); }
        }
      }
    }
  }

  lemma SweptAfter(w: World, s: Step, id: Id, sw: Sweep)
    requires Inv(w) && SweepsOk(w) && Inv(Next(w, s)) && id in Next(w, s).rows && sw in Next(w, s).h.sweeps
    ensures SweptOk(Next(w, s), id, sw)
  {
    var w' := Next(w, s);
    RowAfter(w, s, id);
    if sw in w.h.sweeps {
      if id in w.rows { assert SweptOk(w, id, sw) && RowOk(w, id); }
    } else {
      assert s.ReapEnd? && sw.end == w.now;
      assert SweepingOk(w, s.actor) && RowOk(w, id);
      assert id !in StaleRows(w, sw.start - STALE_PROCESSING_MS);
    }
  }

  lemma NextKeepsSweeps(w: World, s: Step)
    requires Inv(w) && SweepsOk(w)
    ensures SweepsOk(Next(w, s))
  {
    var w' := Next(w, s);
    NextKeepsInv(w, s);
    forall a {:trigger SweepingOk(w', a)} | a in w'.actors ensures SweepingOk(w', a) { SweepingAfter(w, s, a); }
    forall id, sw {:trigger SweptOk(w', id, sw)} | id in w'.rows && sw in w'.h.sweeps ensures SweptOk(w', id, sw) {
      SweptAfter(w, s, id, sw);
    }
    if s.ReapEnd? && s.actor in w.actors { assert SweepingOk(w, s.actor); }
  }

  lemma {:induction false} RunKeepsSweeps(w: World, steps: seq<Step>)
    requires Inv(w) && SweepsOk(w)
    ensures SweepsOk(Run(w, steps))
    decreases |steps|
  {
    if steps != [] {
      NextKeepsInv(w, steps[0]);
      NextKeepsSweeps(w, steps[0]);
      RunKeepsSweeps(Next(w, steps[0]), steps[1..]);
    }
  }

  /** When a sweep ends, whatever went on during its loop, no row in flight was last updated
      before the sweep's cutoff. */
  lemma SweepLeavesNothingStale(w0: World, before: seq<Step>, a: Actor, id: Id)
    requires Init(w0)
    requires var w := Run(w0, before); a in w.actors && w.actors[a].Sweeping? && w.actors[a].todo == {}
    ensures var w := Run(w0, before); var end := Next(w, ReapEnd(a));
            id in end.rows ==> !end.rows[id].Stale(w.actors[a].start - STALE_PROCESSING_MS)
  {
    var w := Run(w0, before);
    InitInv(w0);
    RunKeepsSweeps(w0, before);
    RunKeepsInv(w0, before);
    assert SweepingOk(w, a);
    assert id in w.rows ==> id !in StaleRows(w, w.actors[a].start - STALE_PROCESSING_MS);
  }

  lemma SweptBefore(w: World, id: Id, sw: Sweep)
    requires SweepsOk(w) && id in w.rows && sw in w.h.sweeps && w.rows[id].status.InFlight()
    ensures sw.start - STALE_PROCESSING_MS <= w.rows[id].updatedAt
  {
    assert SweptOk(w, id, sw);
  }

  /** Every stretch of `period` since `origin` contained a whole sweep. */
  ghost predicate SweptEvery(w: World, origin: int, period: nat) {
    forall t {:trigger SweptWithin(w, t, period)} :: origin <= t && t + period <= w.now ==> SweptWithin(w, t, period)
  }

  ghost predicate SweptWithin(w: World, t: int, period: nat) {
    exists sw :: sw in w.h.sweeps && t < sw.start && sw.end <= t + period
  }

  /** Every audit is terminal or gone within twice the stale window and the sweep period of
      its creation: only the claim can move `updatedAt` on before the end. */
  lemma ReaperDeadline(w0: World, steps: seq<Step>, id: Id, period: nat)
    requires Init(w0)
    requires id in Run(w0, steps).rows
    requires SweptEvery(Run(w0, steps), Run(w0, steps).rows[id].createdAt, period)
    requires Run(w0, steps).rows[id].createdAt + 2 * (900000 + period) <= Run(w0, steps).now
    ensures Run(w0, steps).rows[id].status in {COMPLETED, FAILED}
  {
    var w := Run(w0, steps);
    InitInv(w0);
    RunKeepsInv(w0, steps);
    RunKeepsSweeps(w0, steps);
    var r := w.rows[id];
    assert RowOk(w, id);
    if r.status.InFlight() {
      var t1 := r.createdAt + STALE_PROCESSING_MS;
      assert SweptWithin(w, t1, period);
      var sw :| sw in w.h.sweeps && t1 < sw.start && sw.end <= t1 + period;
      assert SweptOk(w, id, sw);
      assert r.updatedAt <= t1 + period;
      var t2 := r.updatedAt + STALE_PROCESSING_MS;
      assert SweptWithin(w, t2, period);
      var sw2 :| sw2 in w.h.sweeps && t2 < sw2.start && sw2.end <= t2 + period;
      SweptBefore(w, id, sw2);
    }
  }
}
