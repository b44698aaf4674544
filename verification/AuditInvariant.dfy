/** Every step of the audit protocol keeps its invariant. */
module AuditInvariant {
  import opened AuditProtocol

  /** Steps that change no row, no history and no inbox. */
  lemma ActorsKeepInv(w: World, w': World)
    requires Inv(w) && w'.h == w.h && w'.inbox == w.inbox && w.now <= w'.now
    requires w'.rows.Keys <= w.rows.Keys && forall id :: id in w'.rows ==> w'.rows[id] == w.rows[id]
    requires w'.queued == w.queued
    requires forall a {:trigger PhaseOk(w', a)} :: a in w'.actors ==> PhaseOk(w', a)
    ensures Inv(w')
  {
    forall id {:trigger RowOk(w', id)} | id in w'.rows ensures RowOk(w', id) { assert RowOk(w, id); }
    forall id {:trigger ClaimOk(w', id)} ensures ClaimOk(w', id) { assert ClaimOk(w, id); }
    forall i: nat {:trigger InboxOk(w', i)} | i < |w'.inbox| ensures InboxOk(w', i) { assert InboxOk(w, i); }
    forall id {:trigger EndedOk(w', id)} ensures EndedOk(w', id) { assert EndedOk(w, id); }
  }

  /** An actor that does not move keeps its claim on the world, if history and inbox stay. */
  lemma PhaseStays(w: World, w': World, a: Actor)
    requires a in w.actors && a in w'.actors && w'.actors[a] == w.actors[a] && PhaseOk(w, a)
    requires w'.h == w.h && w'.inbox == w.inbox && w'.queued == w.queued
    ensures PhaseOk(w', a)
  {}

  /** What a creator's place says is kept when another audit's job is queued. */
  lemma PhaseQueued(w: World, w': World, a: Actor, b: Actor, id: Id)
    requires Inv(w) && a in w.actors && w.actors[a] == Created(id)
    requires b in w.actors && b != a && b in w'.actors && w'.actors[b] == w.actors[b] && w'.inbox == w.inbox
    requires w'.queued == w.queued || w'.queued == w.queued + {id}
    requires w'.h == w.h || w'.h == w.h.(lost := w.h.lost + {id})
    ensures PhaseOk(w', b)
  {
    assert PhaseOk(w, a) && PhaseOk(w, b);
  }

  /** The creator leaves its place behind the create, and its job may be queued. */
  lemma EnqueueKeepsInv(w: World, s: Step)
    requires Inv(w) && (s.EnqueueOk? || s.EnqueueRejected?) && s.actor in w.actors && w.actors[s.actor].Created?
    ensures Inv(Next(w, s))
  {
    var w' := Next(w, s);
    var id := w.actors[s.actor].id;
    assert PhaseOk(w, s.actor);
    forall x {:trigger RowOk(w', x)} | x in w'.rows ensures RowOk(w', x) { assert RowOk(w, x); }
    forall x {:trigger ClaimOk(w', x)} ensures ClaimOk(w', x) { assert ClaimOk(w, x); }
    forall b {:trigger PhaseOk(w', b)} | b in w'.actors ensures PhaseOk(w', b) {
      if b != s.actor { PhaseQueued(w, w', s.actor, b, id); }
    }
    forall i: nat {:trigger InboxOk(w', i)} | i < |w'.inbox| ensures InboxOk(w', i) { assert InboxOk(w, i); }
    forall x {:trigger EndedOk(w', x)} ensures EndedOk(w', x) { assert EndedOk(w, x); }
  }

  /** A step in which one actor moves to a place that is right for it. */
  lemma OneMoves(w: World, w': World, me: Actor)
    requires Inv(w) && w' == w.(actors := w'.actors)
    requires forall a :: a in w'.actors && a != me ==> a in w.actors && w'.actors[a] == w.actors[a]
    requires me in w'.actors ==> PhaseOk(w', me)
    ensures Inv(w')
  {
    forall a {:trigger PhaseOk(w', a)} | a in w'.actors ensures PhaseOk(w', a) {
      if a != me { assert PhaseOk(w, a); PhaseStays(w, w', a); }
    }
    ActorsKeepInv(w, w');
  }

  lemma EnvironmentKeepsInv(w: World, s: Step)
    requires Inv(w) && (s.Purge? || s.Tick?)
    ensures Inv(Next(w, s))
  {
    var w' := Next(w, s);
    forall a {:trigger PhaseOk(w', a)} | a in w'.actors
        ensures PhaseOk(w', a) { assert PhaseOk(w, a); PhaseStays(w, w', a); }
    ActorsKeepInv(w, w');
  }

  lemma MoveKeepsInv(w: World, s: Step)
    requires Inv(w)
    requires s.Count? || s.Deliver? || s.ReadRow? || s.RunnerReturns? || s.RunnerThrows? || s.ReapStart? || s.Crash?
    ensures Inv(Next(w, s))
  {
    if s.actor in w.actors {
      assert PhaseOk(w, s.actor);
      if s.ReadRow? && w.actors[s.actor].Won? && w.actors[s.actor].id in w.rows {
        assert RowOk(w, w.actors[s.actor].id);
      }
    }
    OneMoves(w, Next(w, s), s.actor);
  }

  lemma ReapEndKeepsInv(w: World, a: Actor)
    requires Inv(w)
    ensures Inv(Next(w, ReapEnd(a)))
  {
    var w' := Next(w, ReapEnd(a));
    forall id {:trigger RowOk(w', id)} | id in w'.rows ensures RowOk(w', id) { assert RowOk(w, id); }
    forall id {:trigger ClaimOk(w', id)} ensures ClaimOk(w', id) { assert ClaimOk(w, id); }
    forall b {:trigger PhaseOk(w', b)} | b in w'.actors ensures PhaseOk(w', b) { assert PhaseOk(w, b); }
    forall i: nat {:trigger InboxOk(w', i)} | i < |w'.inbox| ensures InboxOk(w', i) { assert InboxOk(w, i); }
    forall id {:trigger EndedOk(w', id)} ensures EndedOk(w', id) { assert EndedOk(w, id); }
  }

  lemma CreateKeepsInv(w: World, a: Actor, id: Id)
    requires Inv(w) && a in w.actors && w.actors[a].Counted? && id !in w.h.made
    ensures Inv(CreateRow(w, a, id))
  {
    var w' := CreateRow(w, a, id);
    assert ClaimOk(w, id) && EndedOk(w, id);
    forall x {:trigger RowOk(w', x)} | x in w'.rows ensures RowOk(w', x) { if x != id { assert RowOk(w, x); } }
    forall x {:trigger ClaimOk(w', x)} ensures ClaimOk(w', x) { assert ClaimOk(w, x); }
    forall b {:trigger PhaseOk(w', b)} | b in w'.actors ensures PhaseOk(w', b) { if b != a { assert PhaseOk(w, b); } }
    forall i: nat {:trigger InboxOk(w', i)} | i < |w'.inbox| ensures InboxOk(w', i) { assert InboxOk(w, i); }
    forall x {:trigger EndedOk(w', x)} ensures EndedOk(w', x) { assert EndedOk(w, x); }
  }

  lemma ClaimKeepsInv(w: World, a: Actor)
    requires Inv(w) && a in w.actors && w.actors[a].Delivered?
    ensures Inv(TryClaim(w, a))
  {
    var w' := TryClaim(w, a);
    var id := w.actors[a].id;
    assert PhaseOk(w, a) && ClaimOk(w, id);
    if id in w.rows { assert RowOk(w, id); }
    forall x {:trigger RowOk(w', x)} | x in w'.rows ensures RowOk(w', x) { assert RowOk(w, x); }
    forall x {:trigger ClaimOk(w', x)} ensures ClaimOk(w', x) { assert ClaimOk(w, x); }
    forall b {:trigger PhaseOk(w', b)} | b in w'.actors ensures PhaseOk(w', b) { assert PhaseOk(w, b); }
    forall i: nat {:trigger InboxOk(w', i)} | i < |w'.inbox| ensures InboxOk(w', i) { assert InboxOk(w, i); }
    forall x {:trigger EndedOk(w', x)} ensures EndedOk(w', x) { assert EndedOk(w, x); }
  }

  /** Unless the job was queued after all, the creator's unguarded write can only meet a pending
      or a failed row. */
  lemma UnqueuedIsUnclaimed(w: World, a: Actor)
    requires Inv(w) && a in w.actors && w.actors[a].Unqueued? && w.actors[a].id in w.rows
    requires w.actors[a].id !in w.h.lost
    ensures w.rows[w.actors[a].id].status in {PENDING, FAILED}
  {
    assert PhaseOk(w, a) && ClaimOk(w, w.actors[a].id) && RowOk(w, w.actors[a].id);
  }

  lemma GiveUpKeepsInv(w: World, a: Actor)
    requires Inv(w) && a in w.actors && w.actors[a].Unqueued?
    ensures Inv(GiveUp(w, a))
  {
    var w' := GiveUp(w, a);
    var id := w.actors[a].id;
    assert PhaseOk(w, a) && EndedOk(w, id);
    if id in w.rows {
      assert RowOk(w, id);
      if id !in w.h.lost { UnqueuedIsUnclaimed(w, a); }
    }
    forall x {:trigger RowOk(w', x)} | x in w'.rows ensures RowOk(w', x) { assert RowOk(w, x); }
    forall x {:trigger ClaimOk(w', x)} ensures ClaimOk(w', x) { assert ClaimOk(w, x); }
    forall b {:trigger PhaseOk(w', b)} | b in w'.actors ensures PhaseOk(w', b) { assert PhaseOk(w, b); }
    forall i: nat {:trigger InboxOk(w', i)} | i < |w'.inbox| ensures InboxOk(w', i) { assert InboxOk(w, i); }
    forall x {:trigger EndedOk(w', x)} ensures EndedOk(w', x) { assert EndedOk(w, x); }
  }

  /** A guarded write that takes an in-flight row to a terminal status hands its author the
      only ticket to announce it. */
  lemma EndKeepsInv(w: World, a: Actor, id: Id, r: Audit, p: Phase, w': World)
    requires Inv(w) && a in w.actors && id in w.rows && w.rows[id].status.InFlight() && !r.status.InFlight()
    requires r.request == w.rows[id].request && r.createdAt == w.rows[id].createdAt && r.updatedAt == w.now
    requires r.status == COMPLETED <==> r.findings.Some?
    requires r.status == COMPLETED ==> r.error.None? && w.rows[id].status == PROCESSING
    requires w' == Move(EndBy(Put(w, id, r), id, r.status, a), a, p)
    requires p.Telling? || p.SweepTelling? || p.Threw?
    requires p.id == id && p.request == r.request && (p.Telling? ==> p.kind == r.status) &&
      (p.SweepTelling? ==> r.status == FAILED)
    ensures Inv(w')
  {
    assert RowOk(w, id) && ClaimOk(w, id) && EndedOk(w, id);
    forall x {:trigger RowOk(w', x)} | x in w'.rows ensures RowOk(w', x) { assert RowOk(w, x); }
    forall x {:trigger ClaimOk(w', x)} ensures ClaimOk(w', x) { assert ClaimOk(w, x); }
    assert !Told(w, id) by {
      forall i | 0 <= i < |w.inbox| ensures w.inbox[i].audit != id { assert InboxOk(w, i); }
    }
    assert w'.inbox == w.inbox;
    forall b {:trigger PhaseOk(w', b)} | b in w'.actors ensures PhaseOk(w', b) {
      if b != a { assert PhaseOk(w, b); }
    }
    forall i: nat {:trigger InboxOk(w', i)} | i < |w'.inbox| ensures InboxOk(w', i) { assert InboxOk(w, i); }
    forall x {:trigger EndedOk(w', x)} ensures EndedOk(w', x) { assert EndedOk(w, x); }
  }

  /** A ticket is spent at most once. */
  lemma TellKeepsInv(w: World, a: Actor, n: Notification, w': World)
    requires Inv(w) && a in w.actors && Ticket(w, a, n.audit, n.request, n.kind)
    requires (w'.actors == w.actors - {a}) || (exists start, todo :: w'.actors == w.actors[a := Sweeping(start, todo)])
    requires w'.inbox == w.inbox + [n] || w'.inbox == w.inbox
    requires w' == w.(inbox := w'.inbox, actors := w'.actors)
    ensures Inv(w')
  {
    forall x {:trigger RowOk(w', x)} | x in w'.rows ensures RowOk(w', x) { assert RowOk(w, x); }
    forall x {:trigger ClaimOk(w', x)} ensures ClaimOk(w', x) { assert ClaimOk(w, x); }
    forall b {:trigger PhaseOk(w', b)} | b in w'.actors ensures PhaseOk(w', b) {
      if b != a {
        assert PhaseOk(w, b);
        if w.actors[b].Telling? || w.actors[b].SweepTelling? {
          assert w.actors[b].id != n.audit;
          assert !Told(w', w.actors[b].id);
        }
      }
    }
    forall i: nat {:trigger InboxOk(w', i)} | i < |w'.inbox| ensures InboxOk(w', i) {
      if i < |w.inbox| { assert InboxOk(w, i); }
    }
    forall x {:trigger EndedOk(w', x)} ensures EndedOk(w', x) { assert EndedOk(w, x); }
  }

  lemma LeaveKeepsInv(w: World, w': World, a: Actor)
    requires Inv(w) && a in w.actors
    requires w' == Leave(w, a) || (exists start, todo :: w' == Move(w, a, Sweeping(start, todo)))
    ensures Inv(w')
  {
    forall b {:trigger PhaseOk(w', b)} | b in w'.actors ensures PhaseOk(w', b) {
      if b != a { assert PhaseOk(w, b); PhaseStays(w, w', b); }
    }
    ActorsKeepInv(w, w');
  }

  lemma CompleteKeepsInv(w: World, a: Actor)
    requires Inv(w) && a in w.actors && w.actors[a].Finished?
    ensures Inv(TryComplete(w, a))
  {
    var p := w.actors[a];
    var w' := TryComplete(w, a);
    assert PhaseOk(w, a);
    if p.id in w.rows && w.rows[p.id].status == PROCESSING {
      assert RowOk(w, p.id);
      EndKeepsInv(w, a, p.id, w.rows[p.id].Completed(p.findings, w.now), Telling(p.id, p.request, COMPLETED), w');
    } else {
      LeaveKeepsInv(w, w', a);
    }
  }

  lemma CompleteThrowsKeepsInv(w: World, a: Actor, applied: bool, m: string)
    requires Inv(w)
    ensures Inv(Next(w, CompleteThrows(a, applied, m)))
  {
    var w' := Next(w, CompleteThrows(a, applied, m));
    if a in w.actors && w.actors[a].Finished? {
      var p := w.actors[a];
      assert PhaseOk(w, a);
      if applied && p.id in w.rows && w.rows[p.id].status == PROCESSING {
        assert RowOk(w, p.id);
        EndKeepsInv(w, a, p.id, w.rows[p.id].Completed(p.findings, w.now), Threw(p.id, p.request, m), w');
      } else {
        assert w' == Move(w, a, Threw(p.id, p.request, m));
        forall b {:trigger PhaseOk(w', b)} | b in w'.actors ensures PhaseOk(w', b) {
          if b != a { assert PhaseOk(w, b); PhaseStays(w, w', b); }
        }
        ActorsKeepInv(w, w');
      }
    }
  }

  lemma FailKeepsInv(w: World, a: Actor)
    requires Inv(w) && a in w.actors && w.actors[a].Threw?
    ensures Inv(TryFail(w, a))
  {
    var p := w.actors[a];
    var w' := TryFail(w, a);
    assert PhaseOk(w, a);
    if p.id in w.rows && w.rows[p.id].status == PROCESSING {
      assert RowOk(w, p.id);
      EndKeepsInv(w, a, p.id, w.rows[p.id].Failed(p.message, w.now), Telling(p.id, p.request, FAILED), w');
    } else {
      LeaveKeepsInv(w, w', a);
    }
  }

  lemma ReapKeepsInv(w: World, a: Actor, id: Id)
    requires Inv(w) && a in w.actors && w.actors[a].Sweeping?
    ensures Inv(ReapOne(w, a, id))
  {
    var p := w.actors[a];
    var w' := ReapOne(w, a, id);
    if id in w.rows && w.rows[id].Stale(p.start - STALE_PROCESSING_MS) {
      assert RowOk(w, id);
      EndKeepsInv(w, a, id, w.rows[id].GivenUp("Audit timed out", w.now),
                  SweepTelling(p.start, p.todo - {id}, id, w.rows[id].request), w');
    } else {
      LeaveKeepsInv(w, w', a);
    }
  }

  lemma NextKeepsInv(w: World, s: Step)
    requires Inv(w)
    ensures Inv(Next(w, s))
  {
    match s
    case Create(a, id) => if a in w.actors && w.actors[a].Counted? && id !in w.h.made { CreateKeepsInv(w, a, id); }
    case EnqueueOk(a) => if a in w.actors && w.actors[a].Created? { EnqueueKeepsInv(w, s); }
    case EnqueueRejected(a, _) => if a in w.actors && w.actors[a].Created? { EnqueueKeepsInv(w, s); }
    case FailUnqueued(a) => if a in w.actors && w.actors[a].Unqueued? { GiveUpKeepsInv(w, a); }
    case Claim(a) => if a in w.actors && w.actors[a].Delivered? { ClaimKeepsInv(w, a); }
    case Complete(a) => if a in w.actors && w.actors[a].Finished? { CompleteKeepsInv(w, a); }
    case CompleteThrows(a, applied, m) => CompleteThrowsKeepsInv(w, a, applied, m);
    case Fail(a) => if a in w.actors && w.actors[a].Threw? { FailKeepsInv(w, a); }
    case Tell(a, ok) =>
      if a in w.actors && w.actors[a].Telling? {
        var p := w.actors[a];
        assert PhaseOk(w, a);
        TellKeepsInv(w, a, Notification(p.id, p.request, p.kind), Next(w, s));
      }
    case ReapRow(a, id) => if a in w.actors && w.actors[a].Sweeping? { ReapKeepsInv(w, a, id); }
    case ReapTell(a, ok) =>
      if a in w.actors && w.actors[a].SweepTelling? {
        var p := w.actors[a];
        assert PhaseOk(w, a);
        assert Next(w, s).actors == w.actors[a := Sweeping(p.start, p.todo)];
        TellKeepsInv(w, a, Notification(p.id, p.request, FAILED), Next(w, s));
      }
    case ReapEnd(a) => ReapEndKeepsInv(w, a);
    case Purge => EnvironmentKeepsInv(w, s);
    case Tick(_) => EnvironmentKeepsInv(w, s);
    case _ => MoveKeepsInv(w, s);
  }

  lemma {:induction false} RunKeepsInv(w: World, steps: seq<Step>)
    requires Inv(w)
    ensures Inv(Run(w, steps))
    decreases |steps|
  {
    if steps != [] {
      NextKeepsInv(w, steps[0]);
      RunKeepsInv(Next(w, steps[0]), steps[1..]);
    }
  }
}
