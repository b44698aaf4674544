/** The life of a site audit as a concurrent protocol: creators, redelivered workers, reaper
    sweeps and the retention purge race over one status column with guarded updates.

    Every awaited call is one atomic step. An actor is found in `actors` at the point it has
    reached; a crash removes it.
  */
module AuditProtocol {
  import opened Wrappers

  type Id = nat
  type Actor = nat
  type Tenant = nat
  type User = nat
  type Findings = nat  // whatever the checks returned

  const STALE_PROCESSING_MS: nat := 15 * 60 * 1000
  const RETENTION_MS: nat := 90 * 24 * 60 * 60 * 1000
  const MAX_INFLIGHT_PER_TENANT: nat := 5

  datatype Status = PENDING | PROCESSING | COMPLETED | FAILED {
    predicate InFlight() { PENDING? || PROCESSING? }
  }

  /** What an audit was asked for; these columns never change. */
  datatype Request = Request(tenant: Tenant, requestedBy: User, url: string)

  datatype Audit = Audit(
    request: Request, status: Status, findings: Option<Findings>, error: Option<string>,
    fetchedAt: Option<int>, createdAt: int, updatedAt: int)
  {
    predicate Stale(cutoff: int) {
      status.InFlight() && updatedAt < cutoff
    }

    function Claimed(now: int): Audit {
      this.(status := PROCESSING, updatedAt := now)
    }

    function Completed(f: Findings, now: int): Audit {
      this.(status := COMPLETED, findings := Some(f), error := None, fetchedAt := Some(now), updatedAt := now)
    }

    /** The worker's failure write. */
    function Failed(message: string, now: int): Audit {
      this.(status := FAILED, error := Some(message), fetchedAt := Some(now), updatedAt := now)
    }

    /** The failure writes of the reaper and of the creator leave `fetchedAt` alone. */
    function GivenUp(message: string, now: int): Audit {
      this.(status := FAILED, error := Some(message), updatedAt := now)
    }
  }

  function NewAudit(q: Request, now: int): Audit {
    Audit(q, PENDING, None, None, None, now, now)
  }

  datatype Notification = Notification(audit: Id, request: Request, kind: Status)

  /** Where an actor stands between two of its awaits. */
  datatype Phase =
    // a creator
    | Counted(request: Request)
    | Created(id: Id)
    | Unqueued(id: Id)
    // a worker
    | Delivered(id: Id)
    | Won(id: Id)
    | Running(id: Id, request: Request)
    | Finished(id: Id, request: Request, findings: Findings)
    | Threw(id: Id, request: Request, message: string)
    | Telling(id: Id, request: Request, kind: Status)
    // a reaper
    | Sweeping(start: int, todo: set<Id>)
    | SweepTelling(start: int, todo: set<Id>, id: Id, request: Request)

  /** A sweep that ran to its end. */
  datatype Sweep = Sweep(start: int, end: int)

  datatype Origin = Origin(creator: Actor, request: Request)

  /** What has happened so far; no code reads it. `made` records every audit ever created,
      `lost` those that a rejected enqueue had queued after all, `claims` the successful claims,
      `ended` the first terminal status an audit reached, `teller` who may announce it. */
  datatype History = History(
    made: map<Id, Origin>,
    lost: set<Id>,
    claims: multiset<Id>,
    ended: map<Id, Status>,
    teller: map<Id, Actor>,
    sweeps: set<Sweep>)

  datatype World = World(
    now: int,
    rows: map<Id, Audit>,
    queued: set<Id>,  // jobs in the queue; each may be delivered any number of times
    actors: map<Actor, Phase>,
    inbox: seq<Notification>,
    h: History)

  datatype Step =
    | Count(actor: Actor, request: Request)
    | Create(actor: Actor, id: Id)
    | EnqueueOk(actor: Actor)
    | EnqueueRejected(actor: Actor, queuedAnyway: bool)
    | FailUnqueued(actor: Actor)
    | Deliver(actor: Actor, id: Id)
    | Claim(actor: Actor)
    | ReadRow(actor: Actor)
    | RunnerReturns(actor: Actor, findings: Findings)
    | RunnerThrows(actor: Actor, message: string)
    | Complete(actor: Actor)
    | CompleteThrows(actor: Actor, applied: bool, message: string)
    | Fail(actor: Actor)
    | Tell(actor: Actor, delivered: bool)
    | ReapStart(actor: Actor)
    | ReapRow(actor: Actor, id: Id)
    | ReapTell(actor: Actor, delivered: bool)
    | ReapEnd(actor: Actor)
    | Purge
    | Crash(actor: Actor)
    | Tick(ms: nat)

  ghost predicate Init(w: World) {
    w.rows == map[] && w.queued == {} && w.actors == map[] && w.inbox == []
    && w.h == History(map[], {}, multiset{}, map[], map[], {})
  }

  function InFlight(w: World, t: Tenant): set<Id> {
    set id | id in w.rows && w.rows[id].request.tenant == t && w.rows[id].status.InFlight()
  }

  function StaleRows(w: World, cutoff: int): set<Id> {
    set id | id in w.rows && w.rows[id].Stale(cutoff)
  }

  function Move(w: World, a: Actor, p: Phase): World {
    w.(actors := w.actors[a := p])
  }

  function Leave(w: World, a: Actor): World {
    w.(actors := w.actors - {a})
  }

  function Put(w: World, id: Id, r: Audit): World {
    w.(rows := w.rows[id := r])
  }

  /** Remembers the first terminal status of an audit, and who announces it. */
  function End(w: World, id: Id, s: Status): World {
    if id in w.h.ended then w else w.(h := w.h.(ended := w.h.ended[id := s]))
  }

  function EndBy(w: World, id: Id, s: Status, a: Actor): World {
    w.(h := w.h.(ended := w.h.ended[id := s], teller := w.h.teller[id := a]))
  }

  /** The job is queued, and its creator is told that it is not. */
  function Lose(w: World, id: Id): World {
    w.(queued := w.queued + {id}, h := w.h.(lost := w.h.lost + {id}))
  }

  /** One atomic step. A step whose actor is not at that point does nothing. */
  function Next(w: World, s: Step): World {
    match s
    case Count(a, q) =>
      if a in w.actors || |InFlight(w, q.tenant)| >= MAX_INFLIGHT_PER_TENANT then w else Move(w, a, Counted(q))
    case Create(a, id) =>
      if a in w.actors && w.actors[a].Counted? && id !in w.h.made then CreateRow(w, a, id) else w
    case EnqueueOk(a) =>
      if a in w.actors && w.actors[a].Created? then Leave(w.(queued := w.queued + {w.actors[a].id}), a) else w
    case EnqueueRejected(a, anyway) =>
      if a in w.actors && w.actors[a].Created? then
        Move(if anyway then Lose(w, w.actors[a].id) else w, a, Unqueued(w.actors[a].id))
      else w
    case FailUnqueued(a) => if a in w.actors && w.actors[a].Unqueued? then GiveUp(w, a) else w
    case Deliver(a, id) => if a !in w.actors && id in w.queued then Move(w, a, Delivered(id)) else w
    case Claim(a) => if a in w.actors && w.actors[a].Delivered? then TryClaim(w, a) else w
    case ReadRow(a) =>
      if a in w.actors && w.actors[a].Won? then
        var id := w.actors[a].id;
        if id in w.rows then Move(w, a, Running(id, w.rows[id].request)) else Leave(w, a)
      else w
    case RunnerReturns(a, f) =>
      if a in w.actors && w.actors[a].Running? then Move(w, a, Finished(w.actors[a].id, w.actors[a].request, f)) else w
    case RunnerThrows(a, m) =>
      if a in w.actors && w.actors[a].Running? then Move(w, a, Threw(w.actors[a].id, w.actors[a].request, m)) else w
    case Complete(a) => if a in w.actors && w.actors[a].Finished? then TryComplete(w, a) else w
    case CompleteThrows(a, applied, m) =>
      if a in w.actors && w.actors[a].Finished? then
        var p := w.actors[a];
        Move(if applied then TryComplete(w, a) else w, a, Threw(p.id, p.request, m))
      else w
    case Fail(a) => if a in w.actors && w.actors[a].Threw? then TryFail(w, a) else w
    case Tell(a, ok) => if a in w.actors && w.actors[a].Telling? then Announce(w, a, ok) else w
    case ReapStart(a) =>
      if a in w.actors then w else Move(w, a, Sweeping(w.now, StaleRows(w, w.now - STALE_PROCESSING_MS)))
    case ReapRow(a, id) =>
      if a in w.actors && w.actors[a].Sweeping? && id in w.actors[a].todo then ReapOne(w, a, id) else w
    case ReapTell(a, ok) => if a in w.actors && w.actors[a].SweepTelling? then AnnounceReaped(w, a, ok) else w
    case ReapEnd(a) =>
      if a in w.actors && w.actors[a].Sweeping? && w.actors[a].todo == {} then
        Leave(w.(h := w.h.(sweeps := w.h.sweeps + {Sweep(w.actors[a].start, w.now)})), a)
      else w
    case Purge => w.(rows := map id | id in w.rows && !(w.rows[id].createdAt < w.now - RETENTION_MS) :: w.rows[id])
    case Crash(a) => Leave(w, a)
    case Tick(ms) => w.(now := w.now + ms)
  }

  function CreateRow(w: World, a: Actor, id: Id): World
    requires a in w.actors && w.actors[a].Counted?
  {
    var q := w.actors[a].request;
    Move(Put(w.(h := w.h.(made := w.h.made[id := Origin(a, q)])), id, NewAudit(q, w.now)), a, Created(id))
  }

  /** The creator's unguarded write; on a row that is gone it throws and changes nothing. */
  function GiveUp(w: World, a: Actor): World
    requires a in w.actors && w.actors[a].Unqueued?
  {
    var id := w.actors[a].id;
    if id in w.rows then
      Leave(End(Put(w, id, w.rows[id].GivenUp("Could not queue the audit", w.now)), id, FAILED), a)
    else Leave(w, a)
  }

  function TryClaim(w: World, a: Actor): World
    requires a in w.actors && w.actors[a].Delivered?
  {
    var id := w.actors[a].id;
    if id in w.rows && w.rows[id].status == PENDING then
      Move(Put(w.(h := w.h.(claims := w.h.claims + multiset{id})), id, w.rows[id].Claimed(w.now)), a, Won(id))
    else Leave(w, a)
  }

  function TryComplete(w: World, a: Actor): World
    requires a in w.actors && w.actors[a].Finished?
  {
    var p := w.actors[a];
    if p.id in w.rows && w.rows[p.id].status == PROCESSING then
      Move(EndBy(Put(w, p.id, w.rows[p.id].Completed(p.findings, w.now)), p.id, COMPLETED, a), a,
           Telling(p.id, p.request, COMPLETED))
    else Leave(w, a)
  }

  function TryFail(w: World, a: Actor): World
    requires a in w.actors && w.actors[a].Threw?
  {
    var p := w.actors[a];
    if p.id in w.rows && w.rows[p.id].status == PROCESSING then
      Move(EndBy(Put(w, p.id, w.rows[p.id].Failed(p.message, w.now)), p.id, FAILED, a), a,
           Telling(p.id, p.request, FAILED))
    else Leave(w, a)
  }

  /** Best effort: a notification that cannot be stored is dropped. */
  function Announce(w: World, a: Actor, ok: bool): World
    requires a in w.actors && w.actors[a].Telling?
  {
    var p := w.actors[a];
    Leave(if ok then w.(inbox := w.inbox + [Notification(p.id, p.request, p.kind)]) else w, a)
  }

  function ReapOne(w: World, a: Actor, id: Id): World
    requires a in w.actors && w.actors[a].Sweeping?
  {
    var p := w.actors[a];
    if id in w.rows && w.rows[id].Stale(p.start - STALE_PROCESSING_MS) then
      Move(EndBy(Put(w, id, w.rows[id].GivenUp("Audit timed out", w.now)), id, FAILED, a), a,
           SweepTelling(p.start, p.todo - {id}, id, w.rows[id].request))
    else Move(w, a, Sweeping(p.start, p.todo - {id}))
  }

  function AnnounceReaped(w: World, a: Actor, ok: bool): World
    requires a in w.actors && w.actors[a].SweepTelling?
  {
    var p := w.actors[a];
    Move(if ok then w.(inbox := w.inbox + [Notification(p.id, p.request, FAILED)]) else w, a, Sweeping(p.start, p.todo))
  }

  function Run(w: World, steps: seq<Step>): World
    decreases |steps|
  {
    if steps == [] then w else Run(Next(w, steps[0]), steps[1..])
  }

  // ---------------------------------------------------------------- invariant

  ghost predicate RowOk(w: World, id: Id)
    requires id in w.rows
  {
    var r := w.rows[id];
    && id in w.h.made && w.h.made[id].request == r.request
    && r.createdAt <= r.updatedAt <= w.now
    && (r.status == PENDING ==> id !in w.h.claims && r.updatedAt == r.createdAt)
    && (r.status == PROCESSING || r.status == COMPLETED ==> id in w.h.claims)
    && (r.status.InFlight() ==> r.findings.None? && r.error.None? && id !in w.h.ended)
    && (r.status == COMPLETED ==> r.findings.Some? && r.error.None? && id in w.h.ended && w.h.ended[id] == COMPLETED)
    && (r.status == FAILED ==> FailedOk(w, id, r))
  }

  /** A failed row has findings only if it was completed first, which takes a job that was
      queued although its enqueue was rejected. */
  ghost predicate FailedOk(w: World, id: Id, r: Audit) {
    && id in w.h.ended
    && (r.findings.Some? <==> w.h.ended[id] == COMPLETED)
    && (w.h.ended[id] == COMPLETED ==> id in w.h.lost)
  }

  ghost predicate ClaimOk(w: World, id: Id) {
    && w.h.claims[id] <= 1
    && (id in w.h.claims || id in w.h.lost ==> id in w.queued)
    && (id in w.queued ==> id in w.h.made)
  }

  ghost predicate Told(w: World, id: Id) {
    exists i :: 0 <= i < |w.inbox| && w.inbox[i].audit == id
  }

  /** The actor holds the only right to announce how the audit ended, unused so far. */
  ghost predicate Ticket(w: World, a: Actor, id: Id, q: Request, kind: Status) {
    && id in w.h.ended && w.h.ended[id] == kind
    && id in w.h.teller && w.h.teller[id] == a
    && !Told(w, id)
    && MadeFor(w, id, q)
  }

  ghost predicate MadeFor(w: World, id: Id, q: Request) {
    id in w.h.made && w.h.made[id].request == q
  }

  ghost predicate PhaseOk(w: World, a: Actor)
    requires a in w.actors
  {
    match w.actors[a]
    case Counted(_) => true
    case Created(id) => id in w.h.made && w.h.made[id].creator == a && id !in w.queued
    case Unqueued(id) => id in w.h.made && w.h.made[id].creator == a && (id in w.queued ==> id in w.h.lost)
    case Delivered(id) => id in w.queued
    case Won(id) => id in w.queued
    case Running(id, q) => MadeFor(w, id, q)
    case Finished(id, q, _) => MadeFor(w, id, q)
    case Threw(id, q, _) => MadeFor(w, id, q)
    case Telling(id, q, kind) => Ticket(w, a, id, q, kind)
    case Sweeping(_, _) => true
    case SweepTelling(_, _, id, q) => Ticket(w, a, id, q, FAILED)
  }

  ghost predicate InboxOk(w: World, i: nat)
    requires i < |w.inbox|
  {
    var n := w.inbox[i];
    && n.audit in w.h.ended && w.h.ended[n.audit] == n.kind
    && MadeFor(w, n.audit, n.request)
    && (forall j :: 0 <= j < |w.inbox| && j != i ==> w.inbox[j].audit != n.audit)
  }

  ghost predicate EndedOk(w: World, id: Id) {
    id in w.h.ended ==> id in w.h.made && !w.h.ended[id].InFlight()
  }

  ghost predicate Inv(w: World) {
    && (forall id {:trigger RowOk(w, id)} :: id in w.rows ==> RowOk(w, id))
    && (forall id {:trigger ClaimOk(w, id)} :: ClaimOk(w, id))
    && (forall a {:trigger PhaseOk(w, a)} :: a in w.actors ==> PhaseOk(w, a))
    && (forall i: nat {:trigger InboxOk(w, i)} :: i < |w.inbox| ==> InboxOk(w, i))
    && (forall id {:trigger EndedOk(w, id)} :: EndedOk(w, id))
  }
}
