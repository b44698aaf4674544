/** Files as rows in the database and objects in a store, with uploads and removals running
    at once. Each call to the database or the store is one atomic step; a crash, or an error
    from either, drops the call where it stands.
  */
module FileProtocol {
  import opened Wrappers

  type Tenant = nat
  type Id = nat
  type Call = nat
  type Content = seq<nat>

  /** `${tenantId}/${randomUUID()}`. */
  datatype Key = Key(tenant: Tenant, uuid: nat)

  datatype Upload = Upload(originalname: string, mimetype: string, size: nat, buffer: Content)

  datatype File = File(tenant: Tenant, uploadedBy: nat, key: Key, filename: string, contentType: string, size: nat)

  /** Where a call stands between two of its awaits. */
  datatype Phase =
    | Stored(file: File)                                // the object is put; no row yet
    | Removing(id: Id, tenant: Tenant, key: Key)        // the row was read
    | RowGone(key: Key)                                 // the row is deleted; the object is not

  /** Who answers for an object. */
  datatype Owner = Row(id: Id) | Holder(call: Call) | Lost | Deleted

  /** What has happened so far; no code reads it. */
  datatype History = History(owner: map<Key, Owner>, content: map<Key, Content>, born: map<Id, File>)

  datatype World = World(files: map<Id, File>, objects: map<Key, Content>, calls: map<Call, Phase>, h: History)

  datatype Step =
    | Put(call: Call, tenant: Tenant, uploadedBy: nat, uuid: nat, input: Upload)
    | Insert(call: Call, id: Id)
    | Look(call: Call, tenant: Tenant, id: Id)
    | DeleteRow(call: Call)
    | DeleteObject(call: Call)
    | Crash(call: Call)

  ghost predicate Init(w: World) {
    w == World(map[], map[], map[], History(map[], map[], map[]))
  }

  function Described(tenant: Tenant, uploadedBy: nat, uuid: nat, input: Upload): File {
    File(tenant, uploadedBy, Key(tenant, uuid), input.originalname, input.mimetype, input.size)
  }

  /** Random keys do not repeat. */
  predicate FreshKey(w: World, k: Key) {
    k !in w.h.owner && k !in w.objects
  }

  /** Nor do row ids. */
  predicate FreshId(w: World, id: Id) {
    id !in w.h.born && id !in w.files
  }

  /** One atomic step. A step whose call is not at that point does nothing. */
  function Next(w: World, s: Step): World {
    match s
    case Put(c, t, u, uuid, input) =>
      if c in w.calls || !FreshKey(w, Key(t, uuid)) then w
      else PutObject(w, c, Described(t, u, uuid, input), input.buffer)
    case Insert(c, id) =>
      if c in w.calls && w.calls[c].Stored? && FreshId(w, id) then InsertRow(w, c, id) else w
    case Look(c, t, id) =>
      if c !in w.calls && id in w.files && w.files[id].tenant == t
      then w.(calls := w.calls[c := Removing(id, t, w.files[id].key)])
      else w
    case DeleteRow(c) => if c in w.calls && w.calls[c].Removing? then TryDeleteRow(w, c) else w
    case DeleteObject(c) =>
      if c in w.calls && w.calls[c].RowGone? then
        var k := w.calls[c].key;
        w.(objects := w.objects - {k}, calls := w.calls - {c}, h := w.h.(owner := w.h.owner[k := Deleted]))
      else w
    case Crash(c) => if c in w.calls then Dropped(w, c) else w
  }

  function PutObject(w: World, c: Call, file: File, content: Content): World {
    w.(objects := w.objects[file.key := content], calls := w.calls[c := Stored(file)],
       h := w.h.(owner := w.h.owner[file.key := Holder(c)], content := w.h.content[file.key := content]))
  }

  function InsertRow(w: World, c: Call, id: Id): World
    requires c in w.calls && w.calls[c].Stored?
  {
    var file := w.calls[c].file;
    w.(files := w.files[id := file], calls := w.calls - {c},
       h := w.h.(owner := w.h.owner[file.key := Row(id)], born := w.h.born[id := file]))
  }

  /** Deleting a row that is already gone throws, which ends the call. */
  function TryDeleteRow(w: World, c: Call): World
    requires c in w.calls && w.calls[c].Removing?
  {
    var p := w.calls[c];
    if p.id in w.files && w.files[p.id].tenant == p.tenant then
      w.(files := w.files - {p.id}, calls := w.calls[c := RowGone(p.key)],
           h := w.h.(owner := w.h.owner[p.key := Holder(c)]))
    else w.(calls := w.calls - {c})
  }

  /** The key of an object that only this call knows of. */
  function HeldKey(p: Phase): Option<Key> {
    match p
    case Stored(file) => Some(file.key)
    case RowGone(key) => Some(key)
    case Removing(_, _, _) => None
  }

  function Dropped(w: World, c: Call): World
    requires c in w.calls
  {
    var k := HeldKey(w.calls[c]);
    w.(calls := w.calls - {c}, h := if k.Some? then w.h.(owner := w.h.owner[k.value := Lost]) else w.h)
  }

  function Run(w: World, steps: seq<Step>): World
    decreases |steps|
  {
    if steps == [] then w else Run(Next(w, steps[0]), steps[1..])
  }

  lemma {:induction false} RunConcat(w: World, a: seq<Step>, b: seq<Step>)
    ensures Run(w, a + b) == Run(Run(w, a), b)
    decreases |a|
  {
    if a == [] {
      assert a + b == b;
    } else {
      assert (a + b)[0] == a[0] && (a + b)[1..] == a[1..] + b;
      RunConcat(Next(w, a[0]), a[1..], b);
    }
  }

  // ---------------------------------------------------------------- invariant

  ghost predicate FileOk(w: World, id: Id) {
    id in w.files ==>
      var k := w.files[id].key;
      && id in w.h.born && w.h.born[id] == w.files[id] && k.tenant == w.files[id].tenant
      && k in w.h.owner && w.h.owner[k] == Row(id)
  }

  ghost predicate CallOk(w: World, c: Call) {
    c in w.calls ==>
      match w.calls[c]
      case Stored(file) => file.key.tenant == file.tenant && file.key in w.h.owner && w.h.owner[file.key] == Holder(c)
      case RowGone(key) => key in w.h.owner && w.h.owner[key] == Holder(c)
      case Removing(id, tenant, key) => id in w.h.born && w.h.born[id].key == key
  }

  ghost predicate ObjectOk(w: World, k: Key) {
    && (k in w.objects <==> k in w.h.owner && w.h.owner[k] != Deleted)
    && (k in w.objects ==> k in w.h.content && w.objects[k] == w.h.content[k])
    && (k in w.h.owner && w.h.owner[k].Row? ==> var id := w.h.owner[k].id; id in w.files && w.files[id].key == k)
    && (k in w.h.owner && w.h.owner[k].Holder? ==>
        var c := w.h.owner[k].call; c in w.calls && HeldKey(w.calls[c]) == Some(k))
  }

  ghost predicate Inv(w: World) {
    && (forall id: Id {:trigger FileOk(w, id)} :: FileOk(w, id))
    && (forall c: Call {:trigger CallOk(w, c)} :: CallOk(w, c))
    && (forall k: Key {:trigger ObjectOk(w, k)} :: ObjectOk(w, k))
  }

  lemma NextKeepsFiles(w: World, s: Step, id: Id)
    requires Inv(w)
    ensures FileOk(Next(w, s), id)
  {
    assert FileOk(w, id);
    if s.call in w.calls {
      var p := w.calls[s.call];
      assert CallOk(w, s.call);
      if p.Removing? { assert FileOk(w, p.id); }
      if id in w.files { assert ObjectOk(w, w.files[id].key); }
    }
  }

  lemma NextKeepsCalls(w: World, s: Step, c: Call)
    requires Inv(w)
    ensures CallOk(Next(w, s), c)
  {
    assert CallOk(w, c);
    if s.call in w.calls {
      var p := w.calls[s.call];
      assert CallOk(w, s.call);
      if p.Removing? { assert FileOk(w, p.id); }
    } else if s.Look? && s.id in w.files {
      assert FileOk(w, s.id);
    }
  }

  lemma NextKeepsObjects(w: World, s: Step, k: Key)
    requires Inv(w)
    ensures ObjectOk(Next(w, s), k)
  {
    assert ObjectOk(w, k);
    if s.call in w.calls {
      var p := w.calls[s.call];
      assert CallOk(w, s.call);
      if p.Removing? { assert FileOk(w, p.id); } else { assert ObjectOk(w, HeldKey(p).value); }
    }
  }

  lemma NextKeepsInv(w: World, s: Step)
    requires Inv(w)
    ensures Inv(Next(w, s))
  {
    var n := Next(w, s);
    forall id: Id {:trigger FileOk(n, id)} ensures FileOk(n, id) { NextKeepsFiles(w, s, id); }
    forall c: Call {:trigger CallOk(n, c)} ensures CallOk(n, c) { NextKeepsCalls(w, s, c); }
    forall k: Key {:trigger ObjectOk(n, k)} ensures ObjectOk(n, k) { NextKeepsObjects(w, s, k); }
  }

  lemma {:induction false} RunKeepsInv(w: World, steps: seq<Step>)
    requires Inv(w)
    ensures Inv(Run(w, steps))
    decreases |steps|
  {
    if steps != [] {
      NextKeepsInv(w, steps[0]);
      RunKeepsInv(Next(w, steps[0]), steps[1..]);
    }
  }

  lemma InitInv(w: World)
    requires Init(w)
    ensures Inv(w)
  {}
}
