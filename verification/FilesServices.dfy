/** The file service as code that changes the two stores in place, while other calls run
    during each of its awaits. */
module FilesServices {
  import opened FileProtocol
  import opened FileSafety
  import opened Wrappers

  datatype Error = NotFound | RecordGone | Failed

  /** Steps of everybody else: not of this call, and not using its row id. */
  predicate ForeignStep(s: Step, me: Call, id: Id) {
    s.call != me && (s.Insert? ==> s.id != id)
  }

  predicate Foreign(steps: seq<Step>, me: Call, id: Id) {
    forall i :: 0 <= i < |steps| ==> ForeignStep(steps[i], me, id)
  }

  lemma {:induction false} ForeignKeeps(w: World, steps: seq<Step>, me: Call, id: Id)
    requires Foreign(steps, me, id)
    ensures FreshId(w, id) ==> FreshId(Run(w, steps), id)
    ensures me in w.calls <==> me in Run(w, steps).calls
    ensures me in w.calls ==> Run(w, steps).calls[me] == w.calls[me]
    decreases |steps|
  {
    if steps != [] {
      assert ForeignStep(steps[0], me, id);
      ForeignKeeps(Next(w, steps[0]), steps[1..], me, id);
    }
  }

  lemma RunThen(w: World, a: seq<Step>, pause: seq<Step>, s: Step)
    ensures Run(w, a + (pause + [s])) == Next(Run(Run(w, a), pause), s)
  {
    var w1 := Run(w, a);
    RunConcat(w, a, pause + [s]);
    RunConcat(w1, pause, [s]);
    assert [s][1..] == [];
    assert Run(Run(w1, pause), [s]) == Run(Next(Run(w1, pause), s), []);
  }

  lemma RunOne(w: World, s: Step)
    ensures Run(w, [s]) == Next(w, s)
  {
    assert [s][1..] == [];
    assert Run(w, [s]) == Run(Next(w, s), []);
  }

  /** How a write comes out. One that throws may have been applied all the same. */
  datatype Write = Refused | Acknowledged | Unacknowledged {
    predicate Applied() { !Refused? }
  }

  /** The steps of an upload, by how the put of the object and the insert of the row come out. */
  function UploadTrace(put: Step, me: Call, id: Id, stored: Write, pause: seq<Step>, created: Write): seq<Step> {
    match stored
    case Refused => []
    case Unacknowledged => [put] + ([] + [Crash(me)])
    case Acknowledged => [put] + (pause + [if created.Applied() then Insert(me, id) else Crash(me)])
  }

  /** The steps of a removal that read its row, by how its two deletes come out. It ends early
      where the row is deleted already. */
  ghost function RemovalTrace(w: World, me: Call, p0: seq<Step>, deleted: Write, p1: seq<Step>,
                              cleaned: Write): seq<Step> {
    var rowGone := p0 + [DeleteRow(me)];
    if deleted.Refused? then p0 + [Crash(me)]
    else if me !in Run(w, rowGone).calls then rowGone
    else if deleted.Unacknowledged? then rowGone + ([] + [Crash(me)])
    else rowGone + (p1 + [if cleaned.Applied() then DeleteObject(me) else Crash(me)])
  }

  ghost function RemoveTrace(w: World, me: Call, t: Tenant, id: Id, p0: seq<Step>, deleted: Write, p1: seq<Step>,
                             cleaned: Write): seq<Step> {
    var look := [Look(me, t, id)];
    if me !in Run(w, look).calls then look else look + RemovalTrace(Run(w, look), me, p0, deleted, p1, cleaned)
  }

  lemma RunPause(w: World, pause: seq<Step>, s: Step)
    ensures Run(w, pause + [s]) == Next(Run(w, pause), s)
  {
    RunConcat(w, pause, [s]);
    RunOne(Run(w, pause), s);
  }

  class FilesService {
    var files: map<Id, File>
    var objects: map<Key, Content>
    var calls: map<Call, Phase>
    var h: History

    function View(): World reads this {
      World(files, objects, calls, h)
    }

    constructor ()
      ensures Init(View())
    {
      files, objects, calls, h := map[], map[], map[], History(map[], map[], map[]);
    }

    /** Other calls make progress while this one waits. */
    method Others(steps: seq<Step>)
      modifies this
      ensures View() == Run(old(View()), steps)
    {
      var i := 0;
      while i < |steps|
        invariant 0 <= i <= |steps|
        invariant Run(View(), steps[i..]) == Run(old(View()), steps)
      {
        assert steps[i..][0] == steps[i] && steps[i..][1..] == steps[i+1..];
        var w := Next(View(), steps[i]);
        files, objects, calls, h := w.files, w.objects, w.calls, w.h;
        assert View() == w;
        i := i + 1;
      }
      assert steps[i..] == [];
    }

    /** An error, or a crash: the call is dropped where it stands. */
    method Drop(me: Call)
      requires me in calls
      modifies this
      ensures View() == Next(old(View()), Crash(me)) && me !in calls
    {
      var k := HeldKey(calls[me]);
      if k.Some? { h := h.(owner := h.owner[k.value := Lost]); }
      calls := calls - {me};
    }

    /** The object is put before the row is created; `stored` and `created` say how the two
        writes come out. */
    method Upload(me: Call, tenantId: Tenant, uploadedById: nat, input: Upload, uuid: nat, id: Id, stored: Write,
                  pause: seq<Step>, created: Write)
      returns (r: Result<File, Error>)
      requires Inv(View()) && me !in calls && FreshKey(View(), Key(tenantId, uuid)) && FreshId(View(), id)
      requires Foreign(pause, me, id)
      modifies this
      ensures View() == Run(old(View()),
        UploadTrace(Put(me, tenantId, uploadedById, uuid, input), me, id, stored, pause, created))
      ensures Inv(View()) && me !in calls
      ensures r.Success? <==> stored.Acknowledged? && created.Acknowledged?
      ensures r.Success? ==>
        id in files && files[id] == r.value &&
        r.value == File(tenantId, uploadedById, Key(tenantId, uuid), input.originalname, input.mimetype, input.size)
      ensures r.Success? ==> r.value.key in objects && objects[r.value.key] == input.buffer
      ensures r.Failure? && stored.Refused? ==> View() == old(View())
      ensures r.Failure? && stored.Applied() && !(stored.Acknowledged? && created.Applied()) ==>
        id !in files && LostKey(View(), Key(tenantId, uuid))
      ensures r.Failure? && stored.Acknowledged? && created.Applied() ==>
        && id in files && files[id].key in objects
        && files[id] == File(tenantId, uploadedById, Key(tenantId, uuid), input.originalname, input.mimetype,
                             input.size)
    {
      if stored.Refused? {
        return Failure(Failed);
      }
      ghost var w := View();
      ghost var put := Put(me, tenantId, uploadedById, uuid, input);
      var file := Described(tenantId, uploadedById, uuid, input);
      objects := objects[file.key := input.buffer];
      h := h.(owner := h.owner[file.key := Holder(me)], content := h.content[file.key := input.buffer]);
      calls := calls[me := Stored(file)];
      ghost var w1 := View();
      assert w1 == Next(w, put);
      RunOne(w, put);
      NextKeepsInv(w, put);
      if stored.Unacknowledged? {
        RunThen(w, [put], [], Crash(me));
        NextKeepsInv(w1, Crash(me));
        Drop(me);
        return Failure(Failed);
      }
      Others(pause);
      ForeignKeeps(w1, pause, me, id);
      RunKeepsInv(w1, pause);
      ghost var w2 := View();
      ContentsAndBirthsStay(w1, pause, file.key, id);
      assert CallOk(w2, me) && ObjectOk(w2, file.key);
      RunThen(w, [put], pause, if created.Applied() then Insert(me, id) else Crash(me));
      NextKeepsInv(w2, if created.Applied() then Insert(me, id) else Crash(me));
      if created.Refused? {
        Drop(me);
        return Failure(Failed);
      }
      files := files[id := file];
      calls := calls - {me};
      h := h.(owner := h.owner[file.key := Row(id)], born := h.born[id := file]);
      return if created.Acknowledged? then Success(file) else Failure(Failed);
    }

    /** The row of a file of this tenant. */
    method GetOwned(tenant: Tenant, id: Id) returns (r: Result<File, Error>)
      ensures r.Success? <==> id in files && files[id].tenant == tenant
      ensures r.Success? ==> r.value == files[id]
      ensures r.Failure? ==> r.error == NotFound
    {
      r := if id in files && files[id].tenant == tenant then Success(files[id]) else Failure(NotFound);
    }

    /** `file.delete`, which throws when the row is gone. */
    method DeleteRecord(me: Call, id: Id, tenant: Tenant, key: Key) returns (deleted: bool)
      requires me in calls && calls[me] == Removing(id, tenant, key)
      modifies this
      ensures View() == Next(old(View()), DeleteRow(me))
      ensures deleted == (me in calls) && (deleted ==> calls[me] == RowGone(key))
      ensures id in files ==> files[id].tenant != tenant
    {
      deleted := id in files && files[id].tenant == tenant;
      if deleted {
        files := files - {id};
        calls := calls[me := RowGone(key)];
        h := h.(owner := h.owner[key := Holder(me)]);
      } else {
        calls := calls - {me};
      }
    }

    /** The row is deleted before the object; `deleted` and `cleaned` say how the two deletes
        come out. */
    method Remove(me: Call, tenant: Tenant, id: Id, p0: seq<Step>, deleted: Write, p1: seq<Step>, cleaned: Write)
      returns (r: Result<File, Error>)
      requires Inv(View()) && me !in calls && Foreign(p0, me, id) && Foreign(p1, me, id)
      modifies this
      ensures View() == Run(old(View()),
        RemoveTrace(old(View()), me, tenant, id, p0, deleted, p1, cleaned))
      ensures Inv(View()) && me !in calls
      ensures r == Failure(NotFound) <==> !(id in old(files) && old(files)[id].tenant == tenant)
      ensures r == Failure(NotFound) ==> View() == old(View())
      ensures r.Success? ==> deleted.Acknowledged? && cleaned.Acknowledged? && id !in files && r.value.key !in objects
      ensures r == Failure(Failed) && deleted.Applied() ==>
        && id !in files
        && (if deleted.Acknowledged? && cleaned.Applied() then old(files)[id].key !in objects
            else LostKey(View(), old(files)[id].key))
    {
      ghost var w := View();
      ghost var look := [Look(me, tenant, id)];
      RunOne(w, look[0]);
      NextKeepsInv(w, look[0]);
      var owned := GetOwned(tenant, id);
      if owned.Failure? {
        return Failure(NotFound);
      }
      var file := owned.value;
      calls := calls[me := Removing(id, tenant, file.key)];
      ghost var w1 := View();
      assert FileOk(w, id);
      RunConcat(w, look, RemovalTrace(w1, me, p0, deleted, p1, cleaned));
      r := RemoveFound(me, tenant, id, file, p0, deleted, p1, cleaned);
    }

    /** A removal from the row it has read. */
    method RemoveFound(me: Call, tenant: Tenant, id: Id, file: File, p0: seq<Step>, deleted: Write, p1: seq<Step>,
                       cleaned: Write)
      returns (r: Result<File, Error>)
      requires Inv(View()) && me in calls && calls[me] == Removing(id, tenant, file.key)
      requires Foreign(p0, me, id) && Foreign(p1, me, id)
      modifies this
      ensures View() == Run(old(View()), RemovalTrace(old(View()), me, p0, deleted, p1, cleaned))
      ensures Inv(View()) && me !in calls
      ensures r.Success? ==> deleted.Acknowledged? && cleaned.Acknowledged? && r.value == file
      ensures r.Failure? ==> r.error in {RecordGone, Failed}
      ensures r.Success? || (r == Failure(Failed) && deleted.Applied()) ==>
        && id !in files
        && (if deleted.Acknowledged? && cleaned.Applied() then file.key !in objects else LostKey(View(), file.key))
    {
      ghost var w := View();
      Others(p0);
      ForeignKeeps(w, p0, me, id);
      RunKeepsInv(w, p0);
      ghost var w1 := View();
      assert CallOk(w1, me);
      RunPause(w, p0, if deleted.Applied() then DeleteRow(me) else Crash(me));
      NextKeepsInv(w1, if deleted.Applied() then DeleteRow(me) else Crash(me));
      if deleted.Refused? {
        Drop(me);
        return Failure(Failed);
      }
      var found := DeleteRecord(me, id, tenant, file.key);
      if !found {
        return Failure(RecordGone);
      }
      ghost var rowGone := p0 + [DeleteRow(me)];
      if deleted.Unacknowledged? {
        RunThen(w, rowGone, [], Crash(me));
        NextKeepsInv(View(), Crash(me));
        Drop(me);
        return Failure(Failed);
      }
      r := DeleteFrom(me, id, file, p1, cleaned);
      RunThen(w, rowGone, p1, if cleaned.Applied() then DeleteObject(me) else Crash(me));
    }

    /** The second half of `remove`. */
    method DeleteFrom(me: Call, id: Id, file: File, p1: seq<Step>, cleaned: Write) returns (r: Result<File, Error>)
      requires Inv(View()) && me in calls && calls[me] == RowGone(file.key) && Foreign(p1, me, id)
      requires id in h.born && id !in files
      modifies this
      ensures View() == Next(Run(old(View()), p1), if cleaned.Applied() then DeleteObject(me) else Crash(me))
      ensures Inv(View()) && me !in calls && id !in files
      ensures r == if cleaned.Acknowledged? then Success(file) else Failure(Failed)
      ensures if cleaned.Applied() then file.key !in objects else LostKey(View(), file.key)
    {
      ghost var w := View();
      Others(p1);
      ForeignKeeps(w, p1, me, id);
      RunKeepsInv(w, p1);
      RemovedStays(w, p1, id);
      NextKeepsInv(View(), if cleaned.Applied() then DeleteObject(me) else Crash(me));
      if cleaned.Refused? {
        Drop(me);
        return Failure(Failed);
      }
      objects := objects - {file.key};
      calls := calls - {me};
      h := h.(owner := h.owner[file.key := Deleted]);
      return if cleaned.Acknowledged? then Success(file) else Failure(Failed);
    }
  }

  // ---------------------------------------------------------------- a removal left alone

  lemma RemovalUndisturbed(w: World, me: Call, id: Id, t: Tenant, deleted: Write, cleaned: Write)
    requires me in w.calls && id in w.files && w.files[id].tenant == t
    requires w.calls[me] == Removing(id, t, w.files[id].key)
    ensures var end := Run(w, RemovalTrace(w, me, [], deleted, [], cleaned));
            && end.files == (if deleted.Refused? then w.files else w.files - {id})
            && end.objects == if deleted.Acknowledged? && !cleaned.Refused? then w.objects - {w.files[id].key}
                              else w.objects
  {
    RunPause(w, [], if deleted.Refused? then Crash(me) else DeleteRow(me));
    if !deleted.Refused? {
      var rowGone := [] + [DeleteRow(me)];
      var w1 := Next(w, DeleteRow(me));
      assert w1 == TryDeleteRow(w, me);
      var last := if deleted.Unacknowledged? || cleaned.Refused? then Crash(me) else DeleteObject(me);
      RunThen(w, rowGone, [], last);
      assert Run(w1, []) == w1;
    }
  }

  /** A removal left alone: of another tenant's file or of none it changes nothing; else the row
      goes unless its delete is refused, and then the object unless the call ended or its own
      delete is refused. */
  lemma RemoveUndisturbed(w: World, me: Call, t: Tenant, id: Id, deleted: Write, cleaned: Write)
    requires me !in w.calls
    ensures var end := Run(w, RemoveTrace(w, me, t, id, [], deleted, [], cleaned));
            if id in w.files && w.files[id].tenant == t
            then end.files == (if deleted.Refused? then w.files else w.files - {id})
                 && end.objects == if deleted.Acknowledged? && !cleaned.Refused? then w.objects - {w.files[id].key}
                                   else w.objects
            else end.files == w.files && end.objects == w.objects
  {
    var look := [Look(me, t, id)];
    RunOne(w, look[0]);
    var w1 := Next(w, look[0]);
    if me in w1.calls {
      RunConcat(w, look, RemovalTrace(w1, me, [], deleted, [], cleaned));
      RemovalUndisturbed(w1, me, id, t, deleted, cleaned);
    }
  }
}
