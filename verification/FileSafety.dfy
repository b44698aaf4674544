/** What the order of the two stores guarantees, over every interleaving and crash. */
module FileSafety {
  import opened FileProtocol
  import opened Wrappers

  lemma ReachedInv(w: World, steps: seq<Step>)
    requires Init(w)
    ensures Inv(Run(w, steps))
  {
    InitInv(w);
    RunKeepsInv(w, steps);
  }

  predicate Referenced(w: World, k: Key) {
    exists id :: id in w.files && w.files[id].key == k
  }

  /** A call in flight has the key: its upload has no row yet, or its removal still has to delete the object. */
  predicate HeldBy(w: World, k: Key, c: Call) {
    c in w.calls && HeldKey(w.calls[c]) == Some(k)
  }

  ghost predicate Held(w: World, k: Key) {
    exists c: Call :: HeldBy(w, k, c)
  }

  predicate LostKey(w: World, k: Key) {
    k in w.h.owner && w.h.owner[k] == Lost
  }

  /** At every point each row's object is there, in its tenant's part of the bucket, and no other row has it. */
  lemma NoDanglingRow(w: World, steps: seq<Step>, id: Id, other: Id)
    requires Init(w)
    ensures var n := Run(w, steps);
            id in n.files ==> n.files[id].key in n.objects && n.files[id].key.tenant == n.files[id].tenant
    ensures var n := Run(w, steps);
            id in n.files && other in n.files && n.files[id].key == n.files[other].key ==> id == other
  {
    ReachedInv(w, steps);
    var n := Run(w, steps);
    assert FileOk(n, id) && FileOk(n, other);
    if id in n.files { assert ObjectOk(n, n.files[id].key); }
  }

  lemma OwnersAreExact(w: World, k: Key)
    requires Inv(w)
    ensures Referenced(w, k) <==> k in w.h.owner && w.h.owner[k].Row?
    ensures Held(w, k) <==> k in w.h.owner && w.h.owner[k].Holder?
  {
    assert ObjectOk(w, k);
    if k in w.h.owner && w.h.owner[k].Holder? { assert HeldBy(w, k, w.h.owner[k].call); }
    if Held(w, k) { var c: Call :| HeldBy(w, k, c); assert CallOk(w, c); }
    if Referenced(w, k) { var id :| id in w.files && w.files[id].key == k; assert FileOk(w, id); }
  }

  /** Every object is accounted for exactly once: by a row, by a call in flight, or by a call that
      was dropped while it held the object. */
  lemma ObjectsAreAccountedFor(w: World, steps: seq<Step>, k: Key)
    requires Init(w)
    ensures var n := Run(w, steps); k in n.objects <==> Referenced(n, k) || Held(n, k) || LostKey(n, k)
    ensures var n := Run(w, steps);
            !(Referenced(n, k) && Held(n, k)) && !(Referenced(n, k) && LostKey(n, k)) && !(Held(n, k) && LostKey(n, k))
  {
    ReachedInv(w, steps);
    OwnersAreExact(Run(w, steps), k);
    assert ObjectOk(Run(w, steps), k);
  }

  /** No two calls hold one object. */
  lemma HoldersAreUnique(w: World, steps: seq<Step>, k: Key, c: Call, d: Call)
    requires Init(w) && HeldBy(Run(w, steps), k, c) && HeldBy(Run(w, steps), k, d)
    ensures c == d
  {
    ReachedInv(w, steps);
    assert CallOk(Run(w, steps), c) && CallOk(Run(w, steps), d);
  }

  // ---------------------------------------------------------------- left-over objects

  predicate Crashes(steps: seq<Step>) {
    exists i :: 0 <= i < |steps| && steps[i].Crash?
  }

  lemma {:induction false} LostByCrash(w: World, steps: seq<Step>, k: Key)
    requires !Crashes(steps) && !LostKey(w, k)
    ensures !LostKey(Run(w, steps), k)
    decreases |steps|
  {
    if steps != [] {
      assert !steps[0].Crash?;
      assert forall i :: 0 <= i < |steps[1..]| ==> steps[1..][i] == steps[i+1];
      LostByCrash(Next(w, steps[0]), steps[1..], k);
    }
  }

  /** Without crashes, when nothing is in flight, the objects are exactly those of the rows. */
  lemma NothingLeftOver(w: World, steps: seq<Step>)
    requires Init(w) && !Crashes(steps) && Run(w, steps).calls == map[]
    ensures var n := Run(w, steps); n.objects.Keys == set id | id in n.files :: n.files[id].key
  {
    var n := Run(w, steps);
    forall k: Key ensures k in n.objects <==> k in (set id | id in n.files :: n.files[id].key) {
      LostByCrash(w, steps, k);
      ObjectsAreAccountedFor(w, steps, k);
      assert !Held(n, k);
    }
  }

  lemma LostStepStays(w: World, s: Step, k: Key)
    requires Inv(w) && LostKey(w, k)
    ensures LostKey(Next(w, s), k)
  {
    assert ObjectOk(w, k);
    if s.call in w.calls {
      assert CallOk(w, s.call);
      if w.calls[s.call].Removing? { assert FileOk(w, w.calls[s.call].id); }
    }
  }

  /** A left-over object stays, and never comes to belong to a row. */
  lemma {:induction false} LostStays(w: World, steps: seq<Step>, k: Key)
    requires Inv(w) && LostKey(w, k)
    ensures LostKey(Run(w, steps), k) && k in Run(w, steps).objects && !Referenced(Run(w, steps), k)
    decreases |steps|
  {
    if steps == [] {
      assert ObjectOk(w, k);
      OwnersAreExact(w, k);
    } else {
      LostStepStays(w, steps[0], k);
      NextKeepsInv(w, steps[0]);
      LostStays(Next(w, steps[0]), steps[1..], k);
    }
  }

  // ---------------------------------------------------------------- contents and downloads

  lemma ContentStays(w: World, s: Step, k: Key)
    requires k in w.h.content && k in w.h.owner
    ensures k in Next(w, s).h.content && k in Next(w, s).h.owner && Next(w, s).h.content[k] == w.h.content[k]
  {}

  lemma BirthStays(w: World, s: Step, id: Id)
    requires id in w.h.born
    ensures id in Next(w, s).h.born && Next(w, s).h.born[id] == w.h.born[id]
  {}

  lemma {:induction false} ContentsAndBirthsStay(w: World, steps: seq<Step>, k: Key, id: Id)
    ensures k in w.h.content && k in w.h.owner ==>
            k in Run(w, steps).h.content && k in Run(w, steps).h.owner && Run(w, steps).h.content[k] == w.h.content[k]
    ensures id in w.h.born ==> id in Run(w, steps).h.born && Run(w, steps).h.born[id] == w.h.born[id]
    decreases |steps|
  {
    if steps != [] {
      if k in w.h.content && k in w.h.owner { ContentStays(w, steps[0], k); }
      if id in w.h.born { BirthStays(w, steps[0], id); }
      ContentsAndBirthsStay(Next(w, steps[0]), steps[1..], k, id);
    }
  }

  /** An object is never overwritten. */
  lemma ObjectsNeverChange(w: World, steps: seq<Step>, k: Key)
    requires Inv(w) && k in w.objects && k in Run(w, steps).objects
    ensures Run(w, steps).objects[k] == w.objects[k]
  {
    RunKeepsInv(w, steps);
    assert ObjectOk(w, k) && ObjectOk(Run(w, steps), k);
    ContentsAndBirthsStay(w, steps, k, 0);
  }

  lemma {:induction false} RemovedStays(w: World, steps: seq<Step>, id: Id)
    requires Inv(w) && id in w.h.born && id !in w.files
    ensures id !in Run(w, steps).files
    decreases |steps|
  {
    if steps != [] {
      NextKeepsInv(w, steps[0]);
      RemovedStays(Next(w, steps[0]), steps[1..], id);
    }
  }

  /** A download that read a row and then finds no object was overtaken by a removal: the row is
      gone for good, so answering that the file does not exist is the truth. */
  lemma MissingContentMeansRemoved(w: World, pause: seq<Step>, later: seq<Step>, id: Id)
    requires Inv(w) && id in w.files && w.files[id].key !in Run(w, pause).objects
    ensures id !in Run(w, pause).files && id !in Run(Run(w, pause), later).files
  {
    var n := Run(w, pause);
    assert FileOk(w, id);
    RunKeepsInv(w, pause);
    ContentsAndBirthsStay(w, pause, w.files[id].key, id);
    assert FileOk(n, id);
    assert ObjectOk(n, w.files[id].key);
    RemovedStays(n, later, id);
  }
}
