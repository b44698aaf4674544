/** Overlapping logins to one account. The lock check, the increment and the write of the lock
    are separate steps, so logins that passed the check go on while a lock is being set. */
module LockoutOverlap {
  import opened Arithmetic
  import opened Lockout
  import opened Wrappers

  type Call = nat

  /** A login between two of its awaits: its password is being looked at and is wrong, or its
      increment reached the threshold and the lock is not written yet. */
  datatype Phase = Checking | Locking

  datatype World = World(account: Account, calls: map<Call, Phase>)

  datatype Step =
    | Admit(call: Call, at: int)    // the lock check
    | Count(call: Call, at: int)    // the atomic increment
    | SetLock(call: Call, at: int)
    | Drop(call: Call, at: int)     // a crash or an error
    | Clear(at: int)                // a successful login wipes counter and lock

  function Next(c: Config, w: World, s: Step): World {
    match s
    case Admit(l, at) => if l in w.calls || InForce(w.account, at) then w else w.(calls := w.calls[l := Checking])
    case Count(l, at) =>
      if l in w.calls && w.calls[l].Checking? then
        var n := w.account.failedLoginAttempts + 1;
        World(w.account.(failedLoginAttempts := n), if n >= c.max then w.calls[l := Locking] else w.calls - {l})
      else w
    case SetLock(l, at) =>
      if l in w.calls && w.calls[l].Locking? then World(Account(0, Some(at + c.LockMs())), w.calls - {l}) else w
    case Drop(l, _) => w.(calls := w.calls - {l})
    case Clear(_) => w.(account := Account(0, None))
  }

  function Run(c: Config, w: World, steps: seq<Step>): World
    decreases |steps|
  {
    if steps == [] then w else Run(c, Next(c, w, steps[0]), steps[1..])
  }

  /** The clock does not run backwards. */
  predicate Timed(steps: seq<Step>, from: int)
    decreases |steps|
  {
    steps == [] || (from <= steps[0].at && Timed(steps[1..], steps[0].at))
  }

  /** No login succeeds. */
  predicate Fruitless(steps: seq<Step>) {
    forall i :: 0 <= i < |steps| ==> !steps[i].Clear?
  }

  /** Never more than `k` logins are between their check and their last write. */
  predicate Crowd(c: Config, w: World, steps: seq<Step>, k: nat)
    decreases |steps|
  {
    |w.calls| <= k && (steps != [] ==> Crowd(c, Next(c, w, steps[0]), steps[1..], k))
  }

  predicate Within(s: Step, lo: int, hi: int) {
    lo <= s.at <= hi
  }

  predicate Admits(w: World, s: Step) {
    s.Admit? && s.call !in w.calls && !InForce(w.account, s.at)
  }

  predicate Drops(w: World, s: Step) {
    s.Drop? && s.call in w.calls
  }

  /** How many wrong passwords get past the lock check from time `lo` up to time `hi`. */
  function Admitted(c: Config, w: World, steps: seq<Step>, lo: int, hi: int): nat
    decreases |steps|
  {
    if steps == [] then 0
    else (if Admits(w, steps[0]) && Within(steps[0], lo, hi) then 1 else 0)
         + Admitted(c, Next(c, w, steps[0]), steps[1..], lo, hi)
  }

  /** How many logins are dropped in that time, which leaves their passwords uncounted. */
  function Dropped(c: Config, w: World, steps: seq<Step>, lo: int, hi: int): nat
    decreases |steps|
  {
    if steps == [] then 0
    else (if Drops(w, steps[0]) && Within(steps[0], lo, hi) then 1 else 0)
         + Dropped(c, Next(c, w, steps[0]), steps[1..], lo, hi)
  }

  /** One login that does not overlap with another is the run of its steps. */
  lemma SerialIsRun(c: Config, a: Account, t: Attempt)
    requires Verdict(a, t) in {Locked, WrongPassword}
    ensures Run(c, World(a, map[]), [Admit(0, t.checkedAt), Count(0, t.storedAt), SetLock(0, t.storedAt)]) ==
            World(After(c, a, t), map[])
  {
    var s := [Admit(0, t.checkedAt), Count(0, t.storedAt), SetLock(0, t.storedAt)];
    var w0 := World(a, map[]);
    var w1 := Next(c, w0, s[0]);
    var w2 := Next(c, w1, s[1]);
    var w3 := Next(c, w2, s[2]);
    assert s[1..][1..] == s[2..] && s[2..][1..] == [];
    assert Run(c, w2, s[2..]) == Run(c, w3, []) == w3;
    assert Run(c, w1, s[1..]) == Run(c, w2, s[2..]);
    assert w3.calls == map[];
  }

  /** A successful one ends in the clearing. */
  lemma SuccessIsClear(c: Config, a: Account, t: Attempt)
    requires Verdict(a, t) == Accepted
    ensures Next(c, World(a, map[]), Clear(t.storedAt)) == World(After(c, a, t), map[])
  {}

  // ---------------------------------------------------------------- the budget

  function Min(x: int, y: int): int {
    if x < y then x else y
  }

  /** What one stretch without a lock admits: failures below the threshold leave one by one,
      and up to `k` logins are in flight when the lock is written. */
  function PerStretch(c: Config, k: nat): nat
    requires c.Ok()
  {
    c.max - 1 + k
  }

  /** When the check can next be passed, at the earliest. A lock that is written meanwhile
      lasts at least as long. */
  function Reopens(c: Config, a: Account, at: int): int {
    if InForce(a, at) then Min(a.lockedUntil.value, at + c.LockMs()) else at
  }

  function Stretches(c: Config, from: int, hi: int): nat
    requires c.Ok()
  {
    if hi < from then 0 else Fits(hi - from, c.LockMs()) + 1
  }

  /** What the current stretch has used up. */
  function Used(c: Config, w: World): int
    requires c.Ok()
  {
    |w.calls| + Min(w.account.failedLoginAttempts, c.max - 1)
  }

  /** How many more logins can pass the check before `hi`. */
  function Budget(c: Config, w: World, at: int, hi: int, k: nat): int
    requires c.Ok()
  {
    var all := PerStretch(c, k) * Stretches(c, Reopens(c, w.account, at), hi);
    if InForce(w.account, at) || hi < at then all else all - Used(c, w)
  }

  lemma StretchesShrink(c: Config, from: int, later: int, hi: int, m: nat)
    requires c.Ok() && from <= later
    ensures m * Stretches(c, later, hi) <= m * Stretches(c, from, hi)
    ensures later <= hi ==> m <= m * Stretches(c, later, hi)
  {
    FitsMonotone(hi - later, hi - from, c.LockMs());
    MulMonotone(Stretches(c, later, hi), Stretches(c, from, hi), m);
    if later <= hi { MulMonotone(1, Stretches(c, later, hi), m); }
  }

  /** A lock costs one stretch. */
  lemma StretchAfterLock(c: Config, at: int, hi: int, m: nat)
    requires c.Ok() && at <= hi
    ensures m * Stretches(c, at + c.LockMs(), hi) == m * Stretches(c, at, hi) - m
  {
    var n := Stretches(c, at + c.LockMs(), hi);
    assert Stretches(c, at, hi) == n + 1;
    MulStep(m, n);
  }

  lemma TimePasses(c: Config, w: World, at: int, later: int, hi: int, k: nat)
    requires c.Ok() && at <= later && |w.calls| <= k
    ensures 0 <= Budget(c, w, later, hi, k) <= Budget(c, w, at, hi, k)
  {
    var m := PerStretch(c, k);
    var o, o' := Reopens(c, w.account, at), Reopens(c, w.account, later);
    StretchesShrink(c, o, o', hi, m);
    StretchesShrink(c, o', o', hi, m);
    MulMonotone(0, Stretches(c, o', hi), m);
    StretchesShrink(c, o, o, hi, m);
  }

  lemma Leaves<K, V>(calls: map<K, V>, l: K)
    requires l in calls
    ensures |calls - {l}| == |calls| - 1
  {
    assert (calls - {l}).Keys == calls.Keys - {l};
    assert |calls| == |calls.Keys| && |calls - {l}| == |(calls - {l}).Keys|;
  }

  lemma Joins<K, V>(calls: map<K, V>, l: K, v: V)
    ensures |calls[l := v]| == if l in calls then |calls| else |calls| + 1
  {
    assert calls[l := v].Keys == calls.Keys + {l};
    assert |calls| == |calls.Keys| && |calls[l := v]| == |calls[l := v].Keys|;
  }

  /** The budget after the step, with what the step admits. */
  ghost predicate Affordable(c: Config, w: World, s: Step, hi: int, k: nat)
    requires c.Ok()
  {
    Budget(c, Next(c, w, s), s.at, hi, k) + (if Admits(w, s) && s.at <= hi then 1 else 0)
    <= Budget(c, w, s.at, hi, k) + (if Drops(w, s) && s.at <= hi then 1 else 0)
  }

  lemma SetLockSpends(c: Config, w: World, l: Call, at: int, hi: int, k: nat)
    requires c.Ok() && |w.calls| <= k && l in w.calls && w.calls[l].Locking?
    ensures Affordable(c, w, SetLock(l, at), hi, k)
  {
    var m := PerStretch(c, k);
    var w' := Next(c, w, SetLock(l, at));
    assert Reopens(c, w'.account, at) == at + c.LockMs();
    if InForce(w.account, at) || hi < at {
      StretchesShrink(c, Reopens(c, w.account, at), at + c.LockMs(), hi, m);
    } else {
      StretchAfterLock(c, at, hi, m);
    }
  }

  lemma StepSpends(c: Config, w: World, s: Step, hi: int, k: nat)
    requires c.Ok() && !s.Clear? && |w.calls| <= k
    ensures Affordable(c, w, s, hi, k)
  {
    match s
    case Admit(l, at) => Joins(w.calls, l, Checking);
    case Count(l, at) => if l in w.calls { Leaves(w.calls, l); Joins(w.calls, l, Locking); }
    case SetLock(l, at) => if l in w.calls && w.calls[l].Locking? { SetLockSpends(c, w, l, at, hi, k); }
    case Drop(l, at) => if l in w.calls { Leaves(w.calls, l); } else { assert w.calls - {l} == w.calls; }
  }

  lemma {:induction false} AdmittedWithinBudget(c: Config, w: World, steps: seq<Step>, from: int, lo: int, hi: int,
      k: nat)
    requires c.Ok() && Timed(steps, from) && Fruitless(steps) && Crowd(c, w, steps, k) && lo <= from
    ensures Admitted(c, w, steps, lo, hi) <= Budget(c, w, from, hi, k) + Dropped(c, w, steps, lo, hi)
    decreases |steps|
  {
    if steps == [] {
      TimePasses(c, w, from, from, hi, k);
    } else {
      var s := steps[0];
      AdmittedWithinBudget(c, Next(c, w, s), steps[1..], s.at, lo, hi, k);
      StepSpends(c, w, s, hi, k);
      TimePasses(c, w, from, s.at, hi, k);
    }
  }

  lemma {:induction false} AdmittedInWindow(c: Config, w: World, steps: seq<Step>, from: int, lo: int, hi: int, k: nat)
    requires c.Ok() && lo <= hi && Timed(steps, from) && Fruitless(steps) && Crowd(c, w, steps, k)
    ensures Admitted(c, w, steps, lo, hi) <= PerStretch(c, k) * Stretches(c, lo, hi) + Dropped(c, w, steps, lo, hi)
    decreases |steps|
  {
    var m := PerStretch(c, k);
    MulMonotone(0, Stretches(c, lo, hi), m);
    if steps != [] {
      if steps[0].at < lo {
        AdmittedInWindow(c, Next(c, w, steps[0]), steps[1..], steps[0].at, lo, hi, k);
      } else {
        AdmittedWithinBudget(c, w, steps, lo, lo, hi, k);
        StretchesShrink(c, lo, Reopens(c, w.account, lo), hi, m);
      }
    }
  }

  /** The rate bound with overlap: if never more than `k` logins are between their check and
      their last write, at most (max - 1 + k) * (floor(D / L) + 1) wrong passwords get past the
      check in any window of length D without a successful login, plus the logins dropped in it.
      Without overlap, at k = 1, that is the bound of the serial runs. */
  lemma OverlapBound(c: Config, w: World, steps: seq<Step>, from: int, lo: int, hi: int, k: nat)
    requires c.Ok() && lo <= hi && Timed(steps, from) && Fruitless(steps) && Crowd(c, w, steps, k)
    ensures Admitted(c, w, steps, lo, hi) <=
            (c.max - 1 + k) * ((hi - lo) / c.LockMs() + 1) + Dropped(c, w, steps, lo, hi)
  {
    AdmittedInWindow(c, w, steps, from, lo, hi, k);
    FitsIsDiv(hi - lo, c.LockMs());
  }

  // ---------------------------------------------------------------- tightness

  /** Steps at one instant that lead from one world to another and admit `n` logins. */
  ghost predicate Segment(c: Config, w: World, steps: seq<Step>, at: int, k: nat, n: nat, w': World) {
    && (forall i :: 0 <= i < |steps| ==> steps[i].at == at && !steps[i].Clear? && !steps[i].Drop?)
    && Crowd(c, w, steps, k) && Run(c, w, steps) == w' && Admitted(c, w, steps, at, at) == n
  }

  lemma SegmentCons(c: Config, w: World, s: Step, rest: seq<Step>, k: nat, n: nat, w1: World, w2: World)
    requires !s.Clear? && !s.Drop? && |w.calls| <= k && Next(c, w, s) == w1 && Segment(c, w1, rest, s.at, k, n, w2)
    ensures Segment(c, w, [s] + rest, s.at, k, n + if Admits(w, s) then 1 else 0, w2)
  {
    assert ([s] + rest)[0] == s && ([s] + rest)[1..] == rest;
  }

  lemma SegmentHead(c: Config, w: World, a: seq<Step>, at: int, k: nat, m: nat, w1: World)
    requires Segment(c, w, a, at, k, m, w1) && a != []
    ensures a[0].at == at && !a[0].Clear? && !a[0].Drop? && |w.calls| <= k
    ensures var one := if Admits(w, a[0]) then 1 else 0;
            one <= m && Segment(c, Next(c, w, a[0]), a[1..], at, k, m - one, w1)
  {}

  lemma {:induction false} SegmentAppend(c: Config, w: World, a: seq<Step>, b: seq<Step>, at: int, k: nat,
                                         m: nat, n: nat, w1: World, w2: World)
    requires Segment(c, w, a, at, k, m, w1) && Segment(c, w1, b, at, k, n, w2)
    ensures Segment(c, w, a + b, at, k, m + n, w2)
    decreases |a|
  {
    if a == [] {
      assert a + b == b;
    } else {
      var w' := Next(c, w, a[0]);
      var one := if Admits(w, a[0]) then 1 else 0;
      SegmentHead(c, w, a, at, k, m, w1);
      SegmentAppend(c, w', a[1..], b, at, k, m - one, n, w1, w2);
      SegmentCons(c, w, a[0], a[1..] + b, k, m - one + n, w', w2);
      assert a + b == [a[0]] + (a[1..] + b);
    }
  }

  lemma OneStep(c: Config, w: World, s: Step, k: nat)
    requires !s.Clear? && !s.Drop? && |w.calls| <= k && |Next(c, w, s).calls| <= k
    ensures Segment(c, w, [s], s.at, k, if Admits(w, s) then 1 else 0, Next(c, w, s))
  {
    var w' := Next(c, w, s);
    assert [s][1..] == [] && Run(c, w', []) == w' && Admitted(c, w', [], s.at, s.at) == 0;
    assert Crowd(c, w', [], k);
  }

  /** Failures one by one, below the threshold. */
  lemma {:induction false} OneByOne(c: Config, a: Account, n: nat, at: int, k: nat) returns (steps: seq<Step>)
    requires c.Ok() && k >= 1 && !InForce(a, at) && a.failedLoginAttempts + n < c.max
    ensures Segment(c, World(a, map[]), steps, at, k, n,
                    World(a.(failedLoginAttempts := a.failedLoginAttempts + n), map[]))
    decreases n
  {
    var w := World(a, map[]);
    if n == 0 {
      steps := [];
    } else {
      var w1, a2 := World(a, map[0 := Checking]), a.(failedLoginAttempts := a.failedLoginAttempts + 1);
      OneStep(c, w, Admit(0, at), k);
      assert Next(c, w, Admit(0, at)) == w1;
      assert Next(c, w1, Count(0, at)) == World(a2, map[]);
      OneStep(c, w1, Count(0, at), k);
      SegmentAppend(c, w, [Admit(0, at)], [Count(0, at)], at, k, 1, 0, w1, World(a2, map[]));
      var rest := OneByOne(c, a2, n - 1, at, k);
      SegmentAppend(c, w, [Admit(0, at)] + [Count(0, at)], rest, at, k, 1, n - 1, World(a2, map[]),
                    World(a2.(failedLoginAttempts := a2.failedLoginAttempts + (n - 1)), map[]));
      steps := [Admit(0, at)] + [Count(0, at)] + rest;
    }
  }

  /** Logins `from` up to `last` are in flight, those below `locking` about to write the lock. */
  ghost predicate IsCrew(calls: map<Call, Phase>, from: nat, locking: nat, last: nat) {
    && |calls| == last - from
    && forall l: Call {:trigger l in calls} ::
         (l in calls <==> from <= l < last) && (l in calls ==> calls[l] == if l < locking then Locking else Checking)
  }

  lemma OneMoreAdmitted(c: Config, w: World, i: nat, at: int)
    requires IsCrew(w.calls, 0, 0, i) && !InForce(w.account, at)
    ensures Admits(w, Admit(i, at))
    ensures var w' := Next(c, w, Admit(i, at)); w'.account == w.account && IsCrew(w'.calls, 0, 0, i + 1)
  {
    Joins(w.calls, i, Checking);
  }

  lemma OneMoreCounted(c: Config, w: World, i: nat, k: nat, at: int)
    requires i < k && IsCrew(w.calls, 0, i, k) && w.account.failedLoginAttempts + 1 >= c.max
    ensures var w' := Next(c, w, Count(i, at));
            IsCrew(w'.calls, 0, i + 1, k) && w'.account.failedLoginAttempts == w.account.failedLoginAttempts + 1
  {
    Joins(w.calls, i, Locking);
  }

  lemma OneMoreLocked(c: Config, w: World, i: nat, k: nat, at: int)
    requires i < k && IsCrew(w.calls, i, k, k)
    ensures var w' := Next(c, w, SetLock(i, at));
            IsCrew(w'.calls, i + 1, k, k) && w'.account == Account(0, Some(at + c.LockMs()))
  {
    Leaves(w.calls, i);
  }

  lemma {:induction false} AllAdmitted(c: Config, w: World, i: nat, at: int, k: nat)
      returns (steps: seq<Step>, w': World)
    requires !InForce(w.account, at) && i <= k && IsCrew(w.calls, 0, 0, i)
    ensures Segment(c, w, steps, at, k, k - i, w') && w'.account == w.account && IsCrew(w'.calls, 0, 0, k)
    decreases k - i
  {
    if i == k {
      steps, w' := [], w;
    } else {
      var w1 := Next(c, w, Admit(i, at));
      OneMoreAdmitted(c, w, i, at);
      var rest;
      rest, w' := AllAdmitted(c, w1, i + 1, at, k);
      SegmentCons(c, w, Admit(i, at), rest, k, k - (i + 1), w1, w');
      steps := [Admit(i, at)] + rest;
    }
  }

  lemma {:induction false} AllCounted(c: Config, w: World, i: nat, at: int, k: nat)
      returns (steps: seq<Step>, w': World)
    requires w.account.failedLoginAttempts + 1 >= c.max && i <= k && IsCrew(w.calls, 0, i, k)
    ensures Segment(c, w, steps, at, k, 0, w') && IsCrew(w'.calls, 0, k, k)
    decreases k - i
  {
    if i == k {
      steps, w' := [], w;
    } else {
      var w1 := Next(c, w, Count(i, at));
      OneMoreCounted(c, w, i, k, at);
      var rest;
      rest, w' := AllCounted(c, w1, i + 1, at, k);
      SegmentCons(c, w, Count(i, at), rest, k, 0, w1, w');
      steps := [Count(i, at)] + rest;
    }
  }

  lemma {:induction false} AllLocked(c: Config, w: World, i: nat, at: int, k: nat) returns (steps: seq<Step>)
    requires i <= k && IsCrew(w.calls, i, k, k) && (i == k ==> w.account == Account(0, Some(at + c.LockMs())))
    ensures Segment(c, w, steps, at, k, 0, World(Account(0, Some(at + c.LockMs())), map[]))
    decreases k - i
  {
    var end := World(Account(0, Some(at + c.LockMs())), map[]);
    if i == k {
      assert w.calls == map[];
      assert w == end;
      steps := [];
    } else {
      var w1 := Next(c, w, SetLock(i, at));
      OneMoreLocked(c, w, i, k, at);
      var rest := AllLocked(c, w1, i + 1, at, k);
      SegmentCons(c, w, SetLock(i, at), rest, k, 0, w1, end);
      steps := [SetLock(i, at)] + rest;
    }
  }

  /** One full stretch: all but one of the failures the threshold takes, then `k` logins that
      overlap. */
  lemma FullStretch(c: Config, a: Account, at: int, k: nat) returns (steps: seq<Step>)
    requires c.Ok() && k >= 1 && a.failedLoginAttempts == 0 && !InForce(a, at)
    ensures Segment(c, World(a, map[]), steps, at, k, c.max - 1 + k, World(Account(0, Some(at + c.LockMs())), map[]))
  {
    var w, w1 := World(a, map[]), World(a.(failedLoginAttempts := c.max - 1), map[]);
    var end := World(Account(0, Some(at + c.LockMs())), map[]);
    var s1 := OneByOne(c, a, c.max - 1, at, k);
    var s2, w2 := AllAdmitted(c, w1, 0, at, k);
    SegmentAppend(c, w, s1, s2, at, k, c.max - 1, k, w1, w2);
    var s3, w3 := AllCounted(c, w2, 0, at, k);
    SegmentAppend(c, w, s1 + s2, s3, at, k, c.max - 1 + k, 0, w2, w3);
    var s4 := AllLocked(c, w3, 0, at, k);
    SegmentAppend(c, w, s1 + s2 + s3, s4, at, k, c.max - 1 + k, 0, w3, end);
    steps := s1 + s2 + s3 + s4;
  }

  /** A step in front of a run, at an instant inside a window. */
  lemma StepThen(c: Config, w: World, s: Step, b: seq<Step>, k: nat, lo: int, hi: int)
    requires !s.Clear? && !s.Drop? && |w.calls| <= k && Within(s, lo, hi)
    requires Timed(b, s.at) && Fruitless(b) && Crowd(c, Next(c, w, s), b, k)
    ensures Timed([s] + b, s.at) && Fruitless([s] + b) && Crowd(c, w, [s] + b, k)
    ensures Admitted(c, w, [s] + b, lo, hi) == (if Admits(w, s) then 1 else 0) + Admitted(c, Next(c, w, s), b, lo, hi)
    ensures Dropped(c, w, [s] + b, lo, hi) == Dropped(c, Next(c, w, s), b, lo, hi)
  {
    assert ([s] + b)[0] == s && ([s] + b)[1..] == b;
  }

  /** A segment in front of a run, inside a window that holds both. */
  lemma {:induction false} SegmentThen(c: Config, w: World, a: seq<Step>, b: seq<Step>, at: int, k: nat, n: nat,
                                       w1: World, lo: int, hi: int)
    requires Segment(c, w, a, at, k, n, w1) && Timed(b, at) && Fruitless(b) && Crowd(c, w1, b, k) && lo <= at <= hi
    ensures Timed(a + b, at) && Fruitless(a + b) && Crowd(c, w, a + b, k)
    ensures Admitted(c, w, a + b, lo, hi) == n + Admitted(c, w1, b, lo, hi)
    ensures Dropped(c, w, a + b, lo, hi) == Dropped(c, w1, b, lo, hi)
    decreases |a|
  {
    if a == [] {
      assert a + b == b;
    } else {
      var w' := Next(c, w, a[0]);
      var one := if Admits(w, a[0]) then 1 else 0;
      assert Segment(c, w', a[1..], at, k, n - one, w1);
      SegmentThen(c, w', a[1..], b, at, k, n - one, w1, lo, hi);
      StepThen(c, w, a[0], a[1..] + b, k, lo, hi);
      assert a + b == [a[0]] + (a[1..] + b);
    }
  }

  lemma TimedLater(steps: seq<Step>, from: int, earlier: int)
    requires Timed(steps, from) && earlier <= from
    ensures Timed(steps, earlier)
  {}

  /** The bound with overlap is attained, for every number of overlapping logins. */
  lemma {:induction false} OverlapBoundIsTight(c: Config, a: Account, at: int, q: nat, k: nat, lo: int)
    returns (steps: seq<Step>)
    requires c.Ok() && k >= 1 && a.failedLoginAttempts == 0 && !InForce(a, at) && lo <= at
    ensures var w, hi := World(a, map[]), at + q * c.LockMs();
            && Timed(steps, at) && Fruitless(steps) && Crowd(c, w, steps, k)
            && Admitted(c, w, steps, lo, hi) == (c.max - 1 + k) * (q + 1) && Dropped(c, w, steps, lo, hi) == 0
    decreases q
  {
    var l, m := c.LockMs(), c.max - 1 + k;
    var w, locked := World(a, map[]), Account(0, Some(at + l));
    var first := FullStretch(c, a, at, k);
    var rest: seq<Step> := [];
    var hi := at + q * l;
    MulMonotone(0, q, l);
    MulStep(m, q);
    if q > 0 {
      rest := OverlapBoundIsTight(c, locked, at + l, q - 1, k, lo);
      MulStep(l, q - 1);
      assert at + l + (q - 1) * l == hi;
      TimedLater(rest, at + l, at);
      assert Admitted(c, World(locked, map[]), rest, lo, hi) == m * q;
    } else {
      assert Crowd(c, World(locked, map[]), rest, k);
      assert m * 0 == 0;
    }
    SegmentThen(c, w, first, rest, at, k, m, World(locked, map[]), lo, hi);
    steps := first + rest;
  }
}
