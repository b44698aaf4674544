/** Login lockout: a counter of consecutive failures and a timed lock. */
module Lockout {
  import opened Arithmetic
  import opened Wrappers

  /** The columns of the user row that logins change. */
  datatype Account = Account(failedLoginAttempts: nat, lockedUntil: Option<int>)

  /** LOGIN_MAX_ATTEMPTS and LOGIN_LOCK_MINUTES, both validated as positive. */
  datatype Config = Config(max: nat, lockMinutes: nat) {
    predicate Ok() { max >= 1 && lockMinutes >= 1 }

    function LockMs(): nat { lockMinutes * 60000 }
  }

  /** One login to an existing account: when the lock is checked, when the outcome is stored,
      and what the password and workspace checks would say. */
  datatype Attempt = Attempt(checkedAt: int, storedAt: int, passwordOk: bool, workspaceActive: bool)

  datatype Outcome = Locked | WrongPassword | WorkspaceInactive | Accepted

  predicate InForce(a: Account, now: int) {
    a.lockedUntil.Some? && a.lockedUntil.value > now
  }

  function AfterFailure(c: Config, a: Account, now: int): Account {
    if a.failedLoginAttempts + 1 >= c.max then Account(0, Some(now + c.LockMs()))
    else a.(failedLoginAttempts := a.failedLoginAttempts + 1)
  }

  function Verdict(a: Account, t: Attempt): Outcome {
    if InForce(a, t.checkedAt) then Locked
    else if !t.passwordOk then WrongPassword
    else if !t.workspaceActive then WorkspaceInactive
    else Accepted
  }

  function After(c: Config, a: Account, t: Attempt): Account {
    match Verdict(a, t)
    case WrongPassword => AfterFailure(c, a, t.storedAt)
    case Accepted => Account(0, None)
    case _ => a
  }

  // ---------------------------------------------------------------- the service

  class AuthService {
    const config: Config
    var failedLoginAttempts: nat
    var lockedUntil: Option<int>

    function View(): Account reads this { Account(failedLoginAttempts, lockedUntil) }

    constructor (config: Config)
      ensures View() == Account(0, None) && this.config == config
    {
      this.config := config;
      failedLoginAttempts, lockedUntil := 0, None;
    }

    /** One more wrong password; the one that reaches the threshold locks and starts over. */
    method RegisterFailedLogin(now: int)
      modifies this
      ensures View() == AfterFailure(config, old(View()), now)
      ensures if old(failedLoginAttempts) + 1 >= config.max
        then lockedUntil == Some(now + config.lockMinutes * 60000) && failedLoginAttempts == 0
        else lockedUntil == old(lockedUntil) && failedLoginAttempts == old(failedLoginAttempts) + 1
    {
      failedLoginAttempts := failedLoginAttempts + 1;
      if failedLoginAttempts >= config.max {
        failedLoginAttempts := 0;
        lockedUntil := Some(now + config.lockMinutes * 60000);
      }
    }

    /** `verified` tells whether a password was looked at. The login succeeds exactly without a
        lock in force, with the right password and in an active workspace, and only then clears
        counter and lock; only a wrong password counts as a failure. */
    method Login(t: Attempt) returns (outcome: Outcome, verified: bool)
      modifies this
      ensures outcome == Verdict(old(View()), t) && View() == After(config, old(View()), t)
      ensures verified <==> !InForce(old(View()), t.checkedAt)
      ensures outcome == Locked <==> old(lockedUntil).Some? && t.checkedAt < old(lockedUntil).value
      ensures outcome == WrongPassword <==> outcome != Locked && !t.passwordOk
      ensures outcome == Accepted <==> outcome != Locked && t.passwordOk && t.workspaceActive
      ensures outcome == Accepted ==> failedLoginAttempts == 0 && lockedUntil == None
      ensures outcome == WrongPassword ==>
        if old(failedLoginAttempts) + 1 >= config.max
        then lockedUntil == Some(t.storedAt + config.lockMinutes * 60000) && failedLoginAttempts == 0
        else lockedUntil == old(lockedUntil) && failedLoginAttempts == old(failedLoginAttempts) + 1
      ensures outcome in {Locked, WorkspaceInactive} ==> View() == old(View())
    {
      if lockedUntil.Some? && lockedUntil.value > t.checkedAt {
        return Locked, false;
      }
      verified := true;
      if !t.passwordOk {
        RegisterFailedLogin(t.storedAt);
        return WrongPassword, true;
      }
      if !t.workspaceActive {
        return WorkspaceInactive, true;
      }
      if failedLoginAttempts > 0 || lockedUntil.Some? {
        failedLoginAttempts := 0;
        lockedUntil := None;
      }
      outcome := Accepted;
    }
  }

  // ---------------------------------------------------------------- serial runs

  /** One login ends before the next one begins, and none of them succeeds. */
  predicate Fruitless(c: Config, a: Account, ts: seq<Attempt>, from: int)
    decreases |ts|
  {
    ts == [] ||
    (from <= ts[0].checkedAt <= ts[0].storedAt && Verdict(a, ts[0]) != Accepted
     && Fruitless(c, After(c, a, ts[0]), ts[1..], ts[0].storedAt))
  }

  /** How many wrong passwords are counted from time `lo` up to time `hi`. */
  function Failures(c: Config, a: Account, ts: seq<Attempt>, lo: int, hi: int): nat
    decreases |ts|
  {
    if ts == [] then 0
    else (if Verdict(a, ts[0]) == WrongPassword && lo <= ts[0].storedAt <= hi then 1 else 0)
         + Failures(c, After(c, a, ts[0]), ts[1..], lo, hi)
  }

  function Max(x: int, y: int): int {
    if x < y then y else x
  }

  /** When the next password can be looked at, at the earliest. */
  function Opens(a: Account, from: int): int {
    if a.lockedUntil.Some? then Max(from, a.lockedUntil.value) else from
  }

  /** How many more failures fit in before `hi`. */
  function Budget(c: Config, a: Account, from: int, hi: int): int
    requires c.Ok()
  {
    if hi < Opens(a, from) then 0
    else c.max * (Fits(hi - Opens(a, from), c.LockMs()) + 1)
         - (if a.failedLoginAttempts < c.max then a.failedLoginAttempts else c.max - 1)
  }

  lemma BudgetShrinks(c: Config, a: Account, from: int, later: int, hi: int)
    requires c.Ok() && from <= later
    ensures 0 <= Budget(c, a, later, hi) <= Budget(c, a, from, hi)
  {
    var x, y := hi - Opens(a, later), hi - Opens(a, from);
    FitsMonotone(x, y, c.LockMs());
    MulMonotone(Fits(x, c.LockMs()) + 1, Fits(y, c.LockMs()) + 1, c.max);
    MulMonotone(1, Fits(x, c.LockMs()) + 1, c.max);
    MulMonotone(1, Fits(y, c.LockMs()) + 1, c.max);
  }

  /** A counted failure uses up at least one. */
  lemma FailureSpends(c: Config, a: Account, from: int, k: int, hi: int)
    requires c.Ok() && Opens(a, from) <= k <= hi
    ensures 1 + Budget(c, AfterFailure(c, a, k), k, hi) <= Budget(c, a, from, hi)
  {
    var l := c.LockMs();
    var x, y := hi - k, hi - Opens(a, from);
    FitsMonotone(x, y, l);
    MulMonotone(Fits(x, l), Fits(y, l), c.max);
    MulMonotone(0, Fits(y, l), c.max);
    MulStep(c.max, Fits(x, l));
    MulStep(c.max, Fits(y, l));
    if a.failedLoginAttempts + 1 >= c.max && x >= l {
      assert Fits(x, l) == 1 + Fits(x - l, l);
    }
  }

  lemma {:induction false} FailuresWithinBudget(c: Config, a: Account, ts: seq<Attempt>, from: int, lo: int, hi: int)
    requires c.Ok() && Fruitless(c, a, ts, from)
    ensures Failures(c, a, ts, lo, hi) <= Budget(c, a, from, hi)
    decreases |ts|
  {
    if ts == [] {
      BudgetShrinks(c, a, from, from, hi);
    } else {
      var t := ts[0];
      var a' := After(c, a, t);
      FailuresWithinBudget(c, a', ts[1..], t.storedAt, lo, hi);
      if Verdict(a, t) == WrongPassword {
        if t.storedAt <= hi {
          FailureSpends(c, a, from, t.storedAt, hi);
        } else {
          BudgetShrinks(c, a, from, from, hi);
        }
      } else {
        BudgetShrinks(c, a, from, t.storedAt, hi);
      }
    }
  }

  lemma {:induction false} FailuresWithinWindow(c: Config, a: Account, ts: seq<Attempt>, from: int, lo: int, hi: int)
    requires c.Ok() && lo <= hi && Fruitless(c, a, ts, from)
    ensures Failures(c, a, ts, lo, hi) <= c.max * (Fits(hi - lo, c.LockMs()) + 1)
    decreases |ts|
  {
    MulMonotone(0, Fits(hi - lo, c.LockMs()) + 1, c.max);
    if ts != [] {
      var t := ts[0];
      if Verdict(a, t) == WrongPassword && lo <= t.storedAt <= hi {
        var open := a.(lockedUntil := None);
        FailuresWithinBudget(c, After(c, a, t), ts[1..], t.storedAt, lo, hi);
        FailureSpends(c, open, lo, t.storedAt, hi);
        BudgetIgnoresOldLock(c, a, t.storedAt, hi);
      } else {
        FailuresWithinWindow(c, After(c, a, t), ts[1..], t.storedAt, lo, hi);
      }
    }
  }

  /** A lock that was there before can only make the budget smaller. */
  lemma BudgetIgnoresOldLock(c: Config, a: Account, k: int, hi: int)
    requires c.Ok()
    ensures Budget(c, AfterFailure(c, a, k), k, hi) <= Budget(c, AfterFailure(c, a.(lockedUntil := None), k), k, hi)
  {
    var b := AfterFailure(c, a, k);
    if a.failedLoginAttempts + 1 < c.max {
      BudgetShrinks(c, b.(lockedUntil := None), k, Opens(b, k), hi);
    }
  }

  /** The rate bound: in a serial run without a successful login, at most
      max * (floor(D / L) + 1) wrong passwords are counted in any window of length D, where L
      is the lock time. */
  lemma RateBound(c: Config, a: Account, ts: seq<Attempt>, from: int, lo: int, hi: int)
    requires c.Ok() && lo <= hi && Fruitless(c, a, ts, from)
    ensures Failures(c, a, ts, lo, hi) <= c.max * ((hi - lo) / c.LockMs() + 1)
  {
    FailuresWithinWindow(c, a, ts, from, lo, hi);
    FitsIsDiv(hi - lo, c.LockMs());
  }

  /** While a lock is in force every login is turned away unseen, and nothing changes. */
  lemma {:induction false} NothingCheckedWhileLocked(c: Config, a: Account, ts: seq<Attempt>, i: nat)
    requires a.lockedUntil.Some? && i < |ts|
    requires forall j :: 0 <= j <= i ==> ts[j].checkedAt < a.lockedUntil.value
    ensures Verdict(AfterAll(c, a, ts[..i]), ts[i]) == Locked && AfterAll(c, a, ts[..i]) == a
    decreases i
  {
    if i > 0 {
      NothingCheckedWhileLocked(c, a, ts[1..], i - 1);
      assert ts[..i][1..] == ts[1..][..i-1];
    }
  }

  function AfterAll(c: Config, a: Account, ts: seq<Attempt>): Account
    decreases |ts|
  {
    if ts == [] then a else AfterAll(c, After(c, a, ts[0]), ts[1..])
  }

  // ---------------------------------------------------------------- tightness

  /** `n` wrong passwords at one instant. */
  function Burst(n: nat, at: int): seq<Attempt> {
    if n == 0 then [] else [Attempt(at, at, false, true)] + Burst(n - 1, at)
  }

  /** A burst that fills the counter up, then whatever comes after the lock it causes. */
  lemma {:induction false} BurstThen(c: Config, a: Account, n: nat, at: int, rest: seq<Attempt>, lo: int, hi: int)
    requires c.Ok() && n >= 1 && a.failedLoginAttempts + n == c.max && !InForce(a, at) && lo <= at <= hi
    requires Fruitless(c, Account(0, Some(at + c.LockMs())), rest, at)
    ensures Fruitless(c, a, Burst(n, at) + rest, at)
    ensures Failures(c, a, Burst(n, at) + rest, lo, hi) ==
      n + Failures(c, Account(0, Some(at + c.LockMs())), rest, lo, hi)
    decreases n
  {
    var ts := Burst(n, at) + rest;
    assert ts[0] == Attempt(at, at, false, true) && ts[1..] == Burst(n - 1, at) + rest;
    if n == 1 {
      assert ts[1..] == rest;
    } else {
      BurstThen(c, After(c, a, ts[0]), n - 1, at, rest, lo, hi);
    }
  }

  /** The bound is attained: bursts right after each lock runs out. */
  lemma {:induction false} RateBoundIsTight(c: Config, a: Account, at: int, q: nat, lo: int) returns (ts: seq<Attempt>)
    requires c.Ok() && a.failedLoginAttempts == 0 && !InForce(a, at) && lo <= at
    ensures Fruitless(c, a, ts, at)
    ensures Failures(c, a, ts, lo, at + q * c.LockMs()) == c.max * (q + 1)
    decreases q
  {
    var locked := Account(0, Some(at + c.LockMs()));
    var rest: seq<Attempt> := [];
    if q > 0 {
      rest := RateBoundIsTight(c, locked, at + c.LockMs(), q - 1, lo);
      assert at + c.LockMs() + (q - 1) * c.LockMs() == at + q * c.LockMs();
      assert c.max * (q - 1 + 1) + c.max == c.max * (q + 1);
      if rest != [] { assert Fruitless(c, locked, rest, at); }
    }
    MulMonotone(0, q, c.LockMs());
    BurstThen(c, a, c.max, at, rest, lo, at + q * c.LockMs());
    ts := Burst(c.max, at) + rest;
  }
}
