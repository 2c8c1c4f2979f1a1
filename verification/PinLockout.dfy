/** The PIN lockout counter of one account (backend/app/routers/auth.py:500-616). */
module PinLockout {
  import opened Options

  type Instant = int

  // pin_max_attempts, and pin_lockout_minutes as a span of the clock.
  datatype Config = Config(maxAttempts: int, lockout: int)

  ghost predicate ValidConfig(c: Config) {
    c.maxAttempts >= 1 && c.lockout >= 1
  }

  // `usable` is an active account of an active employee.
  datatype Account = Account(admin: bool, usable: bool, hasPin: bool, failed: nat, lockedUntil: Option<Instant>)

  datatype Verdict = AdminRefused | Locked | Failed | Accepted | NewPinRefused

  datatype Attempt = Attempt(account: Account, verdict: Verdict)

  predicate LockLive(a: Account, now: Instant) {
    a.lockedUntil.Some? && a.lockedUntil.value > now
  }

  // An expired lock is cleared together with the counter.
  function Released(a: Account, now: Instant): Account {
    if a.lockedUntil.Some? && a.lockedUntil.value <= now then a.(failed := 0, lockedUntil := None) else a
  }

  function Missed(a: Account, now: Instant, c: Config): Account {
    a.(failed := a.failed + 1,
       lockedUntil := if a.failed + 1 >= c.maxAttempts then Some(now + c.lockout) else a.lockedUntil)
  }

  // pin_login; `matches` is verify_pin.
  function Login(a: Account, now: Instant, c: Config, matches: bool): Attempt {
    if a.admin then Attempt(a, AdminRefused)
    else if LockLive(a, now) then Attempt(a, Locked)
    else if a.usable && a.hasPin && matches then Attempt(a.(failed := 0, lockedUntil := None), Accepted)
    else Attempt(Missed(Released(a, now), now, c), Failed)
  }

  // change_pin; a refused new PIN is not committed.
  function Change(a: Account, now: Instant, c: Config, matches: bool, newPinOk: bool): Attempt {
    if LockLive(a, now) then Attempt(a, Locked)
    else if !(a.hasPin && matches) then Attempt(Missed(Released(a, now), now, c), Failed)
    else if !newPinOk then Attempt(a, NewPinRefused)
    else Attempt(a.(failed := 0, lockedUntil := None), Accepted)
  }

  // ---------------------------------------------------------------- what an attempt decides

  // A miss: exactly one more failure than the lock in force left counted, and a lock exactly when that
  // makes `maxAttempts`.
  ghost predicate OneMoreMiss(a: Account, b: Account, now: Instant, c: Config) {
    var counted := if a.lockedUntil.None? then a.failed else 0;
    && b.failed == counted + 1
    && b.lockedUntil == (if counted + 1 < c.maxAttempts then None else Some(now + c.lockout))
    && b.admin == a.admin && b.usable == a.usable && b.hasPin == a.hasPin
  }

  ghost predicate Cleared(a: Account, b: Account) {
    b == a.(failed := 0, lockedUntil := None)
  }

  // A sign-in is let through exactly for the right PIN of a usable account that has one, is no
  // administrator's and is not locked. Any other attempt on an unlocked account that is no
  // administrator's is a miss; nothing else moves counter or lock.
  lemma SignInIff(a: Account, now: Instant, c: Config, matches: bool)
    ensures var r := Login(a, now, c, matches);
            var locked := a.lockedUntil.Some? && now < a.lockedUntil.value;
            && (r.verdict == Accepted <==> matches && a.usable && a.hasPin && !a.admin && !locked)
            && (r.verdict == Failed <==> !(matches && a.usable && a.hasPin) && !a.admin && !locked)
            && (r.verdict == AdminRefused <==> a.admin)
            && (r.verdict == Locked <==> !a.admin && locked)
            && (r.verdict == Accepted ==> Cleared(a, r.account))
            && (r.verdict == Failed ==> OneMoreMiss(a, r.account, now, c))
            && (r.verdict != Accepted && r.verdict != Failed ==> r.account == a)
  {}

  // The same for a change of PIN, which also takes an acceptable new one.
  lemma PinChangeIff(a: Account, now: Instant, c: Config, matches: bool, newPinOk: bool)
    ensures var r := Change(a, now, c, matches, newPinOk);
            var locked := a.lockedUntil.Some? && now < a.lockedUntil.value;
            && (r.verdict == Accepted <==> matches && a.hasPin && newPinOk && !locked)
            && (r.verdict == Failed <==> !(matches && a.hasPin) && !locked)
            && (r.verdict == NewPinRefused <==> matches && a.hasPin && !newPinOk && !locked)
            && (r.verdict == Locked <==> locked)
            && (r.verdict == Accepted ==> Cleared(a, r.account))
            && (r.verdict == Failed ==> OneMoreMiss(a, r.account, now, c))
            && (r.verdict != Accepted && r.verdict != Failed ==> r.account == a)
  {}

  // ---------------------------------------------------------------- the handlers

  class PinAccount {
    const config: Config
    const admin: bool
    const usable: bool
    const hasPin: bool
    var failed: nat
    var lockedUntil: Option<Instant>

    function View(): Account
      reads this
    {
      Account(admin, usable, hasPin, failed, lockedUntil)
    }

    constructor (config: Config, a: Account)
      ensures View() == a && this.config == config
    {
      this.config := config;
      admin, usable, hasPin, failed, lockedUntil := a.admin, a.usable, a.hasPin, a.failed, a.lockedUntil;
    }

    method PinLogin(now: Instant, matches: bool) returns (verdict: Verdict)
      modifies this
      ensures Attempt(View(), verdict) == Login(old(View()), now, config, matches)
    {
      if admin {
        return AdminRefused;
      }
      if lockedUntil.Some? && lockedUntil.value <= now {
        failed, lockedUntil := 0, None;
      }
      if lockedUntil.Some? && lockedUntil.value > now {
        return Locked;
      }
      if !(usable && hasPin && matches) {
        failed := failed + 1;
        if failed >= config.maxAttempts {
          lockedUntil := Some(now + config.lockout);
        }
        return Failed;
      }
      failed, lockedUntil := 0, None;
      return Accepted;
    }

    method ChangePin(now: Instant, matches: bool, newPinOk: bool) returns (verdict: Verdict)
      modifies this
      ensures Attempt(View(), verdict) == Change(old(View()), now, config, matches, newPinOk)
    {
      var savepoint := (failed, lockedUntil);
      if lockedUntil.Some? && lockedUntil.value > now {
        return Locked;
      }
      if lockedUntil.Some? && lockedUntil.value <= now {
        failed, lockedUntil := 0, None;
      }
      if !(hasPin && matches) {
        failed := failed + 1;
        if failed >= config.maxAttempts {
          lockedUntil := Some(now + config.lockout);
        }
        return Failed;
      }
      if !newPinOk {
        failed, lockedUntil := savepoint.0, savepoint.1;
        return NewPinRefused;
      }
      failed, lockedUntil := 0, None;
      return Accepted;
    }
  }

  // ---------------------------------------------------------------- runs

  // `failures` are the times of the failed attempts since the last success or reset.
  datatype World = World(now: Instant, account: Account, failures: seq<Instant>)

  datatype Step =
    | TryLogin(matches: bool)
    | TryChange(matches: bool, newPinOk: bool)
    | AdminReset
    | SetAccount(admin: bool, usable: bool, hasPin: bool)
    | Tick(elapsed: nat)

  function Record(w: World, r: Attempt): World {
    World(w.now, r.account,
          match r.verdict case Failed => w.failures + [w.now] case Accepted => [] case _ => w.failures)
  }

  function Next(w: World, c: Config, step: Step): World {
    match step
    case TryLogin(matches) => Record(w, Login(w.account, w.now, c, matches))
    case TryChange(matches, newPinOk) => Record(w, Change(w.account, w.now, c, matches, newPinOk))
    case AdminReset => World(w.now, w.account.(failed := 0, lockedUntil := None), [])
    case SetAccount(admin, usable, hasPin) =>
      w.(account := w.account.(admin := admin, usable := usable, hasPin := hasPin))
    case Tick(elapsed) => w.(now := w.now + elapsed)
  }

  function Run(w: World, c: Config, steps: seq<Step>): World {
    if steps == [] then w else Next(Run(w, c, steps[..|steps| - 1]), c, steps[|steps| - 1])
  }

  // The attempt compares a PIN.
  predicate ChecksPin(w: World, step: Step) {
    match step
    case TryLogin(_) => !w.account.admin && !LockLive(w.account, w.now) && w.account.usable && w.account.hasPin
    case TryChange(_, _) => !LockLive(w.account, w.now) && w.account.hasPin
    case _ => false
  }

  // What is no attempt: a reset clears counter and lock, changed flags leave both, and time passes.
  lemma OtherStepsMean(w: World, c: Config, admin: bool, usable: bool, hasPin: bool, elapsed: nat)
    ensures var (a, r) := (w.account, Next(w, c, AdminReset));
            Cleared(a, r.account) && r.failures == [] && r.now == w.now
    ensures var (a, b) := (w.account, Next(w, c, SetAccount(admin, usable, hasPin)).account);
            b == Account(admin, usable, hasPin, a.failed, a.lockedUntil)
    ensures Next(w, c, Tick(elapsed)) == World(w.now + elapsed, w.account, w.failures)
  {}

  // ---------------------------------------------------------------- the bound

  ghost predicate Ordered(w: World) {
    && (forall i, j | 0 <= i <= j < |w.failures| :: w.failures[i] <= w.failures[j])
    && (forall i | 0 <= i < |w.failures| :: w.failures[i] <= w.now)
  }

  // Any `maxAttempts` later failure comes at least a lockout later.
  ghost predicate Spaced(f: seq<Instant>, c: Config) {
    forall i, j | 0 <= i && i <= j < |f| && j == i + c.maxAttempts :: f[j] >= f[i] + c.lockout
  }

  // The lock outlasts the failure that set it; without a lock, the counter is below the limit and
  // the failure before the counted ones is a lockout ago.
  ghost predicate Counted(w: World, c: Config) {
    var f, a := w.failures, w.account;
    && (a.lockedUntil.Some? && f != [] ==> a.lockedUntil.value >= f[|f| - 1] + c.lockout)
    && (a.lockedUntil.None? && f != [] ==> a.failed < c.maxAttempts)
    && (a.lockedUntil.None? && |f| > a.failed ==> f[|f| - a.failed - 1] + c.lockout <= w.now)
  }

  ghost predicate Inv(w: World, c: Config) {
    Ordered(w) && Spaced(w.failures, c) && Counted(w, c)
  }

  lemma ReleaseKeepsInv(w: World, c: Config)
    requires ValidConfig(c) && Inv(w, c)
    ensures Inv(w.(account := Released(w.account, w.now)), c)
  {}

  lemma MissKeepsInv(w: World, c: Config)
    requires ValidConfig(c) && Inv(w, c) && w.account.lockedUntil.None?
    ensures Inv(World(w.now, Missed(w.account, w.now, c), w.failures + [w.now]), c)
  {
    var f := w.failures;
    var g := f + [w.now];
    forall i, j | 0 <= i && j == i + c.maxAttempts < |g| ensures g[j] >= g[i] + c.lockout {
      if j == |f| {
        assert f[i] <= f[|f| - w.account.failed - 1];
      }
    }
  }

  lemma ClearKeepsInv(w: World, c: Config, a: Account)
    requires ValidConfig(c) && Inv(w, c) && a.failed == 0 && a.lockedUntil.None?
    ensures Inv(World(w.now, a, []), c)
  {}

  lemma TickKeepsInv(w: World, c: Config, elapsed: nat)
    requires Inv(w, c)
    ensures Inv(w.(now := w.now + elapsed), c)
  {}

  lemma FlagsKeepInv(w: World, c: Config, a: Account)
    requires Inv(w, c) && a.failed == w.account.failed && a.lockedUntil == w.account.lockedUntil
    ensures Inv(w.(account := a), c)
  {}

  lemma StepKeepsInv(w: World, c: Config, step: Step)
    requires ValidConfig(c) && Inv(w, c)
    ensures Inv(Next(w, c, step), c)
  {
    hide Inv, Missed;
    if !LockLive(w.account, w.now) {
      ReleaseKeepsInv(w, c);
      MissKeepsInv(w.(account := Released(w.account, w.now)), c);
    }
    ClearKeepsInv(w, c, w.account.(failed := 0, lockedUntil := None));
    match step
    case Tick(elapsed) => TickKeepsInv(w, c, elapsed);
    case SetAccount(admin, usable, hasPin) =>
      FlagsKeepInv(w, c, w.account.(admin := admin, usable := usable, hasPin := hasPin));
    case _ =>
  }

  lemma {:induction false} RunKeepsInv(w: World, c: Config, steps: seq<Step>)
    requires ValidConfig(c) && w.failures == []
    ensures Inv(Run(w, c, steps), c)
  {
    if steps != [] {
      RunKeepsInv(w, c, steps[..|steps| - 1]);
      hide Inv, Next;
      StepKeepsInv(Run(w, c, steps[..|steps| - 1]), c, steps[|steps| - 1]);
    }
  }

  lemma {:induction false} SpacedFar(f: seq<Instant>, c: Config, i: int, k: nat)
    requires ValidConfig(c) && Spaced(f, c) && 0 <= i && i + k * c.maxAttempts < |f|
    ensures 0 <= k * c.maxAttempts
    ensures f[i + k * c.maxAttempts] >= f[i] + k * c.lockout
  {
    if k > 0 {
      assert k * c.maxAttempts == (k - 1) * c.maxAttempts + c.maxAttempts;
      SpacedFar(f, c, i, k - 1);
      var j := i + (k - 1) * c.maxAttempts;
      assert f[j + c.maxAttempts] >= f[j] + c.lockout;
    }
  }

  lemma SpanHolds(f: seq<Instant>, c: Config, i: int, j: int, span: nat)
    requires ValidConfig(c) && Spaced(f, c) && 0 <= i <= j < |f| && f[j] - f[i] <= span
    requires forall x, y | 0 <= x <= y < |f| :: f[x] <= f[y]
    ensures j - i + 1 <= c.maxAttempts * (span / c.lockout + 1)
  {
    var k := span / c.lockout + 1;
    assert k * c.lockout > span by {
      assert span == c.lockout * (span / c.lockout) + span % c.lockout;
      assert k * c.lockout == c.lockout * (span / c.lockout) + c.lockout;
    }
    assert k * c.maxAttempts == c.maxAttempts * k;
    if i + k * c.maxAttempts <= j {
      SpacedFar(f, c, i, k);
    }
  }

  // In any run, between successes and resets, the failures i..j that fit in a span number at most
  // maxAttempts * (span / lockout + 1).
  lemma FailuresAreBounded(w: World, c: Config, steps: seq<Step>, i: int, j: int, span: nat)
    requires ValidConfig(c) && w.failures == []
    requires var f := Run(w, c, steps).failures; 0 <= i <= j < |f| && f[j] - f[i] <= span
    ensures j - i + 1 <= c.maxAttempts * (span / c.lockout + 1)
  {
    RunKeepsInv(w, c, steps);
    hide Run, Spaced, Counted;
    SpanHolds(Run(w, c, steps).failures, c, i, j, span);
  }

  // ---------------------------------------------------------------- no check under a live lock

  function Elapsed(steps: seq<Step>): nat {
    if steps == [] then 0 else Elapsed(steps[..|steps| - 1]) + (match steps[|steps| - 1] case Tick(e) => e case _ => 0)
  }

  // While a lock lasts and nobody resets it, whatever is tried compares no PIN, and neither the
  // counter nor the lock moves.
  lemma {:induction false} NothingCheckedUnderLock(w: World, c: Config, steps: seq<Step>, next: Step)
    requires LockLive(w.account, w.now + Elapsed(steps)) && AdminReset !in steps
    ensures var r := Run(w, c, steps);
            && r.now == w.now + Elapsed(steps)
            && r.account.lockedUntil == w.account.lockedUntil && r.account.failed == w.account.failed
            && r.failures == w.failures && !ChecksPin(r, next)
  {
    if steps != [] {
      var front := steps[..|steps| - 1];
      assert forall x | x in front :: x in steps;
      assert steps[|steps| - 1] in steps;
      NothingCheckedUnderLock(w, c, front, next);
    }
  }

  // ---------------------------------------------------------------- the limit is reached

  function Tries(steps: seq<Step>): nat {
    if steps == [] then 0
    else Tries(steps[..|steps| - 1]) + (if steps[|steps| - 1].TryLogin? then 1 else 0)
  }

  // Wrong PINs, however far apart, are counted one by one; the `maxAttempts`-th locks for a lockout, and
  // no earlier one does.
  lemma {:induction false} WrongPinsLock(w: World, c: Config, steps: seq<Step>)
    requires ValidConfig(c) && w.failures == []
    requires !w.account.admin && w.account.failed == 0 && w.account.lockedUntil.None?
    requires forall s | s in steps :: s.Tick? || s == TryLogin(false)
    requires Tries(steps) <= c.maxAttempts
    ensures var r := Run(w, c, steps);
            && !r.account.admin && |r.failures| == r.account.failed == Tries(steps)
            && r.account.lockedUntil == if Tries(steps) < c.maxAttempts then None
                                        else Some(r.failures[c.maxAttempts - 1] + c.lockout)
  {
    if steps != [] {
      var front := steps[..|steps| - 1];
      assert forall s | s in front :: s in steps;
      assert steps[|steps| - 1] in steps;
      WrongPinsLock(w, c, front);
    }
  }
}
