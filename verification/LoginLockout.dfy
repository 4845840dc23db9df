/** The per-account lockout: consecutive failures are counted, and from the
    fifth on each one locks the account for a window that doubles up to a cap. */
module LoginLockout {
  import opened Prelude

  const SECOND := 1_000_000
  const LOCKOUT_THRESHOLD := 5
  const LOCKOUT_BASE := 60 * SECOND
  const LOCKOUT_CAP := 900 * SECOND

  function Pow2(n: nat): nat { if n == 0 then 1 else 2 * Pow2(n - 1) }

  /** The window that failure number count opens. */
  function Window(count: nat): int
    requires count >= LOCKOUT_THRESHOLD
  {
    Min(LOCKOUT_BASE * Pow2(Min(count - LOCKOUT_THRESHOLD, 16)), LOCKOUT_CAP)
  }

  /** 60 s, 120 s, 240 s and 480 s, then 900 s for ever. */
  lemma WindowTable(count: nat)
    requires count >= LOCKOUT_THRESHOLD
    ensures Window(count) == if count == 5 then 60 * SECOND else if count == 6 then 120 * SECOND
      else if count == 7 then 240 * SECOND else if count == 8 then 480 * SECOND else 900 * SECOND
  {
    assert Pow2(0) == 1 && Pow2(1) == 2 && Pow2(2) == 4 && Pow2(3) == 8;
    if count > 8 {
      Pow2Grows(4, Min(count - LOCKOUT_THRESHOLD, 16));
      assert Pow2(4) == 16;
    }
  }

  lemma {:induction false} Pow2Grows(m: nat, n: nat)
    requires m <= n
    ensures Pow2(m) <= Pow2(n)
  {
    if m < n {
      Pow2Grows(m, n - 1);
    }
  }

  /** A lock is only ever extended. */
  function Extend(locked: Option<int>, until: int): Option<int> {
    if locked.None? || locked.value < until then Some(until) else locked
  }

  // ----- one account, attempts handled one after the other -----

  datatype Account = Account(failures: nat, lockedUntil: Option<int>)

  // A wrong attempt: when it is checked, and when its lock is computed.
  datatype Attempt = Attempt(at: int, lockAt: int)

  function Fail(a: Account, lockAt: int): Account {
    var count := a.failures + 1;
    Account(count, if count >= LOCKOUT_THRESHOLD then Extend(a.lockedUntil, lockAt + Window(count)) else a.lockedUntil)
  }

  predicate Locked(a: Account, now: int) { a.lockedUntil.Some? && a.lockedUntil.value > now }

  /** While locked an attempt is turned away uncounted. */
  function Attempted(a: Account, t: Attempt): Account {
    if Locked(a, t.at) then a else Fail(a, t.lockAt)
  }

  function After(attempts: seq<Attempt>): Account {
    if attempts == [] then Account(0, None)
    else Attempted(After(attempts[..|attempts| - 1]), attempts[|attempts| - 1])
  }

  predicate Serial(attempts: seq<Attempt>) {
    && (forall k :: 0 <= k < |attempts| ==> attempts[k].at <= attempts[k].lockAt)
    && (forall j, k :: 0 <= j < k < |attempts| ==> attempts[j].lockAt <= attempts[k].at)
  }

  /** The least time from the fifth failure until the lock of failure n ends. */
  function Cleared(n: nat): int
    requires n >= LOCKOUT_THRESHOLD
  {
    if n == 5 then 60 * SECOND else if n == 6 then 180 * SECOND else if n == 7 then 420 * SECOND
    else 900 * SECOND * (n - 7)
  }

  /** Attempt number fifth is the one that was counted fifth. */
  predicate IsFifth(attempts: seq<Attempt>, fifth: nat) {
    fifth < |attempts| && After(attempts[..fifth]).failures == 4 && After(attempts[..fifth + 1]).failures == 5
  }

  lemma ClearedStep(n: nat)
    requires n >= LOCKOUT_THRESHOLD
    ensures Window(n) > 0 && Cleared(5) == Window(5)
    ensures n > 5 ==> Cleared(n - 1) + Window(n) == Cleared(n)
  {
    WindowTable(n);
    WindowTable(5);
  }

  lemma {:induction false} LockGrows(attempts: seq<Attempt>, fifth: nat, k: nat)
    requires Serial(attempts) && IsFifth(attempts, fifth) && fifth < k <= |attempts|
    ensures var a := After(attempts[..k]);
            && a.failures >= 5 && a.lockedUntil.Some? && a.lockedUntil.value >= attempts[fifth].at + Cleared(a.failures)
            && (a.failures > 5 ==> attempts[k - 1].at >= attempts[fifth].at + Cleared(a.failures - 1))
    decreases k
  {
    hide Cleared, Window;
    var before := attempts[..k - 1];
    assert attempts[..k][..k - 1] == before;
    if k == fifth + 1 {
      ClearedStep(5);
    } else {
      LockGrows(attempts, fifth, k - 1);
      ClearedStep(After(before).failures + 1);
      assert attempts[k - 2].at <= attempts[k - 1].at;
    }
  }

  /** In T after the fifth failure at most 8 + T/900 s are ever counted. */
  lemma {:induction false} LockoutBound(attempts: seq<Attempt>, fifth: nat, k: nat, t: int)
    requires Serial(attempts) && IsFifth(attempts, fifth) && fifth < k <= |attempts|
    requires attempts[k - 1].at <= attempts[fifth].at + t
    ensures After(attempts[..k]).failures <= 8 + t / LOCKOUT_CAP
  {
    LockGrows(attempts, fifth, k);
    assert fifth < k - 1 ==> attempts[fifth].at <= attempts[k - 1].at;
    assert t >= 0;
    var n := After(attempts[..k]).failures;
    if n > 8 {
      assert t >= LOCKOUT_CAP * (n - 8);
      DivideDown(t, n - 8);
    }
  }

  lemma DivideDown(t: int, m: int)
    requires t >= LOCKOUT_CAP * m
    ensures t / LOCKOUT_CAP >= m
  {
  }

  /** The bound is met: failures right at the end of every lock reach it. */
  function Soonest(n: nat): seq<Attempt> {
    if n == 0 then []
    else if n <= 5 then Soonest(n - 1) + [Attempt(0, 0)]
    else Soonest(n - 1) + [Attempt(Cleared(n - 1), Cleared(n - 1))]
  }

  lemma SerialSnoc(attempts: seq<Attempt>, t: Attempt)
    requires Serial(attempts) && t.at <= t.lockAt
    requires attempts != [] ==> attempts[|attempts| - 1].lockAt <= t.at
    ensures Serial(attempts + [t])
  {
    var longer := attempts + [t];
    forall j, k | 0 <= j < k < |longer| ensures longer[j].lockAt <= longer[k].at {
      if k == |attempts| && j < |attempts| - 1 {
        assert attempts[j].lockAt <= attempts[|attempts| - 1].at;
      }
    }
  }

  lemma {:induction false} LastLock(n: nat)
    ensures Soonest(n) != [] ==> Soonest(n)[|Soonest(n)| - 1].lockAt == Soonest(n)[|Soonest(n)| - 1].at
  {
  }

  /** The fifth of them comes at once. */
  lemma {:induction false} SoonestStart(n: nat)
    requires n >= 5
    ensures |Soonest(n)| == n && Soonest(n)[..4] == Soonest(4) && Soonest(n)[..5] == Soonest(5)
  {
    if n == 5 {
      SoonestReaches(4);
      SoonestReaches(5);
    } else {
      SoonestStart(n - 1);
      hide Cleared;
    }
  }

  lemma {:induction false} SoonestReaches(n: nat)
    ensures |Soonest(n)| == n && After(Soonest(n)) == Account(n, if n < 5 then None else Some(Cleared(n)))
  {
    hide Cleared, Window;
    if n > 0 {
      SoonestReaches(n - 1);
      assert Soonest(n)[..n - 1] == Soonest(n - 1);
      if n >= 5 {
        ClearedStep(n);
      }
    }
  }

  /** They come one after the other, each at the moment the lock ends. */
  lemma {:induction false} SoonestSerial(n: nat)
    ensures |Soonest(n)| == n && Serial(Soonest(n))
    ensures n > 0 ==> Soonest(n)[n - 1].at == (if n <= 5 then 0 else Cleared(n - 1))
  {
    hide Cleared, Window, Serial;
    if n == 0 {
      NoneSerial();
    } else {
      SoonestSerial(n - 1);
      LastLock(n - 1);
      if n > 5 {
        ClearedStep(n - 1);
      }
      SerialSnoc(Soonest(n - 1), Soonest(n)[n - 1]);
    }
  }

  lemma NoneSerial()
    ensures Serial([])
  {
  }

  /** No smaller bound holds: for every n above 8 there are n serial failures, the
      fifth at 0 and the last at a T for which the bound is exactly n. */
  lemma {:induction false} LockoutBoundReached(n: nat)
    requires n >= 9
    ensures |Soonest(n)| == n && Serial(Soonest(n)) && IsFifth(Soonest(n), 4) && Soonest(n)[4].at == 0
    ensures After(Soonest(n)[..n]).failures == n == 8 + Soonest(n)[n - 1].at / LOCKOUT_CAP
  {
    hide After, Window;
    SoonestReaches(4);
    SoonestReaches(5);
    SoonestReaches(n);
    SoonestSerial(5);
    SoonestSerial(n);
    SoonestStart(n);
    assert Soonest(n)[4] == Soonest(n)[..5][4];
    assert Soonest(n)[..n] == Soonest(n);
  }

  // ----- concurrent failure transactions -----

  // seen holds the count each open transaction got from its own increment,
  // deadlines every deadline computed so far.
  datatype Counter = Counter(failures: nat, lockedUntil: Option<int>, seen: map<nat, nat>, deadlines: seq<int>)

  datatype Step = Increment(tx: nat) | Lock(tx: nat, now: int)

  function Apply(c: Counter, s: Step): Counter {
    match s
    case Increment(tx) =>
      if tx in c.seen then c
      else c.(failures := c.failures + 1, seen := c.seen[tx := c.failures + 1])
    case Lock(tx, now) =>
      if tx in c.seen && c.seen[tx] >= LOCKOUT_THRESHOLD then
        var until := now + Window(c.seen[tx]);
        c.(lockedUntil := Extend(c.lockedUntil, until), deadlines := c.deadlines + [until])
      else c
  }

  function Run(c: Counter, steps: seq<Step>): Counter {
    if steps == [] then c else Apply(Run(c, steps[..|steps| - 1]), steps[|steps| - 1])
  }

  /** The transactions that have counted their failure. */
  function Counted(steps: seq<Step>): set<nat> {
    set k | 0 <= k < |steps| && steps[k].Increment? :: steps[k].tx
  }

  /** m is the latest of the old lock and all deadlines. */
  predicate Latest(locked: Option<int>, deadlines: seq<int>, m: Option<int>) {
    && (m.None? <==> locked.None? && deadlines == [])
    && (m.Some? ==>
          && (m == locked || m.value in deadlines)
          && (locked.Some? ==> locked.value <= m.value)
          && (forall k :: 0 <= k < |deadlines| ==> deadlines[k] <= m.value))
  }

  /** Everyone's own number, none of them skipped. */
  predicate Exact(failures: nat, c: Counter, counted: set<nat>) {
    && c.seen.Keys == counted && c.failures == failures + |counted|
    && (forall i :: i in c.seen ==> failures < c.seen[i] <= c.failures)
    && (forall i, j :: i in c.seen && j in c.seen && c.seen[i] == c.seen[j] ==> i == j)
  }

  lemma ExactStep(failures: nat, c: Counter, counted: set<nat>, s: Step)
    requires Exact(failures, c, counted)
    ensures Exact(failures, Apply(c, s), counted + (if s.Increment? then {s.tx} else {}))
  {
    hide Window, Extend;
    if s.Increment? && s.tx in counted {
      assert counted + {s.tx} == counted;
    } else if s.Lock? {
      assert counted + {} == counted;
    }
  }

  lemma LatestStep(locked: Option<int>, deadlines: seq<int>, m: Option<int>, until: int)
    requires Latest(locked, deadlines, m)
    ensures Latest(locked, deadlines + [until], Extend(m, until))
  {
    assert until in deadlines + [until];
    assert forall k :: 0 <= k < |deadlines| ==> (deadlines + [until])[k] == deadlines[k];
    if m.Some? && m.value in deadlines {
      var k :| 0 <= k < |deadlines| && deadlines[k] == m.value;
      assert (deadlines + [until])[k] == m.value;
    }
  }

  /** A transaction's deadline is one window of its own count after its clock. */
  lemma LockExactly(c: Counter, tx: nat, now: int)
    requires tx in c.seen
    ensures c.seen[tx] < 5 ==> Apply(c, Lock(tx, now)) == c
    ensures c.seen[tx] >= 5 ==> Apply(c, Lock(tx, now)).deadlines == c.deadlines + [now + Window(c.seen[tx])]
  {
  }

  /** Whatever the order, no failure is lost or counted twice, every transaction
      saw its own number, and the lock ends at the latest of the old lock and
      all computed deadlines. */
  lemma {:induction false} ConcurrentFailures(failures: nat, lockedUntil: Option<int>, steps: seq<Step>)
    ensures var c := Run(Counter(failures, lockedUntil, map[], []), steps);
            Exact(failures, c, Counted(steps)) && Latest(lockedUntil, c.deadlines, c.lockedUntil)
  {
    hide Window, Extend, Latest, Exact;
    if steps == [] {
      EmptyCounter(failures, lockedUntil);
      assert Counted(steps) == {};
    } else {
      var shorter, s := steps[..|steps| - 1], steps[|steps| - 1];
      ConcurrentFailures(failures, lockedUntil, shorter);
      assert steps == shorter + [s];
      assert Counted(steps) == Counted(shorter) + (if s.Increment? then {s.tx} else {});
      var c := Run(Counter(failures, lockedUntil, map[], []), shorter);
      ExactStep(failures, c, Counted(shorter), s);
      if s.Lock? && s.tx in c.seen && c.seen[s.tx] >= LOCKOUT_THRESHOLD {
        LatestStep(lockedUntil, c.deadlines, c.lockedUntil, s.now + Window(c.seen[s.tx]));
      }
    }
  }

  lemma EmptyCounter(failures: nat, lockedUntil: Option<int>)
    ensures Exact(failures, Counter(failures, lockedUntil, map[], []), {}) && Latest(lockedUntil, [], lockedUntil)
  {
  }

  // ----- the login handler's account row -----

  datatype LoginResult = TooManyAttempts(retryAfter: int) | Unauthorized | LoggedIn

  class UserRow {
    var failedAttempts: nat
    var lockedUntil: Option<int>

    function Value(): Account
      reads this
    {
      Account(failedAttempts, lockedUntil)
    }

    constructor ()
      ensures Value() == Account(0, None)
    {
      failedAttempts, lockedUntil := 0, None;
    }

    method RegisterFailedAttempt(now: int)
      modifies this
      ensures Value() == Fail(old(Value()), now)
    {
      failedAttempts := failedAttempts + 1;
      var count := failedAttempts;
      if count >= LOCKOUT_THRESHOLD {
        var exponent := Min(count - LOCKOUT_THRESHOLD, 16);
        var duration := Min(LOCKOUT_BASE * Pow2(exponent), LOCKOUT_CAP);
        var until := now + duration;
        if lockedUntil.None? || lockedUntil.value < until {
          lockedUntil := Some(until);
        }
      }
    }

    /** A locked account turns even the right password away and changes
        nothing; a success forgets every failure. */
    method Login(now: int, passwordOk: bool, active: bool, later: int) returns (res: LoginResult)
      modifies this
      ensures res.TooManyAttempts? <==> old(lockedUntil) != None && now < old(lockedUntil).value
      ensures res.TooManyAttempts? ==>
                && Value() == old(Value()) && res.retryAfter >= 1
                && now + (res.retryAfter - 1) * SECOND <= old(lockedUntil).value < now + res.retryAfter * SECOND
      ensures res == LoggedIn <==> !Locked(old(Value()), now) && passwordOk && active
      ensures res == LoggedIn ==> Value() == Account(0, None)
      ensures res == Unauthorized ==> Value() == Attempted(old(Value()), Attempt(now, later))
    {
      if lockedUntil.Some? && lockedUntil.value > now {
        var remaining := (lockedUntil.value - now) / SECOND + 1;
        return TooManyAttempts(Max(1, remaining));
      }
      if !passwordOk || !active {
        RegisterFailedAttempt(later);
        return Unauthorized;
      }
      failedAttempts := 0;
      lockedUntil := None;
      res := LoggedIn;
    }
  }
}
