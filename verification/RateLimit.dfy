/** The fixed-window limiter: a table of windows trimmed now and then, against
    the same table never trimmed. Times are seconds on a monotonic clock. */
module RateLimit {
  import opened Prelude

  type Key = string

  datatype Window = Window(count: int, resetAt: real)

  type Buckets = map<Key, Window>

  datatype Call = Call(key: Key, now: real)

  datatype Answer = Answer(allowed: bool, retryAfter: int)

  // limit events per window seconds.
  datatype Config = Config(limit: int, window: int)

  // ----- the simple form: windows are never dropped -----

  predicate Live(b: Buckets, c: Call) { c.key in b && b[c.key].resetAt > c.now }

  function Answered(cfg: Config, b: Buckets, c: Call): Answer {
    if cfg.limit > 0 && Live(b, c) && b[c.key].count >= cfg.limit
    then Answer(false, Max(1, (b[c.key].resetAt - c.now).Floor)) else Answer(true, 0)
  }

  function Counted(cfg: Config, b: Buckets, c: Call): Buckets {
    if cfg.limit <= 0 then b
    else if !Live(b, c) then b[c.key := Window(1, c.now + cfg.window as real)]
    else if b[c.key].count >= cfg.limit then b
    else b[c.key := b[c.key].(count := b[c.key].count + 1)]
  }

  function Windows(cfg: Config, calls: seq<Call>): Buckets {
    if calls == [] then map[] else Counted(cfg, Windows(cfg, calls[..|calls| - 1]), calls[|calls| - 1])
  }

  function Answers(cfg: Config, calls: seq<Call>): (r: seq<Answer>)
    ensures |r| == |calls|
  {
    if calls == [] then []
    else Answers(cfg, calls[..|calls| - 1]) + [Answered(cfg, Windows(cfg, calls[..|calls| - 1]), calls[|calls| - 1])]
  }

  // ----- the trimmed form -----

  datatype Store = Store(buckets: Buckets, lastSweep: real)

  function Swept(cfg: Config, s: Store, now: real): Store {
    if now - s.lastSweep < cfg.window as real then s
    else Store(map k | k in s.buckets && s.buckets[k].resetAt > now :: s.buckets[k], now)
  }

  function Checked(cfg: Config, s: Store, c: Call): Store {
    if cfg.limit <= 0 then s
    else
      var swept := Swept(cfg, s, c.now);
      swept.(buckets := Counted(cfg, swept.buckets, c))
  }

  function CheckAnswer(cfg: Config, s: Store, c: Call): Answer {
    if cfg.limit <= 0 then Answer(true, 0) else Answered(cfg, Swept(cfg, s, c.now).buckets, c)
  }

  const EMPTY := Store(map[], 0.0)

  function Stores(cfg: Config, calls: seq<Call>): Store {
    if calls == [] then EMPTY else Checked(cfg, Stores(cfg, calls[..|calls| - 1]), calls[|calls| - 1])
  }

  function StoreAnswers(cfg: Config, calls: seq<Call>): (r: seq<Answer>)
    ensures |r| == |calls|
  {
    if calls == [] then []
    else
      StoreAnswers(cfg, calls[..|calls| - 1])
      + [CheckAnswer(cfg, Stores(cfg, calls[..|calls| - 1]), calls[|calls| - 1])]
  }

  // ----- one key, one window -----

  /** An event touches its own key's window and no other: it opens one if none is
      open, counts itself if it is let in, and leaves it alone if it is refused. */
  lemma CountedExactly(cfg: Config, b: Buckets, c: Call)
    requires cfg.limit > 0
    ensures var after := Counted(cfg, b, c);
            var open := c.key in b && c.now < b[c.key].resetAt;
            && after.Keys == b.Keys + {c.key}
            && (forall k :: k in b && k != c.key ==> after[k] == b[k])
            && (!open ==> after[c.key] == Window(1, c.now + cfg.window as real))
            && (open ==> after[c.key] == Window(if b[c.key].count < cfg.limit then b[c.key].count + 1
                                                else b[c.key].count, b[c.key].resetAt))
            && (Answered(cfg, b, c).allowed <==> !open || b[c.key].count < cfg.limit)
            && (!Answered(cfg, b, c).allowed ==>
                  Answered(cfg, b, c).retryAfter == Max(1, (b[c.key].resetAt - c.now).Floor))
  {
  }

  /** A sweep happens once a window length has passed since the last one, and drops
      exactly the windows that are over. */
  lemma SweptExactly(cfg: Config, s: Store, now: real)
    ensures now - s.lastSweep < cfg.window as real ==> Swept(cfg, s, now) == s
    ensures now - s.lastSweep >= cfg.window as real ==>
              var t := Swept(cfg, s, now);
              && t.lastSweep == now
              && (forall k :: k in t.buckets <==> k in s.buckets && now < s.buckets[k].resetAt)
              && (forall k :: k in t.buckets ==> t.buckets[k] == s.buckets[k])
  {
  }

  /** The calls of one key. */
  function Only(calls: seq<Call>, key: Key): seq<Call> {
    if calls == [] then []
    else
      var last := calls[|calls| - 1];
      Only(calls[..|calls| - 1], key) + if last.key == key then [last] else []
  }

  predicate SameWindow(a: Buckets, b: Buckets, key: Key) { (key in a <==> key in b) && (key in a ==> a[key] == b[key]) }

  lemma SameCounted(cfg: Config, a: Buckets, b: Buckets, c: Call)
    requires SameWindow(a, b, c.key)
    ensures SameWindow(Counted(cfg, a, c), Counted(cfg, b, c), c.key)
    ensures Answered(cfg, a, c) == Answered(cfg, b, c)
  {
  }

  lemma OtherCounted(cfg: Config, b: Buckets, c: Call, key: Key)
    requires c.key != key
    ensures SameWindow(Counted(cfg, b, c), b, key)
  {
  }

  lemma {:induction false} OnlySnoc(calls: seq<Call>, key: Key)
    requires calls != []
    ensures var n := |calls| - 1;
            Only(calls, key) == Only(calls[..n], key) + if calls[n].key == key then [calls[n]] else []
  {
  }

  lemma {:induction false} WindowsSnoc(cfg: Config, calls: seq<Call>, c: Call)
    ensures Windows(cfg, calls + [c]) == Counted(cfg, Windows(cfg, calls), c)
  {
    assert (calls + [c])[..|calls|] == calls;
  }

  lemma {:induction false} WindowsApart(cfg: Config, calls: seq<Call>, key: Key)
    ensures SameWindow(Windows(cfg, calls), Windows(cfg, Only(calls, key)), key)
  {
    hide Counted, Windows, Only;
    if calls == [] {
      assert Only([], key) == [] by { OnlyNone(key); }
    } else {
      var n := |calls| - 1;
      assert calls == calls[..n] + [calls[n]];
      WindowsApart(cfg, calls[..n], key);
      WindowsSnoc(cfg, calls[..n], calls[n]);
      OnlySnoc(calls, key);
      if calls[n].key == key {
        WindowsSnoc(cfg, Only(calls[..n], key), calls[n]);
        SameCounted(cfg, Windows(cfg, calls[..n]), Windows(cfg, Only(calls[..n], key)), calls[n]);
      } else {
        assert Only(calls[..n], key) + [] == Only(calls[..n], key);
        OtherCounted(cfg, Windows(cfg, calls[..n]), calls[n], key);
      }
    }
  }

  lemma OnlyNone(key: Key)
    ensures Only([], key) == []
  {
  }

  /** Keys do not interfere: a key's window, and the answer to its next event, are
      what they would be if no other key had ever been used. */
  lemma {:induction false} KeysApart(cfg: Config, calls: seq<Call>, c: Call)
    ensures SameWindow(Windows(cfg, calls), Windows(cfg, Only(calls, c.key)), c.key)
    ensures Answered(cfg, Windows(cfg, calls), c) == Answered(cfg, Windows(cfg, Only(calls, c.key)), c)
  {
    hide *;
    WindowsApart(cfg, calls, c.key);
    SameCounted(cfg, Windows(cfg, calls), Windows(cfg, Only(calls, c.key)), c);
  }

  // ----- trimming changes no answer -----

  predicate Ordered(calls: seq<Call>) {
    forall j, k :: 0 <= j <= k < |calls| ==> calls[j].now <= calls[k].now
  }

  /** The trimmed table is the full one without some windows that are over. */
  predicate Trimmed(b: Buckets, full: Buckets, now: real) {
    && (forall k :: k in b ==> k in full && b[k] == full[k])
    && (forall k :: k in full && k !in b ==> full[k].resetAt <= now)
  }

  lemma StepRefines(cfg: Config, s: Store, full: Buckets, c: Call)
    requires Trimmed(s.buckets, full, c.now)
    ensures Trimmed(Checked(cfg, s, c).buckets, Counted(cfg, full, c), c.now)
    ensures CheckAnswer(cfg, s, c) == Answered(cfg, full, c)
  {
    if cfg.limit > 0 {
      var swept := Swept(cfg, s, c.now);
      assert Trimmed(swept.buckets, full, c.now);
      assert Live(swept.buckets, c) <==> Live(full, c);
    }
  }

  lemma {:induction false} RunRefines(cfg: Config, calls: seq<Call>)
    requires Ordered(calls)
    ensures calls != [] ==> Trimmed(Stores(cfg, calls).buckets, Windows(cfg, calls), calls[|calls| - 1].now)
    ensures StoreAnswers(cfg, calls) == Answers(cfg, calls)
  {
    hide Checked, CheckAnswer, Answered, Counted;
    if calls != [] {
      var n := |calls| - 1;
      RunRefines(cfg, calls[..n]);
      assert n > 0 ==> calls[..n][n - 1] == calls[n - 1] && calls[n - 1].now <= calls[n].now;
      assert Trimmed(Stores(cfg, calls[..n]).buckets, Windows(cfg, calls[..n]), calls[n].now);
      StepRefines(cfg, Stores(cfg, calls[..n]), Windows(cfg, calls[..n]), calls[n]);
    }
  }

  /** Over any call history on a clock that never goes back, sweeping changes no
      answer: neither who is let in nor how long the others are told to wait. */
  lemma {:induction false} SweepingChangesNothing(cfg: Config, calls: seq<Call>)
    requires Ordered(calls)
    ensures StoreAnswers(cfg, calls) == Answers(cfg, calls)
  {
    RunRefines(cfg, calls);
  }

  /** On a clock that goes back it can: a swept window forgets its count. */
  lemma {:induction false} BackwardsClockDiffers(key: Key)
    ensures var cfg := Config(1, 10);
            var calls := [Call(key, 20.0), Call("", 31.0), Call(key, 21.0)];
            key != "" ==> StoreAnswers(cfg, calls)[2] == Answer(true, 0) && Answers(cfg, calls)[2] == Answer(false, 9)
  {
    if key != "" {
      var cfg := Config(1, 10);
      var calls := [Call(key, 20.0), Call("", 31.0), Call(key, 21.0)];
      assert calls[..2] == [Call(key, 20.0), Call("", 31.0)] && calls[..2][..1] == [Call(key, 20.0)];
      assert Stores(cfg, calls[..2][..1]) == Store(map[key := Window(1, 30.0)], 20.0);
      assert Stores(cfg, calls[..2]) == Store(map["" := Window(1, 41.0)], 31.0);
      assert Windows(cfg, calls[..2][..1]) == map[key := Window(1, 30.0)];
      assert Windows(cfg, calls[..2]) == map[key := Window(1, 30.0), "" := Window(1, 41.0)];
    }
  }

  // ----- how long a window is kept -----

  lemma {:induction false} Retained(cfg: Config, calls: seq<Call>)
    requires cfg.window > 0 && Ordered(calls) && (forall k :: 0 <= k < |calls| ==> calls[k].now >= 0.0)
    ensures forall k :: k in Stores(cfg, calls).buckets ==>
            Stores(cfg, calls).buckets[k].resetAt > Stores(cfg, calls).lastSweep
    ensures cfg.limit > 0 && calls != [] ==>
              Stores(cfg, calls).lastSweep <= calls[|calls| - 1].now < Stores(cfg, calls).lastSweep + cfg.window as real
    ensures cfg.limit <= 0 || calls == [] ==> Stores(cfg, calls) == EMPTY
  {
    if calls != [] {
      var n := |calls| - 1;
      Retained(cfg, calls[..n]);
      assert n > 0 ==> calls[..n][n - 1] == calls[n - 1] && calls[n - 1].now <= calls[n].now;
    }
  }

  /** A window is never kept a whole window length after its end. */
  lemma {:induction false} KeptBriefly(cfg: Config, calls: seq<Call>, key: Key)
    requires cfg.window > 0 && Ordered(calls) && (forall k :: 0 <= k < |calls| ==> calls[k].now >= 0.0)
    requires key in Stores(cfg, calls).buckets
    ensures calls != [] && Stores(cfg, calls).buckets[key].resetAt > calls[|calls| - 1].now - cfg.window as real
  {
    Retained(cfg, calls);
  }

  // ----- how many events get through -----

  /** Events of a key let in at a time in [from, to). */
  function Let(cfg: Config, calls: seq<Call>, key: Key, from: real, to: real): nat {
    if calls == [] then 0
    else
      var n := |calls| - 1;
      Let(cfg, calls[..n], key, from, to)
      + if calls[n].key == key && from <= calls[n].now < to && Answered(cfg, Windows(cfg, calls[..n]), calls[n]).allowed
        then 1 else 0
  }

  /** Events of a key let in strictly after a time. */
  function LetAfter(cfg: Config, calls: seq<Call>, key: Key, after: real): nat {
    if calls == [] then 0
    else
      var n := |calls| - 1;
      LetAfter(cfg, calls[..n], key, after)
      + if calls[n].key == key && after < calls[n].now && Answered(cfg, Windows(cfg, calls[..n]), calls[n]).allowed
        then 1 else 0
  }

  lemma {:induction false} LetWithin(cfg: Config, calls: seq<Call>, key: Key, from: real, to: real, after: real)
    requires after < from
    ensures Let(cfg, calls, key, from, to) <= LetAfter(cfg, calls, key, after)
  {
    if calls != [] {
      LetWithin(cfg, calls[..|calls| - 1], key, from, to, after);
    }
  }

  lemma {:induction false} LetAfterLess(cfg: Config, calls: seq<Call>, key: Key, a: real, b: real)
    requires a <= b
    ensures LetAfter(cfg, calls, key, b) <= LetAfter(cfg, calls, key, a)
  {
    if calls != [] {
      LetAfterLess(cfg, calls[..|calls| - 1], key, a, b);
    }
  }

  lemma {:induction false} NoneAfter(cfg: Config, calls: seq<Call>, key: Key, after: real)
    requires Ordered(calls) && (calls != [] ==> calls[|calls| - 1].now <= after)
    ensures LetAfter(cfg, calls, key, after) == 0
  {
    if calls != [] {
      var n := |calls| - 1;
      assert n > 0 ==> calls[..n][n - 1].now <= calls[n].now;
      NoneAfter(cfg, calls[..n], key, after);
    }
  }

  lemma {:induction false} UnknownKey(cfg: Config, calls: seq<Call>, key: Key, after: real)
    requires cfg.limit > 0 && key !in Windows(cfg, calls)
    ensures LetAfter(cfg, calls, key, after) == 0
  {
    if calls != [] {
      UnknownKey(cfg, calls[..|calls| - 1], key, after);
    }
  }

  /** The window of a key, one window length back: the first event of a window
      opens it, so fewer than limit lie strictly inside the window before. */
  predicate WindowOk(cfg: Config, calls: seq<Call>, key: Key, w: Window) {
    var start := w.resetAt - cfg.window as real;
    && 1 <= w.count <= cfg.limit
    && LetAfter(cfg, calls, key, start) <= w.count - 1
    && LetAfter(cfg, calls, key, start - cfg.window as real) <= w.count + cfg.limit - 1
    && (calls != [] ==> start <= calls[|calls| - 1].now)
  }

  lemma {:induction false} WindowKept(cfg: Config, calls: seq<Call>, key: Key)
    requires cfg.limit > 0 && cfg.window > 0 && Ordered(calls) && key in Windows(cfg, calls)
    ensures WindowOk(cfg, calls, key, Windows(cfg, calls)[key])
  {
    var n := |calls| - 1;
    var before := Windows(cfg, calls[..n]);
    var c := calls[n];
    assert n > 0 ==> calls[..n][n - 1] == calls[n - 1] && calls[n - 1].now <= c.now;
    if key in before {
      WindowKept(cfg, calls[..n], key);
    }
    if c.key == key && !Live(before, c) {
      if key in before {
        LetAfterLess(cfg, calls[..n], key, before[key].resetAt - cfg.window as real, c.now - cfg.window as real);
      } else {
        UnknownKey(cfg, calls[..n], key, c.now - cfg.window as real);
      }
      NewWindow(cfg, calls, key);
    } else {
      OldWindow(cfg, calls, key);
    }
  }

  lemma {:induction false} NewWindow(cfg: Config, calls: seq<Call>, key: Key)
    requires cfg.limit > 0 && Ordered(calls) && calls != [] && calls[|calls| - 1].key == key
    requires !Live(Windows(cfg, calls[..|calls| - 1]), calls[|calls| - 1])
    requires LetAfter(cfg, calls[..|calls| - 1], key, calls[|calls| - 1].now - cfg.window as real) <= cfg.limit - 1
    ensures WindowOk(cfg, calls, key, Windows(cfg, calls)[key])
  {
    var n := |calls| - 1;
    assert n > 0 ==> calls[..n][n - 1] == calls[n - 1] && calls[n - 1].now <= calls[n].now;
    NoneAfter(cfg, calls[..n], key, calls[n].now);
  }

  lemma {:induction false} OldWindow(cfg: Config, calls: seq<Call>, key: Key)
    requires cfg.limit > 0 && |calls| > 1 && calls[|calls| - 2].now <= calls[|calls| - 1].now
    requires calls[|calls| - 1].key == key ==> Live(Windows(cfg, calls[..|calls| - 1]), calls[|calls| - 1])
    requires key in Windows(cfg, calls[..|calls| - 1])
    requires WindowOk(cfg, calls[..|calls| - 1], key, Windows(cfg, calls[..|calls| - 1])[key])
    ensures WindowOk(cfg, calls, key, Windows(cfg, calls)[key])
  {
    var n := |calls| - 1;
    var before := Windows(cfg, calls[..n]);
    var c := calls[n];
    var start := before[key].resetAt - cfg.window as real;
    assert Windows(cfg, calls) == Counted(cfg, before, c);
    OneMore(cfg, calls, key, start);
    OneMore(cfg, calls, key, start - cfg.window as real);
    hide Windows, LetAfter;
    assert calls[..n][n - 1] == calls[n - 1];
    var w := Counted(cfg, before, c)[key];
    assert w.resetAt == before[key].resetAt;
    if c.key == key && before[key].count < cfg.limit {
      assert w.count == before[key].count + 1;
    } else {
      assert w == before[key];
      assert c.key == key ==> !Answered(cfg, before, c).allowed;
    }
  }

  lemma {:induction false} OneMore(cfg: Config, calls: seq<Call>, key: Key, after: real)
    requires calls != []
    ensures var c, before := calls[|calls| - 1], calls[..|calls| - 1];
            var lets := c.key == key && Answered(cfg, Windows(cfg, before), c).allowed;
            LetAfter(cfg, calls, key, after) <= LetAfter(cfg, before, key, after) + if lets then 1 else 0
  {
  }

  /** At most 2 * limit - 1 events of a key get through in any half-open interval
      as long as the window, wherever the windows happen to start. */
  lemma {:induction false} LimiterBound(cfg: Config, calls: seq<Call>, key: Key, from: real)
    requires cfg.limit > 0 && cfg.window > 0 && Ordered(calls)
    ensures Let(cfg, calls, key, from, from + cfg.window as real) <= 2 * cfg.limit - 1
  {
    if calls != [] {
      var n := |calls| - 1;
      var c := calls[n];
      LimiterBound(cfg, calls[..n], key, from);
      if c.key == key && from <= c.now < from + cfg.window as real
          && Answered(cfg, Windows(cfg, calls[..n]), c).allowed {
        WindowKept(cfg, calls, key);
        var w := Windows(cfg, calls)[key];
        var start := w.resetAt - cfg.window as real;
        LetAfterLess(cfg, calls, key, start - cfg.window as real, c.now - cfg.window as real);
        LetWithin(cfg, calls, key, from, from + cfg.window as real, c.now - cfg.window as real);
      }
    }
  }

  // ----- the bound is reached -----

  function Burst(key: Key, now: real, n: nat): seq<Call> {
    if n == 0 then [] else Burst(key, now, n - 1) + [Call(key, now)]
  }

  lemma {:induction false} LetMore(cfg: Config, calls: seq<Call>, c: Call, from: real, to: real)
    ensures Windows(cfg, calls + [c]) == Counted(cfg, Windows(cfg, calls), c)
    ensures Let(cfg, calls + [c], c.key, from, to)
         == Let(cfg, calls, c.key, from, to)
            + if from <= c.now < to && Answered(cfg, Windows(cfg, calls), c).allowed then 1 else 0
  {
    assert (calls + [c])[..|calls|] == calls;
  }

  lemma {:induction false} FillWindow(cfg: Config, calls: seq<Call>, key: Key, now: real, n: nat, from: real, to: real)
    requires key in Windows(cfg, calls) && Windows(cfg, calls)[key].resetAt > now && from <= now < to
    requires Windows(cfg, calls)[key].count >= 0 && Windows(cfg, calls)[key].count + n <= cfg.limit
    ensures key in Windows(cfg, calls + Burst(key, now, n))
    ensures Windows(cfg, calls + Burst(key, now, n))[key]
            == Window(Windows(cfg, calls)[key].count + n, Windows(cfg, calls)[key].resetAt)
    ensures Let(cfg, calls + Burst(key, now, n), key, from, to) == Let(cfg, calls, key, from, to) + n
  {
    hide Windows, Let;
    if n == 0 {
      assert calls + Burst(key, now, n) == calls;
    } else {
      FillWindow(cfg, calls, key, now, n - 1, from, to);
      LetMore(cfg, calls + Burst(key, now, n - 1), Call(key, now), from, to);
      assert calls + Burst(key, now, n) == calls + Burst(key, now, n - 1) + [Call(key, now)];
    }
  }

  lemma {:induction false} BurstAt(key: Key, now: real, n: nat)
    ensures |Burst(key, now, n)| == n && forall k :: 0 <= k < n ==> Burst(key, now, n)[k].now == now
  {
    if n > 0 {
      BurstAt(key, now, n - 1);
    }
  }

  lemma {:induction false} FirstWindow(cfg: Config, key: Key, from: real, to: real) returns (calls: seq<Call>)
    requires cfg.limit > 0 && 0.0 < from < cfg.window as real && from < to
    ensures calls == [Call(key, 0.0)] + Burst(key, from, cfg.limit - 1)
    ensures key in Windows(cfg, calls) && Windows(cfg, calls)[key].resetAt == cfg.window as real
    ensures Let(cfg, calls, key, from, to) == cfg.limit - 1
  {
    LetMore(cfg, [], Call(key, 0.0), from, to);
    assert [] + [Call(key, 0.0)] == [Call(key, 0.0)];
    FillWindow(cfg, [Call(key, 0.0)], key, from, cfg.limit - 1, from, to);
    calls := [Call(key, 0.0)] + Burst(key, from, cfg.limit - 1);
  }

  lemma {:induction false} SecondWindow(cfg: Config, key: Key, calls: seq<Call>, now: real, from: real, to: real)
    returns (more: seq<Call>)
    requires cfg.limit > 0 && cfg.window > 0 && from <= now < to
    requires key in Windows(cfg, calls) && Windows(cfg, calls)[key].resetAt == now
    ensures more == calls + [Call(key, now)] + Burst(key, now, cfg.limit - 1)
    ensures Let(cfg, more, key, from, to) == Let(cfg, calls, key, from, to) + cfg.limit
  {
    hide Windows, Let;
    LetMore(cfg, calls, Call(key, now), from, to);
    FillWindow(cfg, calls + [Call(key, now)], key, now, cfg.limit - 1, from, to);
    more := calls + [Call(key, now)] + Burst(key, now, cfg.limit - 1);
  }

  /** No smaller bound holds: a full window after a full window reaches it. */
  lemma {:induction false} BoundReached(cfg: Config, key: Key) returns (calls: seq<Call>, from: real)
    requires cfg.limit > 0 && cfg.window > 0
    ensures Ordered(calls) && Let(cfg, calls, key, from, from + cfg.window as real) == 2 * cfg.limit - 1
  {
    hide Windows, Let;
    var w := cfg.window as real;
    from := w / 2.0;
    var first := FirstWindow(cfg, key, from, from + w);
    calls := SecondWindow(cfg, key, first, w, from, from + w);
    TwoBursts(key, from, w, cfg.limit - 1);
  }

  lemma {:induction false} TwoBursts(key: Key, from: real, now: real, n: nat)
    requires 0.0 <= from <= now
    ensures Ordered([Call(key, 0.0)] + Burst(key, from, n) + [Call(key, now)] + Burst(key, now, n))
  {
    BurstAt(key, from, n);
    BurstAt(key, now, n);
  }

  /** The advised wait is short of the window's end by less than a second: a
      retry after it gets in exactly when the wait was whole or below one. */
  lemma RetryAdvice(cfg: Config, b: Buckets, c: Call, later: real)
    requires !Answered(cfg, b, c).allowed
    ensures var advice := Answered(cfg, b, c).retryAfter;
            var rest := b[c.key].resetAt - c.now;
            && advice >= 1 && rest < advice as real + 1.0
            && (later >= c.now + advice as real + 1.0 ==> Answered(cfg, b, Call(c.key, later)).allowed)
            && (Answered(cfg, b, Call(c.key, c.now + advice as real)).allowed <==>
                  rest.Floor as real == rest || rest < 1.0)
  {
  }

  /** A client that obeys the advice and is refused once more: the wait was 1.5 s. */
  lemma {:induction false} AdviceTooShort(key: Key)
    ensures Answers(Config(1, 10), [Call(key, 0.5), Call(key, 9.0), Call(key, 10.0)])
         == [Answer(true, 0), Answer(false, 1), Answer(false, 1)]
  {
    var cfg := Config(1, 10);
    var calls := [Call(key, 0.5), Call(key, 9.0), Call(key, 10.0)];
    assert calls[..2] == [Call(key, 0.5), Call(key, 9.0)] && calls[..2][..1] == [Call(key, 0.5)];
    assert Windows(cfg, calls[..2][..1]) == map[key := Window(1, 10.5)];
    assert Windows(cfg, calls[..2]) == map[key := Window(1, 10.5)];
    assert (1.5).Floor == 1 && (0.5).Floor == 0;
    assert calls[..2][..1][..0] == [];
    assert Answers(cfg, calls[..2][..1]) == [Answer(true, 0)];
    assert Answers(cfg, calls[..2]) == [Answer(true, 0), Answer(false, 1)];
  }

  // ----- the limiter as the code writes it -----

  class FixedWindowLimiter {
    const cfg: Config
    var buckets: Buckets
    var lastSweep: real

    ghost function State(): Store
      reads this
    {
      Store(buckets, lastSweep)
    }

    constructor (limit: int, window: int)
      ensures cfg == Config(limit, window) && State() == EMPTY
    {
      cfg := Config(limit, window);
      buckets, lastSweep := map[], 0.0;
    }

    method Sweep(now: real)
      modifies this
      ensures State() == Swept(cfg, old(State()), now)
    {
      if now - lastSweep < cfg.window as real {
        return;
      }
      lastSweep := now;
      var expired := set k | k in buckets && buckets[k].resetAt <= now;
      while expired != {}
        invariant lastSweep == now && expired <= buckets.Keys <= old(buckets).Keys
        invariant forall k :: k in buckets ==>
                  buckets[k] == old(buckets)[k] && (buckets[k].resetAt > now || k in expired)
        invariant forall k :: k in old(buckets) && old(buckets)[k].resetAt > now ==> k in buckets && k !in expired
        decreases expired
      {
        var k :| k in expired;
        buckets := buckets - {k};
        expired := expired - {k};
      }
      assert buckets == Swept(cfg, old(State()), now).buckets;
    }

    /** Counts the event when it is let in. */
    method Check(key: Key, now: real) returns (allowed: bool, retryAfter: int)
      modifies this
      ensures State() == Checked(cfg, old(State()), Call(key, now))
      ensures Answer(allowed, retryAfter) == CheckAnswer(cfg, old(State()), Call(key, now))
      ensures cfg.limit <= 0 ==> allowed && State() == old(State())
      ensures cfg.limit > 0 ==>
                (allowed <==> !(key in old(buckets) && now < old(buckets)[key].resetAt
                                && old(buckets)[key].count >= cfg.limit))
      ensures forall k :: k in old(buckets) && k != key && now < old(buckets)[k].resetAt ==>
                k in buckets && buckets[k] == old(buckets)[k]
    {
      if cfg.limit <= 0 {
        return true, 0;
      }
      Sweep(now);
      if key !in buckets || buckets[key].resetAt <= now {
        buckets := buckets[key := Window(1, now + cfg.window as real)];
        return true, 0;
      }
      if buckets[key].count >= cfg.limit {
        return false, Max(1, (buckets[key].resetAt - now).Floor);
      }
      buckets := buckets[key := buckets[key].(count := buckets[key].count + 1)];
      return true, 0;
    }
  }
}
