/** What every interleaving of the remediation actors keeps. */
module RemediationSafety {
  import opened Prelude
  import opened RemediationModel

  // ----- claims -----

  /** Clocks, claims and the workers that hold them. */
  ghost predicate ClaimInv(s: System) {
    && (forall id :: id in s.rows ==> id < s.next && s.rows[id].createdAt <= s.clock)
    && (forall id :: id in s.rows && s.rows[id].executedAt.Some? ==> s.rows[id].executedAt.value <= s.clock)
    && (forall w :: w in s.workers ==> s.workers[w].startedAt <= s.clock <= s.workers[w].startedAt + TASK_TIME_LIMIT)
    && (forall w :: InWindow(s, w) ==> Holds(s, w))
    && (forall v, w :: InWindow(s, v) && InWindow(s, w) && s.workers[v].execution == s.workers[w].execution ==> v == w)
    && (forall k :: 0 <= k < |s.log| && s.log[k].Claim? ==> StampKept(s, s.log[k].id, s.log[k].at))
    && ClaimsSpaced(s.log)
  }

  /** The row still carries the stamp of the worker's own claim. */
  ghost predicate Holds(s: System, w: nat)
    requires InWindow(s, w)
  {
    var wk := s.workers[w];
    && wk.startedAt <= wk.phase.stamp <= s.clock
    && wk.execution in s.rows && s.rows[wk.execution].executedAt == Some(wk.phase.stamp)
  }

  ghost predicate StampKept(s: System, id: Id, at: int) {
    id in s.rows && s.rows[id].executedAt.Some? && at <= s.rows[id].executedAt.value
  }

  /** Two successful claims of one execution are more than ten minutes apart. */
  ghost predicate ClaimsSpaced(log: seq<Event>) {
    forall j, k :: 0 <= j < k < |log| && log[j].Claim? && log[k].Claim? && log[j].id == log[k].id
      ==> log[k].at > log[j].at + STALE_INFLIGHT
  }

  lemma {:induction false} CreateAllKeeps(b: Batch, hooks: seq<Hook>, scan: nat, risk: real, now: int)
    requires forall id :: id in b.rows ==> id < b.next
    ensures var c := CreateAll(b, hooks, scan, risk, now);
            && b.next <= c.next && b.log <= c.log
            && (forall id :: id in b.rows ==> id in c.rows && c.rows[id] == b.rows[id])
            && (forall id :: id in c.rows ==> id < c.next)
            && (forall id :: id in c.rows && id !in b.rows ==>
                  b.next <= id && c.rows[id].createdAt == now && c.rows[id].executedAt.None?
                      && c.rows[id].confirmedAt.None?
                  && c.rows[id].status in {PendingConfirm, Queued})
            && (forall k :: |b.log| <= k < |c.log| ==> c.log[k].AutoQueued? || c.log[k].Parked?)
  {
    if hooks != [] {
      CreateAllKeeps(b, hooks[..|hooks| - 1], scan, risk, now);
    }
  }

  /** A step that neither claims nor writes an outcome. */
  ghost predicate Unclaiming(s: System, t: System) {
    && t.clock == s.clock && s.next <= t.next && s.log <= t.log
    && (forall id :: id in s.rows ==> SameStamps(t.rows, id, s.rows[id]))
    && (forall id :: id in t.rows && id !in s.rows ==>
          id < t.next && t.rows[id].createdAt == s.clock && t.rows[id].executedAt.None?)
    && (forall w :: w in t.workers ==> SameWorker(s, t.workers[w], w))
    && (forall k :: |s.log| <= k < |t.log| ==> !t.log[k].Claim?)
  }

  ghost predicate SameStamps(rows: Rows, id: Id, r: Row) {
    id in rows && rows[id].executedAt == r.executedAt && rows[id].createdAt == r.createdAt
  }

  ghost predicate SameWorker(s: System, wk: Worker, w: nat) {
    if w !in s.workers then wk.phase == Checked && wk.startedAt == s.clock
    else
      && wk.execution == s.workers[w].execution && wk.startedAt == s.workers[w].startedAt
      && (wk.phase == s.workers[w].phase
          || (s.workers[w].phase.Claimed? && wk.phase.Posted? && wk.phase.stamp == s.workers[w].phase.stamp))
  }

  lemma UnclaimingKeeps(s: System, t: System)
    requires ClaimInv(s) && Unclaiming(s, t)
    ensures ClaimInv(t)
  {
    forall w | InWindow(t, w) ensures InWindow(s, w) && Holds(t, w) {
      assert SameWorker(s, t.workers[w], w);
      assert InWindow(s, w) && Holds(s, w);
    }
    forall k | 0 <= k < |t.log| && t.log[k].Claim? ensures StampKept(t, t.log[k].id, t.log[k].at) {
      assert t.log[k] == s.log[k];
    }
    assert ClaimsSpaced(t.log) by {
      assert forall k :: 0 <= k < |t.log| && t.log[k].Claim? ==> k < |s.log| && t.log[k] == s.log[k];
    }
  }

  predicate Settles(a: Action) { a.TryClaim? || a.GiveUp? || a.Outcome? }

  lemma CreateUnclaiming(s: System, a: Action)
    requires ClaimInv(s) && a.Create?
    ensures Unclaiming(s, ApplyCreate(s, a))
  {
    hide ClaimsSpaced, StampKept, Holds, CreateAll;
    CreateAllKeeps(Batch(s.rows, s.next, [], s.log), a.hooks, a.scan, a.risk, s.clock);
  }

  lemma OperatorsUnclaiming(s: System, a: Action)
    requires ClaimInv(s) && (a.Confirm? || a.Enqueue? || a.Dismiss?)
    ensures Unclaiming(s, Apply(s, a))
  {
    hide ClaimsSpaced, StampKept, Holds, InWindow, ApplyCreate, ApplyTryClaim, ApplyStart, WriteOutcome, IsSweep, Kept;
  }

  lemma MessagesUnclaiming(s: System, a: Action)
    requires ClaimInv(s) && (a.ConfirmerDies? || a.Resweep? || a.Redeliver?)
    ensures Unclaiming(s, Apply(s, a))
  {
    hide ClaimsSpaced, StampKept, Holds, InWindow;
  }

  lemma WorkersUnclaiming(s: System, a: Action)
    requires ClaimInv(s) && (a.Start? || a.Send? || a.WorkerDies?)
    ensures Unclaiming(s, Apply(s, a))
  {
    hide ClaimsSpaced, StampKept, Holds;
  }

  lemma SpacedSnoc(log: seq<Event>, id: Id, at: int)
    requires ClaimsSpaced(log)
    requires forall k :: 0 <= k < |log| && log[k].Claim? && log[k].id == id ==> at > log[k].at + STALE_INFLIGHT
    ensures ClaimsSpaced(log + [Claim(id, at)])
  {
  }

  lemma ClaimTaken(s: System, a: Action)
    requires ClaimInv(s) && a.TryClaim? && Apply(s, a).log != s.log
    ensures ClaimInv(Apply(s, a))
  {
    hide ClaimsSpaced;
    var t := Apply(s, a);
    var id := s.workers[a.w].execution;
    forall w | InWindow(t, w) && w != a.w ensures Holds(t, w) && t.workers[w].execution != id {
      assert InWindow(s, w) && Holds(s, w);
    }
    assert Holds(t, a.w);
    forall k | 0 <= k < |s.log| && s.log[k].Claim? ensures StampKept(t, s.log[k].id, s.log[k].at)
      && (s.log[k].id == id ==> a.now > s.log[k].at + STALE_INFLIGHT) {
      assert StampKept(s, s.log[k].id, s.log[k].at);
    }
    SpacedSnoc(s.log, id, a.now);
  }

  lemma ClaimRefused(s: System, a: Action)
    requires ClaimInv(s) && a.TryClaim? && Apply(s, a).log == s.log
    ensures ClaimInv(Apply(s, a))
  {
    hide ClaimsSpaced, StampKept, Holds;
    assert Unclaiming(s, Apply(s, a));
    UnclaimingKeeps(s, Apply(s, a));
  }

  lemma OutcomeWritten(s: System, w: nat, status: Status, now: int)
    requires ClaimInv(s) && InWindow(s, w) && s.workers[w].phase.stamp <= now <= s.clock
    ensures ClaimInv(WriteOutcome(s, w, status, now))
  {
    var t := WriteOutcome(s, w, status, now);
    assert Holds(s, w);
    forall v | InWindow(t, v) ensures InWindow(s, v) && Holds(t, v) {
      assert InWindow(s, v) && Holds(s, v);
    }
    forall k | 0 <= k < |s.log| && s.log[k].Claim? ensures StampKept(t, s.log[k].id, s.log[k].at) {
      assert StampKept(s, s.log[k].id, s.log[k].at);
    }
  }

  lemma ClaimStep(s: System, a: Action)
    requires ClaimInv(s)
    ensures ClaimInv(Apply(s, a))
  {
    if a.Tick? {
      var t := Apply(s, a);
      forall w | InWindow(t, w) ensures Holds(t, w) {
        assert InWindow(s, w) && Holds(s, w);
      }
      assert forall id, at :: StampKept(s, id, at) ==> StampKept(t, id, at);
    } else if a.TryClaim? {
      if Apply(s, a).log == s.log {
        ClaimRefused(s, a);
      } else {
        ClaimTaken(s, a);
      }
    } else if a.GiveUp? && Apply(s, a) != s {
      OutcomeWritten(s, a.w, Failed, a.now);
    } else if a.Outcome? && Apply(s, a) != s {
      OutcomeWritten(s, a.w, if s.workers[a.w].phase.ok then Succeeded else Failed, a.now);
    } else if !Settles(a) {
      if a.Create? {
        CreateUnclaiming(s, a);
      } else if a.Start? || a.Send? || a.WorkerDies? {
        WorkersUnclaiming(s, a);
      } else if a.Confirm? || a.Enqueue? || a.Dismiss? {
        OperatorsUnclaiming(s, a);
      } else {
        MessagesUnclaiming(s, a);
      }
      UnclaimingKeeps(s, Apply(s, a));
    }
  }

  lemma {:induction false} ClaimRun(clock: int, acts: seq<Action>)
    ensures ClaimInv(Run(Init(clock), acts))
  {
    if acts != [] {
      ClaimRun(clock, acts[..|acts| - 1]);
      ClaimStep(Run(Init(clock), acts[..|acts| - 1]), acts[|acts| - 1]);
    }
  }

  /** At most one worker is ever between claim and outcome of an execution, and
      its claims are spaced. */
  lemma {:induction false} ClaimSpacing(clock: int, acts: seq<Action>)
    ensures var s := Run(Init(clock), acts);
            && ClaimsSpaced(s.log)
            && forall v, w :: InWindow(s, v) && InWindow(s, w) && s.workers[v].execution == s.workers[w].execution ==>
                  v == w
  {
    ClaimRun(clock, acts);
  }

  // ----- the auto-fire cooldown, and who may cause a POST -----

  /** A row created queued keeps its place in the cooldown query for ever. */
  ghost predicate AutoRow(rows: Rows, e: Event)
    requires e.AutoQueued?
  {
    && e.id in rows && rows[e.id].hook == e.hook && rows[e.id].createdAt == e.at
    && rows[e.id].confirmedAt.None? && Attempted(rows[e.id])
  }

  /** Unattended firings of one hook are created at least 30 minutes apart. */
  ghost predicate CooldownKept(log: seq<Event>) {
    forall j, k :: 0 <= j < k < |log| && log[j].AutoQueued? && log[k].AutoQueued? && log[j].hook == log[k].hook
      ==> log[k].at >= log[j].at + AUTO_FIRE_COOLDOWN
  }

  ghost predicate Authorized(log: seq<Event>, id: Id) {
    exists k :: 0 <= k < |log| && (log[k].AutoQueued? || log[k].Confirmed?) && log[k].id == id
  }

  /** Every POST comes after an unattended creation or an operator's confirm. */
  ghost predicate PostsAuthorized(log: seq<Event>) {
    forall k :: 0 <= k < |log| && log[k].Post? ==> Authorized(log[..k], log[k].id)
  }

  ghost predicate AutoInv(rows: Rows, log: seq<Event>) {
    && (forall k :: 0 <= k < |log| && log[k].AutoQueued? ==> AutoRow(rows, log[k]))
    && CooldownKept(log)
    && (forall id :: id in rows && Attempted(rows[id]) ==> Authorized(log, id))
    && PostsAuthorized(log)
  }

  ghost predicate CooldownInv(s: System) {
    && AutoInv(s.rows, s.log)
    && (forall id :: id in s.rows ==> id < s.next)
    && (forall r :: r in s.confirmers ==> s.confirmers[r] in s.rows && s.rows[s.confirmers[r]].confirmedAt.Some?)
    && (forall w :: w in s.workers ==> Authorized(s.log, s.workers[w].execution))
  }

  lemma AuthorizedLater(log: seq<Event>, longer: seq<Event>, id: Id)
    requires Authorized(log, id) && log <= longer
    ensures Authorized(longer, id)
  {
    var k :| 0 <= k < |log| && (log[k].AutoQueued? || log[k].Confirmed?) && log[k].id == id;
    assert longer[k] == log[k];
  }

  lemma PostsAuthorizedSnoc(log: seq<Event>, e: Event)
    requires PostsAuthorized(log) && (e.Post? ==> Authorized(log, e.id))
    ensures PostsAuthorized(log + [e])
  {
    var longer := log + [e];
    forall k | 0 <= k < |longer| && longer[k].Post? ensures Authorized(longer[..k], longer[k].id) {
      assert longer[..k] == log[..k];
      assert k == |log| ==> log[..k] == log;
    }
  }

  /** One more event, none of them an unattended creation. */
  lemma AutoInvSnoc(rows: Rows, rows': Rows, log: seq<Event>, e: Event)
    requires AutoInv(rows, log) && !e.AutoQueued? && (e.Post? ==> Authorized(log, e.id))
    requires forall k :: 0 <= k < |log| && log[k].AutoQueued? ==> AutoRow(rows', log[k])
    requires forall id :: id in rows' && Attempted(rows'[id]) ==> Authorized(log, id) || (e.Confirmed? && e.id == id)
    ensures AutoInv(rows', log + [e])
  {
    PostsAuthorizedSnoc(log, e);
    forall id | id in rows' && Attempted(rows'[id]) ensures Authorized(log + [e], id) {
      if Authorized(log, id) {
        AuthorizedLater(log, log + [e], id);
      } else {
        assert (log + [e])[|log|] == e;
      }
    }
  }

  lemma CreateOneCooldown(b: Batch, h: Hook, scan: nat, risk: real, now: int)
    requires AutoInv(b.rows, b.log) && forall id :: id in b.rows ==> id < b.next
    ensures AutoInv(CreateOne(b, h, scan, risk, now).rows, CreateOne(b, h, scan, risk, now).log)
  {
    if Creates(b.rows, h, scan, risk) {
      var r := FreshRow(b.rows, h, scan, now);
      var rows := b.rows[b.next := r];
      if r.status == Queued {
        var e := AutoQueued(b.next, h.id, now);
        assert !Cooled(b.rows, h.id, now);
        PostsAuthorizedSnoc(b.log, e);
        assert (b.log + [e])[|b.log|] == e;
        forall id | id in rows && Attempted(rows[id]) ensures Authorized(b.log + [e], id) {
          if id != b.next {
            AuthorizedLater(b.log, b.log + [e], id);
          }
        }
        forall k | 0 <= k < |b.log| && b.log[k].AutoQueued? ensures AutoRow(rows, b.log[k])
          && (b.log[k].hook == h.id ==> now >= b.log[k].at + AUTO_FIRE_COOLDOWN) {
          assert AutoRow(b.rows, b.log[k]);
        }
      } else {
        AutoInvSnoc(b.rows, rows, b.log, Parked(b.next));
      }
    }
  }

  lemma {:induction false} CreateAllCooldown(b: Batch, hooks: seq<Hook>, scan: nat, risk: real, now: int)
    requires AutoInv(b.rows, b.log) && forall id :: id in b.rows ==> id < b.next
    ensures AutoInv(CreateAll(b, hooks, scan, risk, now).rows, CreateAll(b, hooks, scan, risk, now).log)
  {
    if hooks != [] {
      var shorter := hooks[..|hooks| - 1];
      CreateAllCooldown(b, shorter, scan, risk, now);
      CreateAllKeeps(b, shorter, scan, risk, now);
      CreateOneCooldown(CreateAll(b, shorter, scan, risk, now), hooks[|hooks| - 1], scan, risk, now);
    }
  }

  lemma CooldownCreate(s: System, a: Action)
    requires CooldownInv(s) && a.Create?
    ensures CooldownInv(Apply(s, a))
  {
    hide AutoInv, Authorized;
    CreateAllCooldown(Batch(s.rows, s.next, [], s.log), a.hooks, a.scan, a.risk, s.clock);
    CreateAllKeeps(Batch(s.rows, s.next, [], s.log), a.hooks, a.scan, a.risk, s.clock);
    forall w | w in s.workers ensures Authorized(Apply(s, a).log, s.workers[w].execution) {
      AuthorizedLater(s.log, Apply(s, a).log, s.workers[w].execution);
    }
  }

  /** Row changes that leave the unattended rows and the log alone. */
  lemma CooldownRow(s: System, id: Id, r: Row)
    requires CooldownInv(s) && id in s.rows
    requires r.hook == s.rows[id].hook && r.createdAt == s.rows[id].createdAt
    requires s.rows[id].confirmedAt.None? ==> Attempted(s.rows[id]) ==> r.confirmedAt.None? && Attempted(r)
    requires Attempted(r) ==> Authorized(s.log, id)
    ensures AutoInv(s.rows[id := r], s.log)
  {
  }

  lemma WorkersAuthorized(s: System, t: System)
    requires s.log <= t.log
    requires forall w :: w in t.workers ==> Authorized(s.log, t.workers[w].execution)
    ensures forall w :: w in t.workers ==> Authorized(t.log, t.workers[w].execution)
  {
    forall w | w in t.workers ensures Authorized(t.log, t.workers[w].execution) {
      AuthorizedLater(s.log, t.log, t.workers[w].execution);
    }
  }

  /** The three steps that log something: confirm, claim and send. */
  lemma CooldownLogged(s: System, a: Action)
    requires CooldownInv(s) && (a.Confirm? || a.TryClaim? || a.Send?) && Apply(s, a).log != s.log
    ensures CooldownInv(Apply(s, a))
  {
    hide Authorized, PostsAuthorized, CooldownKept;
    var t := Apply(s, a);
    WorkersAuthorized(s, t);
    AutoInvSnoc(s.rows, t.rows, s.log, t.log[|s.log|]);
  }

  lemma CooldownUnlogged(s: System, a: Action)
    requires CooldownInv(s) && Apply(s, a).rows == s.rows && Apply(s, a).log == s.log && !a.Create?
    ensures CooldownInv(Apply(s, a))
  {
    hide Authorized, PostsAuthorized, CooldownKept, AutoRow;
  }

  lemma CooldownOperator(s: System, a: Action)
    requires CooldownInv(s) && (a.Enqueue? || a.Dismiss?) && Apply(s, a).rows != s.rows
    ensures CooldownInv(Apply(s, a))
  {
    hide Authorized, AutoInv;
    if a.Enqueue? {
      CooldownRow(s, s.confirmers[a.req], s.rows[s.confirmers[a.req]].(status := PendingConfirm));
    } else {
      CooldownRow(s, a.id, DismissRow(s.rows[a.id], a.now));
    }
  }

  lemma CooldownStep(s: System, a: Action)
    requires CooldownInv(s)
    ensures CooldownInv(Apply(s, a))
  {
    hide CooldownInv;
    var t := Apply(s, a);
    if a.Create? {
      CooldownCreate(s, a);
    } else if a.GiveUp? {
      if t != s {
        CooldownOutcome(s, a.w, Failed, a.now);
      }
    } else if a.Outcome? {
      if t != s {
        CooldownOutcome(s, a.w, if s.workers[a.w].phase.ok then Succeeded else Failed, a.now);
      }
    } else if t.log != s.log {
      CooldownLogged(s, a);
    } else if t.rows != s.rows {
      CooldownOperator(s, a);
    } else {
      CooldownUnlogged(s, a);
    }
  }

  lemma CooldownOutcome(s: System, w: nat, status: Status, now: int)
    requires CooldownInv(s) && w in s.workers && status in {Succeeded, Failed}
    ensures CooldownInv(WriteOutcome(s, w, status, now))
  {
    var id := s.workers[w].execution;
    if id in s.rows {
      CooldownRow(s, id, s.rows[id].(status := status, executedAt := Some(now)));
    }
  }

  lemma {:induction false} CooldownRun(clock: int, acts: seq<Action>)
    ensures CooldownInv(Run(Init(clock), acts))
  {
    if acts != [] {
      CooldownRun(clock, acts[..|acts| - 1]);
      CooldownStep(Run(Init(clock), acts[..|acts| - 1]), acts[|acts| - 1]);
    }
  }

  lemma {:induction false} AutoFireCooldown(clock: int, acts: seq<Action>)
    ensures var s := Run(Init(clock), acts);
            && CooldownKept(s.log)
            && PostsAuthorized(s.log)
            && forall k :: 0 <= k < |s.log| && s.log[k].AutoQueued? ==> AutoRow(s.rows, s.log[k])
  {
    CooldownRun(clock, acts);
  }
}
