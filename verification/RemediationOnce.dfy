/** How often one execution is POSTed: once, except after one of two steps that
    make the table forget a delivery. */
module RemediationOnce {
  import opened Prelude
  import opened RemediationModel
  import opened RemediationSafety
  import opened RemediationOrder

  predicate Ended(rows: Rows, id: Id) { id in rows && rows[id].status in {Succeeded, Failed} }

  /** A worker has called the webhook and not yet written the outcome. */
  predicate Unrecorded(s: System, w: nat, id: Id) {
    w in s.workers && s.workers[w].phase.Posted? && s.workers[w].execution == id
  }

  /** The delivery is recorded, or somebody alive is about to record it. */
  ghost predicate Handled(s: System, id: Id) { Ended(s.rows, id) || exists w :: Unrecorded(s, w, id) }

  predicate Posts(s: System, a: Action, id: Id) {
    a.Send? && InWindow(s, a.w) && s.workers[a.w].phase.Claimed? && s.workers[a.w].execution == id
  }

  /** The worker dies after the POST and before the outcome is committed, or a
      confirm is taken back whose row already has its outcome. */
  predicate Forgets(s: System, a: Action, id: Id) {
    || (a.WorkerDies? && Unrecorded(s, a.w, id))
    || (TakesBack(s, a, id) && Ended(s.rows, id))
  }

  /** Nobody holds a claim on a row that has its outcome. */
  ghost predicate OpenInv(s: System) {
    ClaimInv(s) && forall w :: InWindow(s, w) ==> !Ended(s.rows, s.workers[w].execution)
  }

  // ----- claims stay on open rows -----

  /** No row ends and nobody enters the window. */
  ghost predicate Opens(s: System, t: System) {
    && (forall id :: Ended(t.rows, id) ==> Ended(s.rows, id))
    && (forall w :: InWindow(t, w) ==> InWindow(s, w) && t.workers[w].execution == s.workers[w].execution)
  }

  lemma OperatorsOpen(s: System, a: Action)
    requires a.Confirm? || a.Enqueue? || a.ConfirmerDies? || a.Dismiss?
    ensures Opens(s, Apply(s, a))
  {
    hide ApplyCreate, IsSweep;
  }

  lemma MessagesOpen(s: System, a: Action)
    requires a.Tick? || a.Resweep? || a.Redeliver? || a.Start? || a.Send? || a.WorkerDies?
    ensures Opens(s, Apply(s, a))
  {
    hide ApplyCreate, IsSweep;
  }

  lemma CreateOpens(s: System, a: Action)
    requires ClaimInv(s) && a.Create?
    ensures Opens(s, Apply(s, a))
  {
    CreateAllKeeps(Batch(s.rows, s.next, [], s.log), a.hooks, a.scan, a.risk, s.clock);
    hide ClaimInv, CreateAll;
  }

  lemma OutcomeOpens(s: System, w: nat, status: Status, now: int)
    requires OpenInv(s) && InWindow(s, w)
    ensures var t := WriteOutcome(s, w, status, now);
            forall v :: InWindow(t, v) ==> !Ended(t.rows, t.workers[v].execution)
  {
    hide ClaimsSpaced, StampKept, Holds;
    var t := WriteOutcome(s, w, status, now);
    forall v | InWindow(t, v) ensures !Ended(t.rows, t.workers[v].execution) {
      assert InWindow(s, v) && v != w;
    }
  }

  lemma ClaimOpens(s: System, a: Action)
    requires OpenInv(s) && a.TryClaim?
    ensures forall v :: InWindow(Apply(s, a), v) ==> !Ended(Apply(s, a).rows, Apply(s, a).workers[v].execution)
  {
    hide ClaimInv;
    var t := Apply(s, a);
    forall v | InWindow(t, v) ensures !Ended(t.rows, t.workers[v].execution) {
      assert v != a.w ==> InWindow(s, v);
    }
  }

  lemma OpenStep(s: System, a: Action)
    requires OpenInv(s)
    ensures OpenInv(Apply(s, a))
  {
    ClaimStep(s, a);
    if a.TryClaim? {
      ClaimOpens(s, a);
    } else if a.GiveUp? || a.Outcome? {
      hide ClaimInv;
      if Apply(s, a) != s {
        var status := if a.GiveUp? then Failed else if s.workers[a.w].phase.ok then Succeeded else Failed;
        OutcomeOpens(s, a.w, status, a.now);
      }
    } else {
      if a.Create? {
        CreateOpens(s, a);
      } else if a.Confirm? || a.Enqueue? || a.ConfirmerDies? || a.Dismiss? {
        OperatorsOpen(s, a);
      } else {
        MessagesOpen(s, a);
      }
      hide Apply, ClaimInv, Ended, InWindow;
      assert Opens(s, Apply(s, a));
    }
  }

  lemma {:induction false} OpenRun(clock: int, acts: seq<Action>)
    ensures OpenInv(Run(Init(clock), acts))
  {
    if acts != [] {
      OpenRun(clock, acts[..|acts| - 1]);
      hide OpenInv, Apply;
      OpenStep(Run(Init(clock), acts[..|acts| - 1]), acts[|acts| - 1]);
    } else {
      hide Ended;
    }
  }

  // ----- a handled delivery stays handled -----

  lemma HandledStep(s: System, a: Action, id: Id)
    requires OpenInv(s) && Handled(s, id)
    ensures Handled(Apply(s, a), id) <==> !Forgets(s, a, id)
  {
    hide OpenInv, Handled;
    if a.Create? {
      CreateHandled(s, a, id);
    } else if a.GiveUp? || a.Outcome? {
      OutcomeHandled(s, a, id);
    } else if a.WorkerDies? {
      DeathHandled(s, a, id);
    } else if a.Confirm? || a.Enqueue? || a.ConfirmerDies? || a.Dismiss? {
      OperatorHandled(s, a, id);
    } else {
      MessageHandled(s, a, id);
    }
  }

  lemma CreateHandled(s: System, a: Action, id: Id)
    requires OpenInv(s) && Handled(s, id) && a.Create?
    ensures Handled(Apply(s, a), id)
  {
    CreateAllKeeps(Batch(s.rows, s.next, [], s.log), a.hooks, a.scan, a.risk, s.clock);
    hide ClaimInv, CreateAll;
    if w :| Unrecorded(s, w, id) {
      assert Unrecorded(Apply(s, a), w, id);
    }
  }

  lemma OutcomeHandled(s: System, a: Action, id: Id)
    requires OpenInv(s) && Handled(s, id) && (a.GiveUp? || a.Outcome?)
    ensures Handled(Apply(s, a), id)
  {
    hide ApplyCreate, ApplyStart, ApplyTryClaim, IsSweep, ClaimsSpaced, StampKept;
    if w :| Unrecorded(s, w, id) {
      assert InWindow(s, w) && Holds(s, w);
      assert w != a.w ==> Unrecorded(Apply(s, a), w, id);
    }
  }

  /** At most one worker has an outcome to record, and then there is none yet. */
  lemma OneUnrecorded(s: System, id: Id)
    requires OpenInv(s)
    ensures forall v, w :: Unrecorded(s, v, id) && Unrecorded(s, w, id) ==> v == w
    ensures forall w :: Unrecorded(s, w, id) ==> !Ended(s.rows, id)
  {
    hide ClaimsSpaced, StampKept, Holds, Ended;
    assert forall w :: Unrecorded(s, w, id) ==> InWindow(s, w);
  }

  lemma DeathHandled(s: System, a: Action, id: Id)
    requires OpenInv(s) && Handled(s, id) && a.WorkerDies?
    ensures Handled(Apply(s, a), id) <==> !Forgets(s, a, id)
  {
    OneUnrecorded(s, id);
    hide ClaimInv, ApplyCreate;
    forall w ensures Unrecorded(Apply(s, a), w, id) <==> Unrecorded(s, w, id) && w != a.w {}
  }

  lemma OperatorHandled(s: System, a: Action, id: Id)
    requires OpenInv(s) && Handled(s, id) && (a.Confirm? || a.Enqueue? || a.ConfirmerDies? || a.Dismiss?)
    ensures Handled(Apply(s, a), id) <==> !Forgets(s, a, id)
  {
    OneUnrecorded(s, id);
    hide ClaimInv, ApplyCreate;
    forall w ensures Unrecorded(Apply(s, a), w, id) <==> Unrecorded(s, w, id) {}
  }

  lemma MessageHandled(s: System, a: Action, id: Id)
    requires Handled(s, id)
    requires a.Tick? || a.Resweep? || a.Redeliver? || a.Start? || a.TryClaim? || a.Send?
    ensures Handled(Apply(s, a), id)
  {
    hide ApplyCreate, IsSweep;
    if w :| Unrecorded(s, w, id) {
      assert Unrecorded(Apply(s, a), w, id);
    }
  }

  /** What is handled is not sent again. */
  lemma PostsUnhandled(s: System, a: Action, id: Id)
    requires OpenInv(s) && Posts(s, a, id)
    ensures !Handled(s, id)
  {
    hide ClaimsSpaced, StampKept, Holds, Ended;
    assert forall w :: Unrecorded(s, w, id) ==> InWindow(s, w);
  }

  lemma PostHandles(s: System, a: Action, id: Id)
    requires Posts(s, a, id)
    ensures Handled(Apply(s, a), id)
  {
    assert Unrecorded(Apply(s, a), a.w, id);
  }

  // ----- whole runs -----

  lemma {:induction false} HandledUntil(clock: int, acts: seq<Action>, i: nat, j: nat, id: Id)
    requires i < j <= |acts| && Posts(StateAt(clock, acts, i), acts[i], id)
    requires forall m {:trigger StateAt(clock, acts, m)} :: i < m < j ==> !Forgets(StateAt(clock, acts, m), acts[m], id)
    ensures Handled(StateAt(clock, acts, j), id)
  {
    hide Apply, Forgets, Handled, Posts;
    NextState(clock, acts, j - 1);
    if j == i + 1 {
      PostHandles(StateAt(clock, acts, i), acts[i], id);
    } else {
      HandledUntil(clock, acts, i, j - 1, id);
      OpenRun(clock, acts[..j - 1]);
      HandledStep(StateAt(clock, acts, j - 1), acts[j - 1], id);
    }
  }

  /** In every run: between two POSTs of one execution a worker died between its
      POST and its outcome, or a confirm was taken back after the outcome. */
  lemma PostedAgainAfterForgetting(clock: int, acts: seq<Action>, i: nat, j: nat, id: Id) returns (m: nat)
    requires i < j < |acts| && Posts(StateAt(clock, acts, i), acts[i], id)
             && Posts(StateAt(clock, acts, j), acts[j], id)
    ensures i < m < j && Forgets(StateAt(clock, acts, m), acts[m], id)
  {
    hide Apply, Forgets, Handled, Posts;
    if forall k {:trigger StateAt(clock, acts, k)} :: i < k < j ==> !Forgets(StateAt(clock, acts, k), acts[k], id) {
      HandledUntil(clock, acts, i, j, id);
      OpenRun(clock, acts[..j]);
      PostsUnhandled(StateAt(clock, acts, j), acts[j], id);
      assert false;
    } else {
      m :| i < m < j && Forgets(StateAt(clock, acts, m), acts[m], id);
    }
  }

  /** The log says POST exactly where a step posts. */
  lemma LogStep(s: System, a: Action, id: Id)
    requires ClaimInv(s)
    ensures s.log <= Apply(s, a).log
    ensures forall k :: |s.log| <= k < |Apply(s, a).log| ==>
              (Apply(s, a).log[k] == Post(id) <==> Posts(s, a, id) && k == |s.log|)
    ensures Posts(s, a, id) ==> |Apply(s, a).log| == |s.log| + 1
  {
    if a.Create? {
      CreateAllKeeps(Batch(s.rows, s.next, [], s.log), a.hooks, a.scan, a.risk, s.clock);
    }
    hide ClaimInv, CreateAll, IsSweep;
  }

  ghost predicate NeverForgets(clock: int, acts: seq<Action>, n: nat, id: Id)
    requires n <= |acts|
  {
    forall m {:trigger StateAt(clock, acts, m)} :: 0 <= m < n ==> !Forgets(StateAt(clock, acts, m), acts[m], id)
  }

  predicate AtMostOnce(log: seq<Event>, id: Id) {
    forall j, k :: 0 <= j < k < |log| && log[j] == Post(id) ==> log[k] != Post(id)
  }

  lemma OnceMore(log: seq<Event>, longer: seq<Event>, id: Id, posts: bool)
    requires log <= longer && AtMostOnce(log, id) && (posts ==> Post(id) !in log)
    requires forall k :: |log| <= k < |longer| ==> (longer[k] == Post(id) <==> posts && k == |log|)
    ensures AtMostOnce(longer, id) && (Post(id) in longer ==> Post(id) in log || posts)
  {
    forall j, k | 0 <= j < k < |longer| && longer[j] == Post(id) ensures longer[k] != Post(id) {
      assert j < |log| ==> longer[j] == log[j];
      assert k < |log| ==> longer[k] == log[k];
    }
    if Post(id) in longer {
      var k :| 0 <= k < |longer| && longer[k] == Post(id);
      assert k < |log| ==> longer[k] == log[k];
    }
  }

  lemma {:induction false} OnceUpTo(clock: int, acts: seq<Action>, n: nat, id: Id)
    requires n <= |acts| && NeverForgets(clock, acts, n, id)
    ensures AtMostOnce(StateAt(clock, acts, n).log, id)
    ensures Post(id) in StateAt(clock, acts, n).log ==> Handled(StateAt(clock, acts, n), id)
  {
    hide Apply, Forgets, Handled, Posts, AtMostOnce;
    if n == 0 {
      NothingPosted(clock, acts, id);
    } else {
      OnceUpTo(clock, acts, n - 1, id);
      var s, a := StateAt(clock, acts, n - 1), acts[n - 1];
      NextState(clock, acts, n - 1);
      OpenRun(clock, acts[..n - 1]);
      OpenClaim(s);
      LogStep(s, a, id);
      if Posts(s, a, id) {
        PostsUnhandled(s, a, id);
        PostHandles(s, a, id);
      } else if Handled(s, id) {
        HandledStep(s, a, id);
      }
      OnceMore(s.log, Apply(s, a).log, id, Posts(s, a, id));
    }
  }

  lemma NothingPosted(clock: int, acts: seq<Action>, id: Id)
    ensures StateAt(clock, acts, 0).log == [] && AtMostOnce(StateAt(clock, acts, 0).log, id)
  {
  }

  lemma OpenClaim(s: System)
    requires OpenInv(s)
    ensures ClaimInv(s)
  {
  }

  /** A run without those two steps for an execution POSTs it at most once. */
  lemma {:induction false} PostedOnce(clock: int, acts: seq<Action>, id: Id)
    requires NeverForgets(clock, acts, |acts|, id)
    ensures AtMostOnce(Run(Init(clock), acts).log, id)
  {
    OnceUpTo(clock, acts, |acts|, id);
    assert acts[..|acts|] == acts;
  }

  // ----- the crash is real -----

  const AUTO_HOOK := Hook(1, 0.5, false)
  const QUEUE_UP := [Create(7, 0.9, [AUTO_HOOK], true, {0}), Redeliver(0), Start(0, 0), TryClaim(0, 0)]
  const CRASH := [Send(0, true), WorkerDies(0), Tick(LATER), Redeliver(0)]
  const CLAIM_AGAIN := [Start(0, 0), TryClaim(0, LATER), Send(0, true), WorkerDies(0)]

  function AutoRowIn(executed: Option<int>): Rows { map[0 := Row(1, 7, Queued, 0, None, executed)] }

  ghost const ClaimedOnce: System :=
    System(0, AutoRowIn(Some(0)), 1, multiset{}, map[0 := Worker(0, 0, Claimed(0))], map[],
           [AutoQueued(0, 1, 0), Claim(0, 0)])

  ghost const CrashedOnce: System :=
    System(LATER, AutoRowIn(Some(0)), 1, multiset{0}, map[], map[], [AutoQueued(0, 1, 0), Claim(0, 0), Post(0)])

  lemma AutoCreated()
    ensures Apply(Init(0), QUEUE_UP[0])
            == System(0, AutoRowIn(None), 1, multiset{}, map[], map[], [AutoQueued(0, 1, 0)])
  {
    assert CreateAll(Batch(map[], 0, [], []), [AUTO_HOOK], 7, 0.9, 0)
        == Batch(AutoRowIn(None), 1, [0], [AutoQueued(0, 1, 0)]) by {
      assert [AUTO_HOOK][..0] == [];
    }
  }

  lemma {:induction false} QueueingUp()
    ensures Run(Init(0), QUEUE_UP) == ClaimedOnce
  {
    var s1 := Apply(Init(0), QUEUE_UP[0]);
    AutoCreated();
    hide ApplyCreate;
    var s2 := Apply(s1, QUEUE_UP[1]);
    var s3 := Apply(s2, QUEUE_UP[2]);
    assert Apply(s3, QUEUE_UP[3]) == ClaimedOnce;
    RunFour(Init(0), QUEUE_UP[0], QUEUE_UP[1], QUEUE_UP[2], QUEUE_UP[3]);
  }

  lemma {:induction false} Crashing()
    ensures Run(ClaimedOnce, CRASH) == CrashedOnce
  {
    var s1 := Apply(ClaimedOnce, CRASH[0]);
    var s2 := Apply(s1, CRASH[1]);
    var s3 := Apply(s2, CRASH[2]);
    assert Apply(s3, CRASH[3]) == CrashedOnce;
    RunFour(ClaimedOnce, CRASH[0], CRASH[1], CRASH[2], CRASH[3]);
  }

  lemma {:induction false} ClaimingAgain()
    ensures Run(CrashedOnce, CLAIM_AGAIN).log == CrashedOnce.log + [Claim(0, LATER), Post(0)]
  {
    var s1 := Apply(CrashedOnce, CLAIM_AGAIN[0]);
    var s2 := Apply(s1, CLAIM_AGAIN[1]);
    var s3 := Apply(s2, CLAIM_AGAIN[2]);
    assert s3.log == CrashedOnce.log + [Claim(0, LATER), Post(0)];
    RunFour(CrashedOnce, CLAIM_AGAIN[0], CLAIM_AGAIN[1], CLAIM_AGAIN[2], CLAIM_AGAIN[3]);
  }

  /** A worker that dies between POST and outcome: the row is claimed and sent
      again, in a run that confirms nothing and keeps the order of statuses. */
  lemma {:induction false} CrashFiresTwice() returns (acts: seq<Action>)
    ensures Run(Init(0), acts).log == [AutoQueued(0, 1, 0), Claim(0, 0), Post(0), Claim(0, LATER), Post(0)]
    ensures forall id :: KeepsOrder(0, acts, |acts|, id)
  {
    hide Apply, KeepsOrder, Ordered;
    acts := QUEUE_UP + CRASH + CLAIM_AGAIN;
    RunConcat(Init(0), QUEUE_UP + CRASH, CLAIM_AGAIN);
    RunConcat(Init(0), QUEUE_UP, CRASH);
    QueueingUp();
    Crashing();
    ClaimingAgain();
    assert forall k :: 0 <= k < |acts| ==> !acts[k].Enqueue?;
    forall id ensures KeepsOrder(0, acts, |acts|, id) {
      StatusOrder(0, acts, id);
    }
  }
}
