/** The order of statuses: exactly the runs in which no confirm of a row has to
    be taken back after a failed enqueue keep that row on its path. */
module RemediationOrder {
  import opened Prelude
  import opened RemediationModel
  import opened RemediationSafety

  /** pending_confirm, then queued or dismissed; queued, then an outcome. */
  predicate Edge(before: Status, after: Status) {
    || before == after
    || (before == PendingConfirm && after in {Queued, Dismissed})
    || (before == Queued && after in {Succeeded, Failed})
  }

  /** One step moves the row along an edge, or starts it at the front. */
  predicate Ordered(s: System, t: System, id: Id) {
    && (id in s.rows ==> id in t.rows && Edge(s.rows[id].status, t.rows[id].status))
    && (id in t.rows && id !in s.rows ==> t.rows[id].status in {PendingConfirm, Queued})
  }

  /** A committed confirm of the row finds the queue down. */
  predicate TakesBack(s: System, a: Action, id: Id) {
    a.Enqueue? && !a.ok && a.req in s.confirmers && s.confirmers[a.req] == id
  }

  predicate Fired(rows: Rows, id: Id) { id in rows && Attempted(rows[id]) }

  /** What holds of a row as long as no confirm of it was taken back. */
  ghost predicate ForwardInv(s: System, id: Id) {
    && ClaimInv(s)
    && (forall w :: InWindow(s, w) && s.workers[w].execution == id ==> id in s.rows && s.rows[id].status == Queued)
    && (forall r :: r in s.confirmers && s.confirmers[r] == id ==> Fired(s.rows, id))
    && (forall k :: 0 <= k < |s.log| && s.log[k] == Post(id) ==> Fired(s.rows, id))
  }

  lemma ForwardFrame(s: System, t: System, id: Id)
    requires ForwardInv(s, id) && ClaimInv(t) && Ordered(s, t, id)
    requires forall r :: r in t.confirmers && t.confirmers[r] == id ==>
               (r in s.confirmers && s.confirmers[r] == id) || Fired(t.rows, id)
    requires s.log <= t.log && forall k :: |s.log| <= k < |t.log| && t.log[k] == Post(id) ==> Fired(t.rows, id)
    requires forall w :: InWindow(t, w) && t.workers[w].execution == id ==> id in t.rows && t.rows[id].status == Queued
    ensures ForwardInv(t, id)
  {
    hide ClaimInv;
    forall k | 0 <= k < |t.log| && t.log[k] == Post(id) ensures Fired(t.rows, id) {
      assert k < |s.log| ==> t.log[k] == s.log[k];
    }
  }

  lemma OperatorsFrame(s: System, a: Action, id: Id)
    requires ForwardInv(s, id) && !TakesBack(s, a, id) && (a.Confirm? || a.Enqueue? || a.Dismiss? || a.ConfirmerDies?)
    ensures var t := Apply(s, a);
            && Ordered(s, t, id) && t.workers == s.workers && s.log <= t.log
            && (forall k :: |s.log| <= k < |t.log| ==> !t.log[k].Post?)
            && (forall r :: r in t.confirmers && t.confirmers[r] == id ==> Fired(t.rows, id))
            && (id in s.rows && s.rows[id].status == Queued ==> t.rows[id].status == Queued)
  {
    hide ClaimInv, ApplyTryClaim, ApplyCreate, ApplyStart, WriteOutcome, IsSweep, Kept;
  }

  lemma ForwardOperators(s: System, a: Action, id: Id)
    requires ForwardInv(s, id) && !TakesBack(s, a, id) && (a.Confirm? || a.Enqueue? || a.Dismiss? || a.ConfirmerDies?)
    ensures Ordered(s, Apply(s, a), id) && ForwardInv(Apply(s, a), id)
  {
    hide Apply, ClaimInv;
    ClaimStep(s, a);
    OperatorsFrame(s, a, id);
    assert forall w :: InWindow(Apply(s, a), w) ==> InWindow(s, w);
    ForwardFrame(s, Apply(s, a), id);
  }

  lemma ForwardCreate(s: System, a: Action, id: Id)
    requires ForwardInv(s, id) && a.Create?
    ensures Ordered(s, Apply(s, a), id) && ForwardInv(Apply(s, a), id)
  {
    ClaimStep(s, a);
    CreateAllKeeps(Batch(s.rows, s.next, [], s.log), a.hooks, a.scan, a.risk, s.clock);
    hide ClaimInv, CreateAll;
    var t := Apply(s, a);
    assert forall w :: InWindow(t, w) ==> InWindow(s, w);
    ForwardFrame(s, t, id);
  }

  /** The step may end workers or start them, but none of them is claiming. */
  ghost predicate SameTable(s: System, t: System) {
    && t.rows == s.rows && t.log == s.log && t.confirmers == s.confirmers
    && forall w :: w in t.workers && t.workers[w].phase != Checked ==> w in s.workers && s.workers[w] == t.workers[w]
  }

  lemma MessagesFrame(s: System, a: Action)
    requires a.Tick? || a.Resweep? || a.Redeliver?
    ensures SameTable(s, Apply(s, a))
  {
    hide IsSweep, Kept;
  }

  lemma WorkersFrame(s: System, a: Action)
    requires a.Start? || a.WorkerDies?
    ensures SameTable(s, Apply(s, a))
  {
  }

  lemma ForwardMessages(s: System, a: Action, id: Id)
    requires ForwardInv(s, id) && (a.Tick? || a.Resweep? || a.Redeliver? || a.Start? || a.WorkerDies?)
    ensures Ordered(s, Apply(s, a), id) && ForwardInv(Apply(s, a), id)
  {
    hide Apply, ClaimInv, Attempted;
    ClaimStep(s, a);
    if a.Start? || a.WorkerDies? {
      WorkersFrame(s, a);
    } else {
      MessagesFrame(s, a);
    }
    assert forall w :: InWindow(Apply(s, a), w) ==> InWindow(s, w);
  }

  lemma DeliveryFrame(s: System, a: Action, id: Id)
    requires ForwardInv(s, id) && (a.TryClaim? || a.Send?)
    ensures var t := Apply(s, a);
            && Ordered(s, t, id) && t.confirmers == s.confirmers && s.log <= t.log
            && (forall k :: |s.log| <= k < |t.log| && t.log[k] == Post(id) ==> Fired(t.rows, id))
            && (forall w :: InWindow(t, w) && t.workers[w].execution == id ==>
                  id in t.rows && t.rows[id].status == Queued)
  {
    hide ClaimInv, ApplyCreate, ApplyConfirm, ApplyEnqueue, ApplyDismiss, ApplyStart, WriteOutcome, IsSweep, Kept;
    assert forall w :: InWindow(Apply(s, a), w) && w != a.w ==> InWindow(s, w);
  }

  lemma ForwardDelivery(s: System, a: Action, id: Id)
    requires ForwardInv(s, id) && (a.TryClaim? || a.Send?)
    ensures Ordered(s, Apply(s, a), id) && ForwardInv(Apply(s, a), id)
  {
    hide Apply, ClaimInv, Ordered;
    ClaimStep(s, a);
    DeliveryFrame(s, a, id);
    ForwardFrame(s, Apply(s, a), id);
  }

  lemma OutcomeFrame(s: System, w: nat, status: Status, now: int, id: Id)
    requires ForwardInv(s, id) && InWindow(s, w) && status in {Succeeded, Failed}
    ensures var t := WriteOutcome(s, w, status, now);
            && Ordered(s, t, id)
            && forall v :: InWindow(t, v) && t.workers[v].execution == id ==>
                 id in t.rows && t.rows[id].status == Queued
  {
    hide ClaimsSpaced, StampKept, Holds;
    assert forall v :: InWindow(WriteOutcome(s, w, status, now), v) ==> InWindow(s, v) && v != w;
  }

  lemma ForwardOutcome(s: System, a: Action, id: Id)
    requires ForwardInv(s, id) && (a.GiveUp? || a.Outcome?)
    ensures Ordered(s, Apply(s, a), id) && ForwardInv(Apply(s, a), id)
  {
    ClaimStep(s, a);
    hide ClaimInv;
    if Apply(s, a) != s {
      var status := if a.GiveUp? then Failed else if s.workers[a.w].phase.ok then Succeeded else Failed;
      OutcomeFrame(s, a.w, status, a.now, id);
      ForwardFrame(s, Apply(s, a), id);
    }
  }

  lemma ForwardStep(s: System, a: Action, id: Id)
    requires ForwardInv(s, id) && !TakesBack(s, a, id)
    ensures Ordered(s, Apply(s, a), id) && ForwardInv(Apply(s, a), id)
  {
    hide ForwardInv, Ordered, Apply;
    if a.Create? {
      ForwardCreate(s, a, id);
    } else if a.GiveUp? || a.Outcome? {
      ForwardOutcome(s, a, id);
    } else if a.Confirm? || a.Enqueue? || a.Dismiss? || a.ConfirmerDies? {
      ForwardOperators(s, a, id);
    } else if a.TryClaim? || a.Send? {
      ForwardDelivery(s, a, id);
    } else {
      ForwardMessages(s, a, id);
    }
  }

  /** Taking a confirm back always leaves the path: by then the row is queued
      or already has an outcome. */
  lemma TakingBackBreaks(s: System, a: Action, id: Id)
    requires ForwardInv(s, id) && TakesBack(s, a, id)
    ensures !Ordered(s, Apply(s, a), id)
  {
    hide ClaimInv;
  }

  // ----- whole runs -----

  ghost function StateAt(clock: int, acts: seq<Action>, k: nat): System
    requires k <= |acts|
  {
    Run(Init(clock), acts[..k])
  }

  ghost predicate KeepsOrder(clock: int, acts: seq<Action>, n: nat, id: Id)
    requires n <= |acts|
  {
    forall k {:trigger StateAt(clock, acts, k)} :: 0 <= k < n ==>
        Ordered(StateAt(clock, acts, k), StateAt(clock, acts, k + 1), id)
  }

  ghost predicate NeverTakesBack(clock: int, acts: seq<Action>, n: nat, id: Id)
    requires n <= |acts|
  {
    forall k {:trigger StateAt(clock, acts, k)} :: 0 <= k < n ==> !TakesBack(StateAt(clock, acts, k), acts[k], id)
  }

  lemma NextState(clock: int, acts: seq<Action>, k: nat)
    requires k < |acts|
    ensures StateAt(clock, acts, k + 1) == Apply(StateAt(clock, acts, k), acts[k])
  {
    assert acts[..k + 1][..k] == acts[..k];
  }

  lemma ForwardInit(clock: int, id: Id)
    ensures ForwardInv(Init(clock), id)
  {
  }

  lemma {:induction false} OrderUpTo(clock: int, acts: seq<Action>, n: nat, id: Id)
    requires n <= |acts|
    ensures KeepsOrder(clock, acts, n, id) <==> NeverTakesBack(clock, acts, n, id)
    ensures NeverTakesBack(clock, acts, n, id) ==> ForwardInv(StateAt(clock, acts, n), id)
  {
    hide Ordered, ForwardInv, Apply, TakesBack;
    if n == 0 {
      assert StateAt(clock, acts, 0) == Init(clock);
      ForwardInit(clock, id);
    } else {
      OrderUpTo(clock, acts, n - 1, id);
      if NeverTakesBack(clock, acts, n - 1, id) {
        var s := StateAt(clock, acts, n - 1);
        NextState(clock, acts, n - 1);
        if TakesBack(s, acts[n - 1], id) {
          TakingBackBreaks(s, acts[n - 1], id);
        } else {
          ForwardStep(s, acts[n - 1], id);
        }
      }
    }
  }

  /** A run keeps an execution on the path pending_confirm, queued, succeeded or
      failed (or pending_confirm, dismissed) if and only if none of its steps
      takes a committed confirm of it back because the queue was down. */
  lemma StatusOrder(clock: int, acts: seq<Action>, id: Id)
    ensures KeepsOrder(clock, acts, |acts|, id) <==> NeverTakesBack(clock, acts, |acts|, id)
  {
    OrderUpTo(clock, acts, |acts|, id);
  }

  /** If no confirm of it was taken back, a row that is dismissed or awaits
      confirmation was never POSTed, whatever happened to other rows. */
  lemma {:induction false} DismissedNeverPosted(clock: int, acts: seq<Action>, id: Id, k: nat)
    requires NeverTakesBack(clock, acts, |acts|, id)
    requires id in Run(Init(clock), acts).rows && Run(Init(clock), acts).rows[id].status in {Dismissed, PendingConfirm}
    requires k < |Run(Init(clock), acts).log|
    ensures Run(Init(clock), acts).log[k] != Post(id)
  {
    OrderUpTo(clock, acts, |acts|, id);
    assert acts[..|acts|] == acts;
    assert ForwardInv(Run(Init(clock), acts), id);
  }

  // The other runs are real: a delivered webhook is taken back to the confirm
  // queue and, confirmed once more, POSTed a second time.

  const HOOK := Hook(1, 0.5, true)
  const LATER := STALE_INFLIGHT + 1
  const PARK := [Create(7, 0.9, [HOOK], true, {}), Confirm(0, 0, 0, 0), Redeliver(0), Start(0, 0)]
  const DELIVER := [TryClaim(0, 0), Send(0, true), Outcome(0, 0), WorkerDies(0)]
  const TAKE_BACK := [Enqueue(0, false), Tick(LATER), Confirm(0, 0, LATER, LATER), Enqueue(0, true)]
  const DELIVER_AGAIN := [Start(0, 0), TryClaim(0, LATER), Send(0, true), WorkerDies(0)]

  function RowIn(status: Status, confirmed: int, executed: Option<int>): Rows {
    map[0 := Row(1, 7, status, 0, Some(confirmed), executed)]
  }

  const FIRST_LOG := [Parked(0), Confirmed(0), Claim(0, 0), Post(0)]

  ghost const StartedOnce: System := System(0, RowIn(Queued, 0, None), 1, multiset{}, map[0 := Worker(0, 0, Checked)],
                                            map[0 := 0], FIRST_LOG[..2])
  ghost const DeliveredOnce: System := System(0, RowIn(Succeeded, 0, Some(0)), 1, multiset{}, map[], map[0 := 0],
                                              FIRST_LOG)
  ghost const ConfirmedTwice: System := System(LATER, RowIn(Queued, LATER, Some(0)), 1, multiset{0}, map[], map[],
                                               FIRST_LOG + [Confirmed(0)])

  lemma {:induction false} RunConcat(s: System, a: seq<Action>, b: seq<Action>)
    ensures Run(s, a + b) == Run(Run(s, a), b)
  {
    if b == [] {
      assert a + b == a;
    } else {
      RunConcat(s, a, b[..|b| - 1]);
      assert (a + b)[..|a + b| - 1] == a + b[..|b| - 1];
    }
  }

  /** The states of a short run, one action at a time. */
  lemma {:induction false} RunCons(s: System, a: Action, rest: seq<Action>)
    ensures Run(s, [a] + rest) == Run(Apply(s, a), rest)
  {
    hide Apply;
    RunConcat(s, [a], rest);
    assert [a][..0] == [];
  }

  lemma {:induction false} ParkedBatch()
    ensures CreateAll(Batch(map[], 0, [], []), [HOOK], 7, 0.9, 0)
         == Batch(map[0 := Row(1, 7, PendingConfirm, 0, None, None)], 1, [], [Parked(0)])
  {
    assert [HOOK][..0] == [];
  }

  lemma {:induction false} Parking()
    ensures Run(Init(0), PARK) == StartedOnce
  {
    ParkedBatch();
    hide CreateAll;
    var s1 := Apply(Init(0), PARK[0]);
    var s2 := Apply(s1, PARK[1]);
    var s3 := Apply(s2, PARK[2]);
    assert Apply(s3, PARK[3]) == StartedOnce;
    RunFour(Init(0), PARK[0], PARK[1], PARK[2], PARK[3]);
  }

  lemma {:induction false} RunFour(s: System, a: Action, b: Action, c: Action, d: Action)
    ensures Run(s, [a, b, c, d]) == Apply(Apply(Apply(Apply(s, a), b), c), d)
  {
    hide Apply;
    assert [a, b, c, d] == [a] + ([b] + ([c] + ([d] + [])));
    RunCons(s, a, [b] + ([c] + ([d] + [])));
    RunCons(Apply(s, a), b, [c] + ([d] + []));
    RunCons(Apply(Apply(s, a), b), c, [d] + []);
    RunCons(Apply(Apply(Apply(s, a), b), c), d, []);
  }

  lemma {:induction false} Delivering()
    ensures Run(StartedOnce, DELIVER) == DeliveredOnce
  {
    var s1 := Apply(StartedOnce, DELIVER[0]);
    var s2 := Apply(s1, DELIVER[1]);
    var s3 := Apply(s2, DELIVER[2]);
    assert s3 == DeliveredOnce && Apply(s3, DELIVER[3]) == s3;
    RunFour(StartedOnce, DELIVER[0], DELIVER[1], DELIVER[2], DELIVER[3]);
  }

  lemma {:induction false} TakingBack()
    ensures Run(DeliveredOnce, TAKE_BACK) == ConfirmedTwice
  {
    var s1 := Apply(DeliveredOnce, TAKE_BACK[0]);
    var s2 := Apply(s1, TAKE_BACK[1]);
    var s3 := Apply(s2, TAKE_BACK[2]);
    assert Apply(s3, TAKE_BACK[3]) == ConfirmedTwice;
    RunFour(DeliveredOnce, TAKE_BACK[0], TAKE_BACK[1], TAKE_BACK[2], TAKE_BACK[3]);
  }

  lemma {:induction false} DeliveringAgain()
    ensures Run(ConfirmedTwice, DELIVER_AGAIN).log == FIRST_LOG + [Confirmed(0), Claim(0, LATER), Post(0)]
  {
    var s1 := Apply(ConfirmedTwice, DELIVER_AGAIN[0]);
    var s2 := Apply(s1, DELIVER_AGAIN[1]);
    var s3 := Apply(s2, DELIVER_AGAIN[2]);
    assert s3.log == ConfirmedTwice.log + [Claim(0, LATER), Post(0)];
    RunFour(ConfirmedTwice, DELIVER_AGAIN[0], DELIVER_AGAIN[1], DELIVER_AGAIN[2], DELIVER_AGAIN[3]);
  }

  lemma {:induction false} TakenBackFiresTwice() returns (acts: seq<Action>)
    ensures Run(Init(0), acts).log
            == [Parked(0), Confirmed(0), Claim(0, 0), Post(0), Confirmed(0), Claim(0, LATER), Post(0)]
  {
    hide Apply;
    acts := PARK + DELIVER + TAKE_BACK + DELIVER_AGAIN;
    RunConcat(Init(0), PARK + DELIVER + TAKE_BACK, DELIVER_AGAIN);
    RunConcat(Init(0), PARK + DELIVER, TAKE_BACK);
    RunConcat(Init(0), PARK, DELIVER);
    Parking();
    Delivering();
    TakingBack();
    DeliveringAgain();
  }
}
