/** Recovery: a queued execution is delivered after a bounded number of
    resweep-and-deliver rounds, whatever else is queued. */
module RemediationRecovery {
  import opened Prelude
  import opened RemediationModel
  import opened RemediationSafety

  // How one delivery that is not interrupted ends.
  datatype Delivery = PrereqsGone | Answered(ok: bool)

  predicate Terminal(r: Row) { r.status in {Succeeded, Failed} }

  /** One worker handles one message from start to outcome. */
  ghost function Deliver(s: System, id: Id, d: Delivery): System {
    var claimed := Apply(Apply(s, Start(0, id)), TryClaim(0, s.clock));
    match d
    case PrereqsGone => Apply(claimed, GiveUp(0, s.clock))
    case Answered(ok) => Apply(Apply(claimed, Send(0, ok)), Outcome(0, s.clock))
  }

  ghost function DeliverAll(s: System, ids: seq<Id>, ds: seq<Delivery>): System
    requires |ids| == |ds|
  {
    if ids == [] then s
    else Deliver(DeliverAll(s, ids[..|ids| - 1], ds[..|ids| - 1]), ids[|ids| - 1], ds[|ids| - 1])
  }

  function Ending(d: Delivery): Status {
    if d == Answered(true) then Succeeded else Failed
  }

  lemma ClaimWon(s: System, id: Id)
    requires s.workers == map[] && id in s.queue && id in s.rows && Claimable(s.rows[id], s.clock)
    ensures Apply(Apply(s, Start(0, id)), TryClaim(0, s.clock))
         == s.(queue := s.queue - multiset{id}, rows := s.rows[id := s.rows[id].(executedAt := Some(s.clock))],
               workers := map[0 := Worker(id, s.clock, Claimed(s.clock))], log := s.log + [Claim(id, s.clock)])
  {
    var s1 := Apply(s, Start(0, id));
    assert s1.workers == map[0 := Worker(id, s.clock, Checked)];
  }

  /** Every branch after a won claim writes an end state. */
  lemma DeliverEnds(s: System, id: Id, d: Delivery)
    requires s.workers == map[] && id in s.queue && id in s.rows && Claimable(s.rows[id], s.clock)
    ensures var t := Deliver(s, id, d);
            && t.rows == s.rows[id := s.rows[id].(status := Ending(d), executedAt := Some(s.clock))]
            && t.workers == map[] && t.queue == s.queue - multiset{id} && t.clock == s.clock
  {
    ClaimWon(s, id);
    hide ApplyStart, ApplyTryClaim;
    var s2 := Apply(Apply(s, Start(0, id)), TryClaim(0, s.clock));
    if d.Answered? {
      var s3 := Apply(s2, Send(0, d.ok));
      assert s3.workers == map[0 := Worker(id, s.clock, Posted(s.clock, d.ok))];
    }
  }

  lemma DeliverClaims(s: System, id: Id, d: Delivery)
    requires ClaimInv(s)
    ensures ClaimInv(Deliver(s, id, d))
  {
    hide Apply, ClaimInv;
    ClaimStep(s, Start(0, id));
    var s1 := Apply(s, Start(0, id));
    ClaimStep(s1, TryClaim(0, s.clock));
    var s2 := Apply(s1, TryClaim(0, s.clock));
    match d
    case PrereqsGone => ClaimStep(s2, GiveUp(0, s.clock));
    case Answered(ok) =>
      ClaimStep(s2, Send(0, ok));
      ClaimStep(Apply(s2, Send(0, ok)), Outcome(0, s.clock));
  }

  /** The listed rows have an outcome and all others are as they were. */
  ghost predicate Served(rows: Rows, served: Rows, ids: seq<Id>) {
    && served.Keys == rows.Keys
    && (forall id :: id in rows ==> served[id].createdAt == rows[id].createdAt)
    && (forall id :: id in rows && id !in ids ==> served[id] == rows[id])
    && (forall id :: id in ids && id in rows ==> Terminal(served[id]))
  }

  lemma ServedSnoc(rows: Rows, served: Rows, ids: seq<Id>, id: Id, r: Row)
    requires Served(rows, served, ids) && id in rows && Terminal(r) && r.createdAt == rows[id].createdAt
    ensures Served(rows, served[id := r], ids + [id])
  {
  }

  lemma {:induction false} DeliverAllEnds(s: System, ids: seq<Id>, ds: seq<Delivery>)
    requires |ids| == |ds| && s.workers == map[] && multiset(ids) <= s.queue && ClaimInv(s)
    requires forall j, k :: 0 <= j < k < |ids| ==> ids[j] != ids[k]
    requires forall id :: id in ids ==> id in s.rows && Claimable(s.rows[id], s.clock)
    ensures var t := DeliverAll(s, ids, ds);
            Served(s.rows, t.rows, ids) && t.workers == map[] && t.queue == s.queue - multiset(ids)
                && t.clock == s.clock && ClaimInv(t)
  {
    hide ClaimInv, Deliver, Apply, Terminal;
    if ids != [] {
      var n := |ids| - 1;
      var id := ids[n];
      assert ids == ids[..n] + [id];
      DeliverAllEnds(s, ids[..n], ds[..n]);
      var t := DeliverAll(s, ids[..n], ds[..n]);
      assert multiset(ids) == multiset(ids[..n]) + multiset{id};
      assert id in t.queue;
      assert id !in ids[..n];
      assert t.rows[id] == s.rows[id];
      DeliverEnds(t, id, ds[n]);
      DeliverClaims(t, id, ds[n]);
      var r := s.rows[id].(status := Ending(ds[n]), executedAt := Some(s.clock));
      EndingTerminal(r, ds[n]);
      hide Served;
      ServedSnoc(s.rows, t.rows, ids[..n], id, r);
    }
  }

  lemma EndingTerminal(r: Row, d: Delivery)
    requires r.status == Ending(d)
    ensures Terminal(r)
  {
  }

  // ----- rounds -----

  /** What may go on between rounds: anything, deliveries and their crashes
      included, but no new confirm and no confirm taken back. */
  predicate Quiet(a: Action) { !a.Confirm? && !(a.Enqueue? && !a.ok) }

  datatype Round = Round(quiet: seq<Action>, to: int, picked: seq<Id>, results: seq<Delivery>)

  /** The next round starts more than the stale bound after all that, so no
      worker is left over, and the resweep loses no message. */
  ghost predicate ValidRound(s: System, r: Round) {
    var q := Run(s, r.quiet);
    && (forall k :: 0 <= k < |r.quiet| ==> Quiet(r.quiet[k]))
    && q.workers == map[] && r.to > q.clock + STALE_INFLIGHT
    && IsSweep(q.rows, r.to, r.picked)
    && |r.results| == |r.picked|
  }

  ghost function AfterRound(s: System, r: Round): System
    requires ValidRound(s, r)
  {
    DeliverAll(Apply(Apply(Run(s, r.quiet), Tick(r.to)), Resweep(r.picked, {})), r.picked, r.results)
  }

  /** The other queued rows that the resweep may serve before this one. */
  ghost function Ahead(rows: Rows, id: Id): set<Id>
    requires id in rows
  {
    set j | j in rows && j != id && rows[j].status == Queued && rows[j].createdAt <= rows[id].createdAt
  }

  /** The row is done, or still waits with at most n rows ahead of it. */
  ghost predicate Waits(s: System, id: Id, n: int) {
    && ClaimInv(s) && id in s.rows && s.rows[id].createdAt < s.clock
    && (Terminal(s.rows[id]) || (s.rows[id].status == Queued && |Ahead(s.rows, id)| <= n))
  }

  lemma SubsetSize<T>(a: set<T>, b: set<T>)
    requires a <= b
    ensures |a| <= |b|
  {
    assert b == a + (b - a);
  }

  /** Queued rows stay or get an outcome, and none becomes queued. */
  ghost predicate Settling(rows: Rows, settled: Rows) {
    && (forall j :: j in rows ==> j in settled && settled[j].createdAt == rows[j].createdAt
                                  && (settled[j].status == rows[j].status || Terminal(settled[j])
                                        || rows[j].status == PendingConfirm))
    && (forall j :: j in settled && settled[j].status == Queued ==> j in rows && rows[j].status == Queued)
  }

  lemma OutcomesSettle(s: System, a: Action)
    requires a.GiveUp? || a.Outcome?
    ensures Settling(s.rows, Apply(s, a).rows) && Apply(s, a).clock == s.clock
  {
    hide ApplyCreate, ApplyTryClaim, ApplyStart, IsSweep, Claimable;
  }

  lemma StartsSettle(s: System, a: Action)
    requires a.Start? || a.TryClaim? || a.Send? || a.WorkerDies?
    ensures Settling(s.rows, Apply(s, a).rows) && Apply(s, a).clock == s.clock
  {
    hide ApplyCreate, IsSweep, WriteOutcome;
  }

  lemma OthersSettle(s: System, a: Action)
    requires a.Tick? || a.Dismiss? || a.Resweep? || a.Redeliver? || a.ConfirmerDies? || (a.Enqueue? && a.ok)
    ensures Settling(s.rows, Apply(s, a).rows) && s.clock <= Apply(s, a).clock
  {
    hide ApplyCreate, IsSweep;
  }

  lemma SettlingWaits(rows: Rows, settled: Rows, id: Id)
    requires Settling(rows, settled) && id in rows && rows[id].status != PendingConfirm
    ensures settled[id].createdAt == rows[id].createdAt
            && (settled[id].status == rows[id].status || Terminal(settled[id]))
    ensures Ahead(settled, id) <= Ahead(rows, id)
  {
  }

  lemma CreateWaits(s: System, a: Action, id: Id)
    requires a.Create? && ClaimInv(s) && id in s.rows && s.rows[id].createdAt < s.clock
    ensures var t := Apply(s, a);
            id in t.rows && t.rows[id] == s.rows[id] && t.clock == s.clock && Ahead(t.rows, id) <= Ahead(s.rows, id)
  {
    CreateAllKeeps(Batch(s.rows, s.next, [], s.log), a.hooks, a.scan, a.risk, s.clock);
    hide CreateAll;
    assert Apply(s, a) == ApplyCreate(s, a);
  }

  lemma QuietFrame(s: System, a: Action, id: Id)
    requires Quiet(a) && id in s.rows && s.rows[id].createdAt < s.clock && ClaimInv(s)
    requires s.rows[id].status != PendingConfirm
    ensures var t := Apply(s, a);
            && id in t.rows && t.rows[id].createdAt == s.rows[id].createdAt && s.clock <= t.clock
            && (t.rows[id].status == s.rows[id].status || Terminal(t.rows[id]))
            && Ahead(t.rows, id) <= Ahead(s.rows, id)
  {
    hide Apply, ClaimInv, Ahead, Terminal;
    if a.Create? {
      CreateWaits(s, a, id);
    } else {
      if a.GiveUp? || a.Outcome? {
        OutcomesSettle(s, a);
      } else if a.Start? || a.TryClaim? || a.Send? || a.WorkerDies? {
        StartsSettle(s, a);
      } else {
        OthersSettle(s, a);
      }
      SettlingWaits(s.rows, Apply(s, a).rows, id);
    }
  }

  lemma {:induction false} QuietRun(s: System, acts: seq<Action>, id: Id, n: int)
    requires Waits(s, id, n) && forall k :: 0 <= k < |acts| ==> Quiet(acts[k])
    ensures Waits(Run(s, acts), id, n)
  {
    hide Apply, ClaimInv, Ahead;
    if acts != [] {
      var shorter, a := acts[..|acts| - 1], acts[|acts| - 1];
      QuietRun(s, shorter, id, n);
      var q := Run(s, shorter);
      QuietFrame(q, a, id);
      ClaimStep(q, a);
      SubsetSize(Ahead(Apply(q, a).rows, id), Ahead(q.rows, id));
    }
  }

  lemma {:induction false} NothingLost(ids: seq<Id>)
    ensures Kept(ids, {}) == multiset(ids)
  {
    if ids != [] {
      NothingLost(ids[1..]);
      assert ids == [ids[0]] + ids[1..];
    }
  }

  function Elements(ids: seq<Id>): set<Id> { set id | id in ids }

  lemma {:induction false} DistinctSize(ids: seq<Id>)
    requires forall j, k :: 0 <= j < k < |ids| ==> ids[j] != ids[k]
    ensures |Elements(ids)| == |ids|
  {
    if ids != [] {
      var n := |ids| - 1;
      DistinctSize(ids[..n]);
      assert Elements(ids) == Elements(ids[..n]) + {ids[n]};
    }
  }

  /** A waiting row that the query leaves out is behind a full page. */
  lemma LeftOutBehindFullPage(rows: Rows, now: int, picked: seq<Id>, id: Id)
    requires IsSweep(rows, now, picked) && id in rows && Stranded(rows[id], now) && id !in picked
    ensures |picked| == REDELIVERY_MAX_PER_RUN && Elements(picked) <= Ahead(rows, id)
    ensures |Elements(picked)| == |picked|
  {
    DistinctSize(picked);
    var stranded := StrandedIds(rows, now);
    assert Elements(picked) <= stranded - {id};
    SubsetSize(Elements(picked), stranded - {id});
    assert |stranded - {id}| == |stranded| - 1;
  }

  /** A row queued for more than five minutes. */
  predicate Overdue(r: Row, now: int) { r.status == Queued && r.createdAt < now - 300_000_000 }

  /** The resweep picks rows that have been queued for more than five minutes, at
      most 200, and all of them unless it picks 200. */
  lemma SweepExactly(rows: Rows, now: int, picked: seq<Id>)
    requires IsSweep(rows, now, picked)
    ensures |picked| <= 200 && forall k :: 0 <= k < |picked| ==> picked[k] in rows && Overdue(rows[picked[k]], now)
    ensures |picked| < 200 ==> forall id :: id in rows && Overdue(rows[id], now) ==> id in picked
  {
    forall id | id in rows && Overdue(rows[id], now) && id !in picked ensures |picked| == 200 {
      LeftOutBehindFullPage(rows, now, picked, id);
    }
  }

  // ----- the query always has an answer -----

  lemma {:induction false} Oldest(rows: Rows, ids: set<Id>) returns (id: Id)
    requires ids != {} && ids <= rows.Keys
    ensures id in ids && forall j :: j in ids ==> rows[id].createdAt <= rows[j].createdAt
    decreases ids
  {
    id :| id in ids;
    if ids != {id} {
      var other := Oldest(rows, ids - {id});
      if rows[other].createdAt < rows[id].createdAt {
        id := other;
      }
    }
  }

  /** The n oldest of some rows, oldest first. */
  ghost predicate OldestFirst(rows: Rows, ids: set<Id>, picked: seq<Id>)
    requires ids <= rows.Keys
  {
    && (forall k :: 0 <= k < |picked| ==> picked[k] in ids)
    && (forall j, k :: 0 <= j < k < |picked| ==>
          picked[j] != picked[k] && rows[picked[j]].createdAt <= rows[picked[k]].createdAt)
    && (forall id, k :: id in ids && id !in picked && 0 <= k < |picked| ==>
          rows[picked[k]].createdAt <= rows[id].createdAt)
  }

  lemma {:induction false} PickOldest(rows: Rows, ids: set<Id>, n: nat) returns (picked: seq<Id>)
    requires ids <= rows.Keys && n <= |ids|
    ensures |picked| == n && OldestFirst(rows, ids, picked)
    decreases n
  {
    if n == 0 {
      picked := [];
    } else {
      var id := Oldest(rows, ids);
      var rest := PickOldest(rows, ids - {id}, n - 1);
      picked := [id] + rest;
      assert forall j :: j in rest ==> j in ids - {id};
    }
  }

  /** Whatever the table, the resweep query has an answer, so a next round exists
      from every state in which no delivery is open. */
  lemma {:induction false} NextRoundExists(s: System) returns (r: Round)
    requires s.workers == map[]
    ensures ValidRound(s, r)
  {
    var to := s.clock + STALE_INFLIGHT + 1;
    var ids := StrandedIds(s.rows, to);
    assert ids <= s.rows.Keys;
    var picked := PickOldest(s.rows, ids, Min(REDELIVERY_MAX_PER_RUN, |ids|));
    r := Round([], to, picked, seq(|picked|, _ => PrereqsGone));
    assert Run(s, []) == s;
  }

  /** The resweep of a round: every picked row is claimable by then. */
  lemma RoundOpens(q: System, to: int, picked: seq<Id>)
    requires ClaimInv(q) && q.workers == map[] && to > q.clock + STALE_INFLIGHT && IsSweep(q.rows, to, picked)
    ensures var t := Apply(Apply(q, Tick(to)), Resweep(picked, {}));
            && t.clock == to && t.rows == q.rows && t.workers == map[] && multiset(picked) <= t.queue && ClaimInv(t)
            && forall id :: id in picked ==> id in t.rows && Claimable(t.rows[id], to)
    ensures forall j, k :: 0 <= j < k < |picked| ==> picked[j] != picked[k]
  {
    NothingLost(picked);
    ClaimStep(q, Tick(to));
    ClaimStep(Apply(q, Tick(to)), Resweep(picked, {}));
  }

  /** One round ends the row or takes a full page of rows off its front. */
  lemma {:induction false} RoundProgress(s: System, id: Id, n: int, r: Round)
    requires Waits(s, id, n) && ValidRound(s, r)
    ensures Waits(AfterRound(s, r), id, n - REDELIVERY_MAX_PER_RUN)
  {
    hide Apply, ClaimInv, Run, DeliverAll, IsSweep, Claimable;
    QuietRun(s, r.quiet, id, n);
    var q := Run(s, r.quiet);
    RoundOpens(q, r.to, r.picked);
    var o := Apply(Apply(q, Tick(r.to)), Resweep(r.picked, {}));
    DeliverAllEnds(o, r.picked, r.results);
    var t := AfterRound(s, r);
    if q.rows[id].status == Queued && id !in r.picked {
      assert Stranded(q.rows[id], r.to);
      LeftOutBehindFullPage(q.rows, r.to, r.picked, id);
      assert Ahead(t.rows, id) <= Ahead(q.rows, id) - Elements(r.picked);
      SubsetSize(Ahead(t.rows, id), Ahead(q.rows, id) - Elements(r.picked));
      assert |Ahead(q.rows, id) - Elements(r.picked)| == |Ahead(q.rows, id)| - |r.picked|;
    }
  }

  ghost predicate RoundStep(s: System, r: Round, t: System) { ValidRound(s, r) && t == AfterRound(s, r) }

  /** The states between the rounds, one after the other. */
  ghost predicate Rounds(s: System, rounds: seq<Round>, states: seq<System>) {
    && |states| == |rounds| + 1 && states[0] == s
    && forall k :: 0 <= k < |rounds| ==> RoundStep(states[k], rounds[k], states[k + 1])
  }

  lemma {:induction false} RoundsProgress(s: System, id: Id, n: int, rounds: seq<Round>, states: seq<System>, k: nat)
    requires Waits(s, id, n) && Rounds(s, rounds, states) && k <= |rounds|
    ensures Waits(states[k], id, n - REDELIVERY_MAX_PER_RUN * k)
    decreases k
  {
    hide Waits, ValidRound, AfterRound;
    if k > 0 {
      RoundsProgress(s, id, n, rounds, states, k - 1);
      assert RoundStep(states[k - 1], rounds[k - 1], states[k]);
      RoundProgress(states[k - 1], id, n - REDELIVERY_MAX_PER_RUN * (k - 1), rounds[k - 1]);
    }
  }

  /** From any reachable state, a queued row with r queued rows ahead of it has
      an outcome after any rounds whose pages hold more than r rows. */
  lemma {:induction false} BoundedRecovery(clock: int, acts: seq<Action>, id: Id, rounds: seq<Round>,
                                           states: seq<System>)
    requires var s := Run(Init(clock), acts);
             && id in s.rows && s.rows[id].status == Queued && s.rows[id].createdAt < s.clock
             && Rounds(s, rounds, states) && REDELIVERY_MAX_PER_RUN * |rounds| > |Ahead(s.rows, id)|
    ensures id in states[|rounds|].rows && Terminal(states[|rounds|].rows[id])
  {
    var s := Run(Init(clock), acts);
    ClaimRun(clock, acts);
    RoundsProgress(s, id, |Ahead(s.rows, id)|, rounds, states, |rounds|);
  }
}
