/** Remediation executions as a state machine: every transaction of the scan
    task, of the confirm and dismiss endpoints, of the resweep and of the
    delivery worker is one step, and any number of actors interleave. */
module RemediationModel {
  import opened Prelude

  // Times are microseconds, the resolution of the stored timestamps.
  const SECOND := 1_000_000
  const STALE_INFLIGHT := 600 * SECOND
  const TASK_TIME_LIMIT := 480 * SECOND
  const AUTO_FIRE_COOLDOWN := 30 * 60 * SECOND
  const REDELIVERY_GRACE := 300 * SECOND
  const REDELIVERY_MAX_PER_RUN := 200

  type Id = nat

  datatype Status = PendingConfirm | Queued | Succeeded | Failed | Dismissed

  datatype Row = Row(hook: nat, scan: nat, status: Status, createdAt: int,
                     confirmedAt: Option<int>, executedAt: Option<int>)

  type Rows = map<Id, Row>

  datatype Hook = Hook(id: nat, threshold: real, manual: bool)

  // ----- the transactions, as functions on the table -----

  /** The predicate of the delivery claim. */
  predicate Claimable(r: Row, now: int) {
    r.status == Queued && (r.executedAt.None? || r.executedAt.value < now - STALE_INFLIGHT)
  }

  /** The two predicates of the confirm endpoint, tried in this order. */
  predicate Confirmable(r: Row, staleNow: int) {
    r.status == PendingConfirm
    || (r.status == Queued && r.confirmedAt.Some? && r.confirmedAt.value < staleNow - STALE_INFLIGHT)
  }

  function ConfirmRow(r: Row, now: int): Row { r.(status := Queued, confirmedAt := Some(now)) }

  function DismissRow(r: Row, now: int): Row { r.(status := Dismissed, confirmedAt := Some(now)) }

  predicate Attempted(r: Row) { r.status in {Queued, Succeeded, Failed} }

  /** The cooldown query: some outbound attempt of the hook is too recent. */
  predicate Cooled(rows: Rows, hook: nat, now: int) {
    exists id :: id in rows && rows[id].hook == hook && Attempted(rows[id])
        && rows[id].createdAt > now - AUTO_FIRE_COOLDOWN
  }

  predicate Exists(rows: Rows, hook: nat, scan: nat) {
    exists id :: id in rows && rows[id].hook == hook && rows[id].scan == scan
  }

  /** A row for this hook and scan; the unique index allows only one. */
  ghost function Existing(rows: Rows, hook: nat, scan: nat): Id
    requires Exists(rows, hook, scan)
    ensures Existing(rows, hook, scan) in rows
  {
    var id :| id in rows && rows[id].hook == hook && rows[id].scan == scan;
    id
  }

  function FreshRow(rows: Rows, h: Hook, scan: nat, now: int): Row {
    Row(h.id, scan, if h.manual || Cooled(rows, h.id, now) then PendingConfirm else Queued, now, None, None)
  }

  predicate Creates(rows: Rows, h: Hook, scan: nat, risk: real) {
    risk >= h.threshold && !Exists(rows, h.id, scan)
  }

  // The scan task's transaction after some hooks: the table, the next unused
  // id, the ids ready to fire and the log of creations.
  datatype Batch = Batch(rows: Rows, next: Id, ready: seq<Id>, log: seq<Event>)

  ghost function CreateOne(b: Batch, h: Hook, scan: nat, risk: real, now: int): Batch {
    if Creates(b.rows, h, scan, risk) then
      var r := FreshRow(b.rows, h, scan, now);
      Batch(b.rows[b.next := r], b.next + 1,
            if r.status == Queued then b.ready + [b.next] else b.ready,
            b.log + [if r.status == Queued then AutoQueued(b.next, h.id, now) else Parked(b.next)])
    else if risk >= h.threshold && b.rows[Existing(b.rows, h.id, scan)].status == Queued then
      b.(ready := b.ready + [Existing(b.rows, h.id, scan)])
    else b
  }

  ghost function CreateAll(b: Batch, hooks: seq<Hook>, scan: nat, risk: real, now: int): Batch {
    if hooks == [] then b
    else CreateOne(CreateAll(b, hooks[..|hooks| - 1], scan, risk, now), hooks[|hooks| - 1], scan, risk, now)
  }

  predicate Stranded(r: Row, now: int) {
    r.status == Queued && r.createdAt < now - REDELIVERY_GRACE
  }

  ghost function StrandedIds(rows: Rows, now: int): set<Id> {
    set id | id in rows && Stranded(rows[id], now)
  }

  /** A possible answer of the resweep query: distinct stranded rows, oldest
      first, up to the limit, none left out that is older than one picked. */
  ghost predicate IsSweep(rows: Rows, now: int, picked: seq<Id>) {
    && (forall k :: 0 <= k < |picked| ==> picked[k] in StrandedIds(rows, now))
    && (forall j, k :: 0 <= j < k < |picked| ==>
          picked[j] != picked[k] && rows[picked[j]].createdAt <= rows[picked[k]].createdAt)
    && (forall id, k :: id in StrandedIds(rows, now) && id !in picked && 0 <= k < |picked| ==>
          rows[picked[k]].createdAt <= rows[id].createdAt)
    && |picked| == Min(REDELIVERY_MAX_PER_RUN, |StrandedIds(rows, now)|)
  }

  // ----- actors -----

  // A worker between two commits of one delivery.
  datatype Phase =
    | Checked                          // the row was read as queued
    | Claimed(stamp: int)              // the claim committed, nothing sent yet
    | Posted(stamp: int, ok: bool)     // the webhook was called

  datatype Worker = Worker(execution: Id, startedAt: int, phase: Phase)

  datatype Event =
    | AutoQueued(id: Id, hook: nat, at: int)
    | Parked(id: Id)
    | Confirmed(id: Id)
    | Claim(id: Id, at: int)
    | Post(id: Id)

  // log is the history the properties speak about; no step reads it.
  datatype System = System(
    clock: int,
    rows: Rows,
    next: Id,
    queue: multiset<Id>,
    workers: map<nat, Worker>,
    confirmers: map<nat, Id>,
    log: seq<Event>)

  function Init(clock: int): System {
    System(clock, map[], 0, multiset{}, map[], map[], [])
  }

  datatype Action =
    | Tick(to: int)
    | Create(scan: nat, risk: real, hooks: seq<Hook>, committed: bool, lost: set<Id>)
    | Confirm(req: nat, id: Id, now: int, staleNow: int)
    | Enqueue(req: nat, ok: bool)
    | ConfirmerDies(req: nat)
    | Dismiss(id: Id, now: int)
    | Resweep(picked: seq<Id>, lost: set<Id>)
    | Redeliver(id: Id)
    | Start(w: nat, id: Id)
    | TryClaim(w: nat, now: int)
    | GiveUp(w: nat, now: int)
    | Send(w: nat, ok: bool)
    | Outcome(w: nat, now: int)
    | WorkerDies(w: nat)

  function Without<K, V>(m: map<K, V>, k: K): map<K, V> { m - {k} }

  ghost function Batched(s: System, a: Action): Batch
    requires a.Create?
  {
    CreateAll(Batch(s.rows, s.next, [], s.log), a.hooks, a.scan, a.risk, s.clock)
  }

  function Kept(ids: seq<Id>, lost: set<Id>): multiset<Id> {
    if ids == [] then multiset{}
    else Kept(ids[1..], lost) + (if ids[0] in lost then multiset{} else multiset{ids[0]})
  }

  ghost function ApplyCreate(s: System, a: Action): System
    requires a.Create?
  {
    var b := Batched(s, a);
    var s' := s.(next := b.next, queue := s.queue + Kept(b.ready, a.lost));
    if a.committed then s'.(rows := b.rows, log := b.log) else s'
  }

  function ApplyConfirm(s: System, a: Action): System
    requires a.Confirm?
  {
    if a.now <= a.staleNow <= s.clock && a.req !in s.confirmers
       && a.id in s.rows && Confirmable(s.rows[a.id], a.staleNow)
    then s.(rows := s.rows[a.id := ConfirmRow(s.rows[a.id], a.now)],
            confirmers := s.confirmers[a.req := a.id], log := s.log + [Confirmed(a.id)])
    else s
  }

  /** After the confirm has committed: publish, or on a dead queue put the row
      back into the confirm queue, whatever its status is by then. */
  function ApplyEnqueue(s: System, a: Action): System
    requires a.Enqueue?
  {
    if a.req !in s.confirmers then s
    else
      var id := s.confirmers[a.req];
      var s' := s.(confirmers := Without(s.confirmers, a.req));
      if a.ok then s'.(queue := s.queue + multiset{id})
      else if id in s.rows then s'.(rows := s.rows[id := s.rows[id].(status := PendingConfirm)])
      else s'
  }

  function ApplyDismiss(s: System, a: Action): System
    requires a.Dismiss?
  {
    if a.now <= s.clock && a.id in s.rows && s.rows[a.id].status == PendingConfirm
    then s.(rows := s.rows[a.id := DismissRow(s.rows[a.id], a.now)])
    else s
  }

  /** A message is taken; a row that is missing or not queued ends the delivery. */
  function ApplyStart(s: System, a: Action): System
    requires a.Start?
  {
    if a.id !in s.queue || a.w in s.workers then s
    else
      var s' := s.(queue := s.queue - multiset{a.id});
      if a.id in s.rows && s.rows[a.id].status == Queued
      then s'.(workers := s.workers[a.w := Worker(a.id, s.clock, Checked)])
      else s'
  }

  function ApplyTryClaim(s: System, a: Action): System
    requires a.TryClaim?
  {
    if a.w !in s.workers || s.workers[a.w].phase != Checked || !(s.workers[a.w].startedAt <= a.now <= s.clock) then s
    else
      var wk := s.workers[a.w];
      if wk.execution in s.rows && Claimable(s.rows[wk.execution], a.now)
      then s.(rows := s.rows[wk.execution := s.rows[wk.execution].(executedAt := Some(a.now))],
              workers := s.workers[a.w := wk.(phase := Claimed(a.now))],
              log := s.log + [Claim(wk.execution, a.now)])
      else s.(workers := Without(s.workers, a.w))
  }

  /** The outcome write: by row id, without looking at the row again. */
  function WriteOutcome(s: System, w: nat, status: Status, now: int): System
    requires w in s.workers
  {
    var id := s.workers[w].execution;
    var s' := s.(workers := Without(s.workers, w));
    if id in s.rows then s'.(rows := s.rows[id := s.rows[id].(status := status, executedAt := Some(now))]) else s'
  }

  predicate InWindow(s: System, w: nat) {
    w in s.workers && s.workers[w].phase != Checked
  }

  /** A worker's step: enabled actions change the state, others leave it. */
  ghost function Apply(s: System, a: Action): System {
    match a
    case Tick(to) =>
      if to >= s.clock && forall w :: w in s.workers ==> to <= s.workers[w].startedAt + TASK_TIME_LIMIT
      then s.(clock := to) else s
    case Create(_, _, _, _, _) => ApplyCreate(s, a)
    case Confirm(_, _, _, _) => ApplyConfirm(s, a)
    case Enqueue(_, _) => ApplyEnqueue(s, a)
    case ConfirmerDies(req) => s.(confirmers := Without(s.confirmers, req))
    case Dismiss(_, _) => ApplyDismiss(s, a)
    case Resweep(picked, lost) =>
      if IsSweep(s.rows, s.clock, picked) then s.(queue := s.queue + Kept(picked, lost)) else s
    case Redeliver(id) => s.(queue := s.queue + multiset{id})
    case Start(_, _) => ApplyStart(s, a)
    case TryClaim(_, _) => ApplyTryClaim(s, a)
    case GiveUp(w, now) =>
      if InWindow(s, w) && s.workers[w].phase.Claimed? && s.workers[w].phase.stamp <= now <= s.clock
      then WriteOutcome(s, w, Failed, now) else s
    case Send(w, ok) =>
      if InWindow(s, w) && s.workers[w].phase.Claimed?
      then s.(workers := s.workers[w := s.workers[w].(phase := Posted(s.workers[w].phase.stamp, ok))],
              log := s.log + [Post(s.workers[w].execution)])
      else s
    case Outcome(w, now) =>
      if InWindow(s, w) && s.workers[w].phase.Posted? && s.workers[w].phase.stamp <= now <= s.clock
      then WriteOutcome(s, w, if s.workers[w].phase.ok then Succeeded else Failed, now) else s
    case WorkerDies(w) => s.(workers := Without(s.workers, w))
  }

  ghost function Run(s: System, acts: seq<Action>): System {
    if acts == [] then s else Apply(Run(s, acts[..|acts| - 1]), acts[|acts| - 1])
  }
}
