/** Baselines: rebaseline requests, failed enqueues, and capture workers that
    crash, run again or finish after they were superseded, in every order. */
module BaselineAnchor {
  import opened Prelude

  const SECOND := 1_000_000
  const STALE_INFLIGHT := 600 * SECOND

  type SiteId = nat
  type Id = nat
  type Hash = string

  datatype Status = Pending | Capturing | Ready | Failed

  datatype Baseline = Baseline(site: SiteId, status: Status, isCurrent: bool, hash: Option<Hash>, http: Option<int>,
                               createdAt: int)

  type Rows = map<Id, Baseline>

  predicate InFlight(b: Baseline) { b.status == Pending || b.status == Capturing }

  predicate IsStale(b: Baseline, now: int) { b.createdAt < now - STALE_INFLIGHT }

  function NewBaseline(site: SiteId, now: int): Baseline { Baseline(site, Pending, false, None, None, now) }

  // ----- the two partial unique indexes -----

  predicate OneCurrent(rows: Rows) {
    forall i, j :: i in rows && j in rows && rows[i].isCurrent && rows[j].isCurrent && rows[i].site == rows[j].site ==>
        i == j
  }

  predicate OneInFlight(rows: Rows) {
    forall i, j :: i in rows && j in rows && InFlight(rows[i]) && InFlight(rows[j]) && rows[i].site == rows[j].site ==>
        i == j
  }

  predicate Indexed(rows: Rows) { OneCurrent(rows) && OneInFlight(rows) }

  // ----- transactions on the table -----

  function SetStatus(rows: Rows, id: Id, status: Status): Rows {
    if id in rows then rows[id := rows[id].(status := status)] else rows
  }

  /** What a demoting update of the site's current row picks. */
  function CurrentOf(rows: Rows, site: SiteId): set<Id> {
    set i | i in rows && rows[i].site == site && rows[i].isCurrent
  }

  // The rows of the site that were seen as current stop being it, and the captured
  // one takes over. The update saw the table as it was when it ran.
  function Promote(rows: Rows, id: Id, hash: Hash, http: Option<int>, seen: set<Id>): Rows
    requires id in rows
  {
    (map i | i in rows :: if i in seen && rows[i].site == rows[id].site then rows[i].(isCurrent := false) else rows[i])
      [id := rows[id].(status := Ready, isCurrent := true, hash := Some(hash), http := http)]
  }

  /** The rebaseline commit. seen is the in-flight capture the request read. */
  function Rebaselined(rows: Rows, site: SiteId, seen: Option<Id>, id: Id, now: int): Rows {
    if seen.Some? then SetStatus(rows, seen.value, Failed)[id := NewBaseline(site, now)]
        else rows[id := NewBaseline(site, now)]
  }

  predicate RebaselineWins(rows: Rows, site: SiteId, seen: Option<Id>, id: Id, now: int) {
    && (seen.Some? ==>
          && seen.value in rows && rows[seen.value].site == site
          && IsStale(rows[seen.value], now) && InFlight(rows[seen.value]))
    && Indexed(Rebaselined(rows, site, seen, id, now))
  }

  // ----- captures -----

  // Unpublished: the request committed the row and has not yet sent the message.
  // Loaded holds the status the worker's session read; Demoted the rows that the
  // demoting update of the last transaction picked, which has yet to commit.
  datatype Phase =
    | Unpublished
    | Queued
    | Loaded(status: Status)
    | Fetching
    | Demoted(seen: set<Id>)
    | Recovering
    | Marking
    | Finished

  datatype Delivery = Delivery(id: Id, phase: Phase)

  datatype Outcome = Unreachable | Page(hash: Hash, http: Option<int>)

  predicate Healthy(o: Outcome) { o.Page? && (o.http.None? || o.http.value < 400) }

  datatype System = System(clock: int, rows: Rows, deliveries: map<nat, Delivery>)

  datatype Action =
    | Tick(to: int)
    | Rebaseline(site: SiteId, seen: Option<Id>, id: Id, d: nat)
    | Publish(d: nat, accepted: bool)
    | Load(d: nat)
    | BeginCapture(d: nat)
    | Demote(d: nat)
    | Fetched(d: nat, outcome: Outcome)
    | Fault(d: nat)
    | Recover(d: nat)
    | MarkFailed(d: nat)
    | Crash(d: nat)
    | Ack(d: nat)
    | Duplicate(d: nat, copy: nat)

  // Load to MarkFailed are a worker's steps; a worker with a healthy page demotes
  // before Fetched commits. Crash kills it and its message comes
  // back; Ack takes a message away, also one that was lost before its time.

  predicate In(s: System, d: nat, phase: Phase) {
    d in s.deliveries && s.deliveries[d].phase == phase && s.deliveries[d].id in s.rows
  }

  function Move(s: System, d: nat, phase: Phase): System
    requires d in s.deliveries
  {
    s.(deliveries := s.deliveries[d := s.deliveries[d].(phase := phase)])
  }

  /** Commits a worker's write; a commit the indexes reject raises in the worker. */
  function Write(s: System, d: nat, rows: Rows, phase: Phase): System
    requires d in s.deliveries
  {
    if Indexed(rows) then Move(s, d, phase).(rows := rows) else Move(s, d, Recovering)
  }

  function ApplyRebaseline(s: System, site: SiteId, seen: Option<Id>, id: Id, d: nat): System {
    if id in s.rows || d in s.deliveries || !RebaselineWins(s.rows, site, seen, id, s.clock) then s
    else s.(rows := Rebaselined(s.rows, site, seen, id, s.clock),
            deliveries := s.deliveries[d := Delivery(id, Unpublished)])
  }

  function ApplyBegin(s: System, d: nat): System {
    if d in s.deliveries && s.deliveries[d].phase.Loaded? && s.deliveries[d].id in s.rows then
      // A row loaded as capturing is unchanged in the session: nothing is written.
      if s.deliveries[d].phase.status == Capturing then Move(s, d, Fetching)
      else Write(s, d, SetStatus(s.rows, s.deliveries[d].id, Capturing), Fetching)
    else s
  }

  function ApplyDemote(s: System, d: nat): System {
    if In(s, d, Fetching) then Move(s, d, Demoted(CurrentOf(s.rows, s.rows[s.deliveries[d].id].site))) else s
  }

  /** The capture's last commit: unhealthy pages fail the row at once, healthy
      ones end the transaction that began with the demoting update. */
  function ApplyFetched(s: System, d: nat, outcome: Outcome): System {
    if d !in s.deliveries || s.deliveries[d].id !in s.rows then s
    else
      var id, phase := s.deliveries[d].id, s.deliveries[d].phase;
      if phase == Fetching && !Healthy(outcome) then Write(s, d, SetStatus(s.rows, id, Failed), Finished)
      else if phase.Demoted? && Healthy(outcome) then
        Write(s, d, Promote(s.rows, id, outcome.hash, outcome.http, phase.seen), Finished)
      else s
  }

  function Apply(s: System, a: Action): System {
    match a
    case Tick(to) => if to >= s.clock then s.(clock := to) else s
    case Rebaseline(site, seen, id, d) => ApplyRebaseline(s, site, seen, id, d)
    case Publish(d, accepted) =>
      if !In(s, d, Unpublished) then s
      else if accepted then Move(s, d, Queued)
      else Write(s, d, SetStatus(s.rows, s.deliveries[d].id, Failed), Finished)
    case Load(d) =>
      if !In(s, d, Queued) then s
      else
        var b := s.rows[s.deliveries[d].id];
        Move(s, d, if InFlight(b) then Loaded(b.status) else Finished)
    case BeginCapture(d) => ApplyBegin(s, d)
    case Demote(d) => ApplyDemote(s, d)
    case Fetched(d, outcome) => ApplyFetched(s, d, outcome)
    case Fault(d) =>
      if d in s.deliveries && s.deliveries[d].phase != Unpublished && s.deliveries[d].phase != Queued
      then Move(s, d, Recovering) else s
    case Recover(d) =>
      if In(s, d, Recovering) then Move(s, d, if InFlight(s.rows[s.deliveries[d].id]) then Marking else Finished) else s
    case MarkFailed(d) =>
      if In(s, d, Marking) then Write(s, d, SetStatus(s.rows, s.deliveries[d].id, Failed), Finished) else s
    case Crash(d) =>
      if d in s.deliveries && s.deliveries[d].phase != Unpublished then Move(s, d, Queued) else s
    case Ack(d) => s.(deliveries := s.deliveries - {d})
    case Duplicate(d, copy) =>
      if d in s.deliveries && s.deliveries[d].phase != Unpublished && copy !in s.deliveries
      then s.(deliveries := s.deliveries[copy := Delivery(s.deliveries[d].id, Queued)]) else s
  }

  function Run(s: System, acts: seq<Action>): System {
    if acts == [] then s else Apply(Run(s, acts[..|acts| - 1]), acts[|acts| - 1])
  }

  function Init(clock: int): System { System(clock, map[], map[]) }

  // ----- the anchor -----

  predicate Trusted(b: Baseline) {
    b.status == Ready && b.hash.Some? && (b.http.Some? ==> b.http.value < 400)
  }

  predicate IsAnchor(rows: Rows, site: SiteId, id: Id) { id in rows && rows[id].site == site && rows[id].isCurrent }

  predicate HasAnchor(rows: Rows, site: SiteId) { exists id :: id in rows && IsAnchor(rows, site, id) }

  predicate AllTrusted(rows: Rows) {
    forall id :: id in rows && rows[id].isCurrent ==> Trusted(rows[id])
  }

  /** No copy of a message is ever made. */
  predicate NoDuplicates(acts: seq<Action>) { forall k :: 0 <= k < |acts| ==> !acts[k].Duplicate? }

  /** A worker or request that may still write by row id alone. */
  predicate Armed(phase: Phase) { phase == Unpublished || phase.Loaded? || phase == Fetching || phase == Marking }

  predicate DeliveriesOk(s: System) {
    && (forall d :: d in s.deliveries ==> s.deliveries[d].id in s.rows)
    && (forall d, e :: d in s.deliveries && e in s.deliveries && s.deliveries[d].id == s.deliveries[e].id ==> d == e)
    && (forall d :: d in s.deliveries && Armed(s.deliveries[d].phase) ==> !s.rows[s.deliveries[d].id].isCurrent)
  }

  predicate Inv(s: System) { Indexed(s.rows) && AllTrusted(s.rows) && DeliveriesOk(s) }

  /** What a step may do to the table without losing any site's anchor. */
  ghost predicate KeepsAnchors(before: Rows, after: Rows) {
    forall site :: HasAnchor(before, site) ==> HasAnchor(after, site)
  }

  // A table that only changed rows that are not current.
  predicate SameCurrent(before: Rows, after: Rows) {
    && (forall id :: id in before ==> id in after)
    && (forall id :: id in before && before[id].isCurrent ==> after[id] == before[id])
    && (forall id :: id in after && after[id].isCurrent ==> id in before && before[id].isCurrent)
  }

  lemma SameCurrentKeeps(before: Rows, after: Rows)
    requires SameCurrent(before, after)
    ensures KeepsAnchors(before, after)
    ensures AllTrusted(before) ==> AllTrusted(after)
    ensures OneCurrent(before) ==> OneCurrent(after)
  {
    forall site | HasAnchor(before, site) ensures HasAnchor(after, site) {
      var id :| id in before && IsAnchor(before, site, id);
      assert IsAnchor(after, site, id);
    }
  }

  lemma PromoteKeeps(rows: Rows, id: Id, hash: Hash, http: Option<int>, seen: set<Id>)
    requires id in rows && AllTrusted(rows) && (http.Some? ==> http.value < 400)
    ensures var after := Promote(rows, id, hash, http, seen);
            && KeepsAnchors(rows, after) && AllTrusted(after) && IsAnchor(after, rows[id].site, id)
            && (Indexed(after) ==> forall i :: i in rows && i != id && rows[i].site == rows[id].site ==>
                  !after[i].isCurrent)
            && (forall i :: i in rows && rows[i].site != rows[id].site ==> after[i] == rows[i])
  {
    var after := Promote(rows, id, hash, http, seen);
    assert IsAnchor(after, rows[id].site, id);
    forall site | HasAnchor(rows, site) ensures HasAnchor(after, site) {
      var i :| i in rows && IsAnchor(rows, site, i);
      if site != rows[id].site {
        assert IsAnchor(after, site, i);
      }
    }
  }

  /** The indexes accept a promotion if and only if its demoting update saw every
      other row of the site that is current when it commits. */
  lemma PromoteFits(rows: Rows, id: Id, hash: Hash, http: Option<int>, seen: set<Id>)
    requires id in rows && Indexed(rows)
    ensures Indexed(Promote(rows, id, hash, http, seen)) <==> CurrentOf(rows, rows[id].site) - {id} <= seen
  {
    var after := Promote(rows, id, hash, http, seen);
    if i :| i in CurrentOf(rows, rows[id].site) - {id} && i !in seen {
      assert after[i].isCurrent && after[id].isCurrent && after[i].site == after[id].site;
    } else {
      forall i | i in after && after[i].isCurrent
        ensures i == id || (rows[i].isCurrent && after[i].site != rows[id].site)
      {
        assert i in CurrentOf(rows, rows[id].site) - {id} ==> i in seen;
      }
    }
  }

  /** Of two overlapping promotions of a site the index rejects the later one,
      and its worker goes on to clean up. */
  lemma OverlapRejected(s: System, d: nat, o: Outcome, e: nat, p: Outcome)
    requires d in s.deliveries && e in s.deliveries && d != e && Healthy(o) && Healthy(p)
    requires s.deliveries[d].phase.Demoted? && s.deliveries[e].phase.Demoted?
    requires s.deliveries[d].id in s.rows && s.deliveries[e].id in s.rows && s.deliveries[d].id != s.deliveries[e].id
    requires s.rows[s.deliveries[d].id].site == s.rows[s.deliveries[e].id].site
    requires s.deliveries[d].id !in s.deliveries[e].phase.seen
    requires Apply(s, Fetched(d, o)).rows != s.rows
    ensures var t := Apply(s, Fetched(d, o)); Apply(t, Fetched(e, p)) == Move(t, e, Recovering)
  {
    var t := Apply(s, Fetched(d, o));
    var id := s.deliveries[d].id;
    assert id in CurrentOf(t.rows, t.rows[id].site) && t.deliveries[e] == s.deliveries[e];
    hide Indexed, Promote;
    PromoteFits(t.rows, s.deliveries[e].id, p.hash, p.http, s.deliveries[e].phase.seen);
  }

  lemma FailKeeps(rows: Rows, id: Id, status: Status)
    requires id in rows && !rows[id].isCurrent
    ensures SameCurrent(rows, SetStatus(rows, id, status))
  {
  }

  ghost predicate StepOk(s: System, u: System) { Inv(u) && KeepsAnchors(s.rows, u.rows) && s.rows.Keys <= u.rows.Keys }

  lemma MoveKeeps(s: System, d: nat, phase: Phase)
    requires Inv(s) && d in s.deliveries
    requires Armed(phase) ==> !s.rows[s.deliveries[d].id].isCurrent
    ensures StepOk(s, Move(s, d, phase))
  {
    hide Indexed, AllTrusted;
  }

  lemma WriteKeeps(s: System, d: nat, rows: Rows, phase: Phase)
    requires Inv(s) && d in s.deliveries && rows.Keys == s.rows.Keys && AllTrusted(rows) && KeepsAnchors(s.rows, rows)
    requires forall i :: i in rows && rows[i].isCurrent && !s.rows[i].isCurrent ==>
             i == s.deliveries[d].id && !Armed(phase)
    requires Armed(phase) ==> !s.rows[s.deliveries[d].id].isCurrent
    ensures StepOk(s, Write(s, d, rows, phase))
  {
    hide Indexed, AllTrusted, KeepsAnchors;
    if Indexed(rows) {
      var u := Write(s, d, rows, phase);
      assert DeliveriesOk(u);
    } else {
      MoveKeeps(s, d, Recovering);
    }
  }

  lemma StatusWriteKeeps(s: System, d: nat, status: Status, phase: Phase)
    requires Inv(s) && d in s.deliveries && !s.rows[s.deliveries[d].id].isCurrent
    ensures StepOk(s, Write(s, d, SetStatus(s.rows, s.deliveries[d].id, status), phase))
  {
    hide Indexed, AllTrusted, KeepsAnchors;
    FailKeeps(s.rows, s.deliveries[d].id, status);
    SameCurrentKeeps(s.rows, SetStatus(s.rows, s.deliveries[d].id, status));
    WriteKeeps(s, d, SetStatus(s.rows, s.deliveries[d].id, status), phase);
  }

  lemma FetchedKeeps(s: System, d: nat, outcome: Outcome)
    requires Inv(s)
    ensures StepOk(s, ApplyFetched(s, d, outcome))
  {
    hide Indexed, AllTrusted, KeepsAnchors;
    if ApplyFetched(s, d, outcome) == s {
      Unmoved(s);
    } else if Healthy(outcome) {
      var id, seen := s.deliveries[d].id, s.deliveries[d].phase.seen;
      PromoteKeeps(s.rows, id, outcome.hash, outcome.http, seen);
      WriteKeeps(s, d, Promote(s.rows, id, outcome.hash, outcome.http, seen), Finished);
    } else {
      StatusWriteKeeps(s, d, Failed, Finished);
    }
  }

  lemma RebaselineKeeps(s: System, site: SiteId, seen: Option<Id>, id: Id, d: nat)
    requires Inv(s)
    ensures StepOk(s, ApplyRebaseline(s, site, seen, id, d))
  {
    hide Indexed, AllTrusted, KeepsAnchors;
    var u := ApplyRebaseline(s, site, seen, id, d);
    if u != s {
      assert SameCurrent(s.rows, u.rows) by {
        assert AllTrusted(s.rows);
        SupersededNotCurrent(s.rows, site, seen, id, s.clock);
      }
      SameCurrentKeeps(s.rows, u.rows);
      assert DeliveriesOk(u);
    } else {
      assert KeepsAnchors(s.rows, s.rows) by { SameCurrentKeeps(s.rows, s.rows); }
    }
  }

  lemma SupersededNotCurrent(rows: Rows, site: SiteId, seen: Option<Id>, id: Id, now: int)
    requires AllTrusted(rows) && id !in rows && RebaselineWins(rows, site, seen, id, now)
    ensures SameCurrent(rows, Rebaselined(rows, site, seen, id, now))
  {
  }

  /** A rebaseline goes through exactly if the site has no capture in flight, or only
      the one it had read, and that one is more than ten minutes old: a young
      capture is left alone. It fails the old one and adds its own. */
  lemma RebaselineExactly(s: System, site: SiteId, seen: Option<Id>, id: Id, d: nat)
    requires Indexed(s.rows) && id !in s.rows && d !in s.deliveries
    ensures var t := Apply(s, Rebaseline(site, seen, id, d));
            var free := && (seen != None ==>
                              && seen.value in s.rows && s.rows[seen.value].site == site
                              && s.rows[seen.value].status in {Pending, Capturing}
                              && s.rows[seen.value].createdAt < s.clock - 600_000_000)
                        && (forall i ::
                              i in s.rows && s.rows[i].site == site && s.rows[i].status in {Pending, Capturing} ==>
                                seen == Some(i));
            t == if !free then s
                 else s.(rows := (if seen == None then s.rows
                                  else s.rows[seen.value := s.rows[seen.value].(status := Failed)])
                                 [id := Baseline(site, Pending, false, None, None, s.clock)],
                         deliveries := s.deliveries[d := Delivery(id, Unpublished)])
  {
    var after := Rebaselined(s.rows, site, seen, id, s.clock);
    assert InFlight(after[id]) && after[id].site == site;
    if i :| i in s.rows && s.rows[i].site == site && InFlight(s.rows[i]) && seen != Some(i) {
      assert after[i] == s.rows[i] && i != id;
    }
  }

  /** A worker that loads its row, and one that cleans up after a fault, goes on
      only if the capture is still in flight. */
  lemma LoadExactly(s: System, d: nat)
    requires d in s.deliveries && s.deliveries[d].id in s.rows
    ensures var row := s.rows[s.deliveries[d].id];
            var going := row.status in {Pending, Capturing};
            && (s.deliveries[d].phase == Queued ==>
                  Apply(s, Load(d)) == Move(s, d, if going then Loaded(row.status) else Finished))
            && (s.deliveries[d].phase == Recovering ==>
                  Apply(s, Recover(d)) == Move(s, d, if going then Marking else Finished))
  {
  }

  lemma WorkKeeps(s: System, a: Action)
    requires Inv(s) && (a.Publish? || a.BeginCapture? || a.Fetched? || a.MarkFailed?)
    ensures StepOk(s, Apply(s, a))
  {
    hide Indexed, AllTrusted, KeepsAnchors, Write;
    if a.Fetched? {
      FetchedKeeps(s, a.d, a.outcome);
    } else if Apply(s, a) == s {
      Unmoved(s);
    } else if a.Publish? && a.accepted {
      MoveKeeps(s, a.d, Queued);
    } else if a.Publish? || a.MarkFailed? {
      StatusWriteKeeps(s, a.d, Failed, Finished);
    } else if s.deliveries[a.d].phase.status == Capturing {
      MoveKeeps(s, a.d, Fetching);
    } else {
      StatusWriteKeeps(s, a.d, Capturing, Fetching);
    }
  }

  lemma Unmoved(s: System)
    requires Inv(s)
    ensures StepOk(s, s)
  {
  }

  lemma PhaseKeeps(s: System, a: Action)
    requires Inv(s) && (a.Load? || a.Demote? || a.Fault? || a.Recover? || a.Crash? || a.Ack? || a.Tick?)
    ensures StepOk(s, Apply(s, a))
  {
    hide Indexed, KeepsAnchors;
    Unmoved(s);
    if a.Ack? || a.Tick? || Apply(s, a) == s {
    } else {
      var u := Apply(s, a);
      MoveKeeps(s, a.d, u.deliveries[a.d].phase);
    }
  }

  lemma StepKeeps(s: System, a: Action)
    requires Inv(s) && !a.Duplicate?
    ensures StepOk(s, Apply(s, a))
  {
    hide Inv, StepOk;
    if a.Rebaseline? {
      RebaselineKeeps(s, a.site, a.seen, a.id, a.d);
    } else if a.Publish? || a.BeginCapture? || a.Fetched? || a.MarkFailed? {
      WorkKeeps(s, a);
    } else {
      PhaseKeeps(s, a);
    }
  }

  lemma {:induction false} Always(s: System, acts: seq<Action>)
    requires Inv(s) && NoDuplicates(acts)
    ensures StepOk(s, Run(s, acts))
  {
    hide Apply, Inv, KeepsAnchors;
    if acts == [] {
      Unmoved(s);
    } else {
      var n := |acts| - 1;
      Always(s, acts[..n]);
      StepKeeps(Run(s, acts[..n]), acts[n]);
      KeepsTrans(s.rows, Run(s, acts[..n]).rows, Run(s, acts).rows);
    }
  }

  lemma KeepsTrans(a: Rows, b: Rows, c: Rows)
    requires KeepsAnchors(a, b) && KeepsAnchors(b, c)
    ensures KeepsAnchors(a, c)
  {
  }

  lemma {:induction false} RunSplit(s: System, acts: seq<Action>, more: seq<Action>)
    ensures Run(s, acts + more) == Run(Run(s, acts), more)
  {
    hide Apply;
    if more == [] {
      assert acts + more == acts;
    } else {
      var n := |more| - 1;
      RunSplit(s, acts, more[..n]);
      assert (acts + more)[..|acts + more| - 1] == acts + more[..n];
    }
  }

  /** The trust anchor is never lost: as soon as a site has a current baseline,
      every later state has exactly one, captured whole and healthy. */
  lemma {:induction false} AnchorNeverLost(clock: int, acts: seq<Action>, more: seq<Action>, site: SiteId)
    returns (anchor: Id)
    requires NoDuplicates(acts + more) && HasAnchor(Run(Init(clock), acts).rows, site)
    ensures IsAnchor(Run(Init(clock), acts + more).rows, site, anchor)
    ensures forall id :: IsAnchor(Run(Init(clock), acts + more).rows, site, id) ==> id == anchor
    ensures Trusted(Run(Init(clock), acts + more).rows[anchor])
  {
    forall k | 0 <= k < |acts| ensures !acts[k].Duplicate? {
      assert (acts + more)[k] == acts[k];
    }
    forall k | 0 <= k < |more| ensures !more[k].Duplicate? {
      assert (acts + more)[|acts| + k] == more[k];
    }
    Always(Init(clock), acts);
    Always(Run(Init(clock), acts), more);
    RunSplit(Init(clock), acts, more);
    anchor :| IsAnchor(Run(Init(clock), acts + more).rows, site, anchor);
  }

  // ----- why one live delivery matters -----

  /** A by-id write that is about to hit a current row. */
  predicate HitsAnchor(s: System, a: Action) {
    match a
    case Publish(d, accepted) => !accepted && In(s, d, Unpublished) && s.rows[s.deliveries[d].id].isCurrent
    case Fetched(d, outcome) => !Healthy(outcome) && In(s, d, Fetching) && s.rows[s.deliveries[d].id].isCurrent
    case MarkFailed(d) => In(s, d, Marking) && s.rows[s.deliveries[d].id].isCurrent
    case BeginCapture(d) =>
      && d in s.deliveries && s.deliveries[d].phase.Loaded? && s.deliveries[d].phase.status != Capturing
      && s.deliveries[d].id in s.rows
      && s.rows[s.deliveries[d].id].isCurrent && Indexed(SetStatus(s.rows, s.deliveries[d].id, Capturing))
    case _ => false
  }

  lemma FailedWriteFits(rows: Rows, id: Id)
    requires Indexed(rows)
    ensures Indexed(SetStatus(rows, id, Failed))
  {
  }

  lemma StatusWriteTrust(rows: Rows, id: Id, status: Status)
    requires id in rows && AllTrusted(rows) && status != Ready
    ensures AllTrusted(SetStatus(rows, id, status)) <==> !rows[id].isCurrent
  {
    assert id in SetStatus(rows, id, status);
  }

  /** A step spoils a current baseline exactly when it is such a write. */
  lemma TrustLostExactly(s: System, a: Action)
    requires Indexed(s.rows) && AllTrusted(s.rows)
    ensures !AllTrusted(Apply(s, a).rows) <==> HitsAnchor(s, a)
  {
    hide Indexed, AllTrusted;
    match a
    case Rebaseline(site, seen, id, d) =>
      var u := ApplyRebaseline(s, site, seen, id, d);
      if u != s {
        SupersededNotCurrent(s.rows, site, seen, id, s.clock);
        SameCurrentKeeps(s.rows, u.rows);
      }
    case Publish(d, accepted) =>
      if In(s, d, Unpublished) {
        FailedWriteFits(s.rows, s.deliveries[d].id);
        StatusWriteTrust(s.rows, s.deliveries[d].id, Failed);
      }
    case BeginCapture(d) =>
      if d in s.deliveries && s.deliveries[d].id in s.rows {
        StatusWriteTrust(s.rows, s.deliveries[d].id, Capturing);
      }
    case Fetched(d, outcome) => FetchedTrust(s, d, outcome);
    case MarkFailed(d) =>
      if In(s, d, Marking) {
        FailedWriteFits(s.rows, s.deliveries[d].id);
        StatusWriteTrust(s.rows, s.deliveries[d].id, Failed);
      }
    case _ =>
  }

  lemma FetchedTrust(s: System, d: nat, outcome: Outcome)
    requires Indexed(s.rows) && AllTrusted(s.rows)
    ensures !AllTrusted(ApplyFetched(s, d, outcome).rows) <==> HitsAnchor(s, Fetched(d, outcome))
  {
    hide Indexed, AllTrusted, Promote;
    if ApplyFetched(s, d, outcome) != s {
      var id := s.deliveries[d].id;
      FailedWriteFits(s.rows, id);
      StatusWriteTrust(s.rows, id, Failed);
      if Healthy(outcome) {
        PromoteKeeps(s.rows, id, outcome.hash, outcome.http, s.deliveries[d].phase.seen);
      }
    }
  }

  lemma IndexedStep(s: System, a: Action)
    requires Indexed(s.rows)
    ensures Indexed(Apply(s, a).rows)
  {
    hide Indexed, Promote;
  }

  lemma {:induction false} IndexedRun(clock: int, acts: seq<Action>)
    ensures Indexed(Run(Init(clock), acts).rows)
  {
    hide Apply;
    if acts != [] {
      IndexedRun(clock, acts[..|acts| - 1]);
      IndexedStep(Run(Init(clock), acts[..|acts| - 1]), acts[|acts| - 1]);
    }
  }

  predicate AlwaysTrusted(clock: int, acts: seq<Action>, n: nat)
    requires n <= |acts|
  {
    forall k {:trigger acts[..k]} :: 0 <= k <= n ==> AllTrusted(Run(Init(clock), acts[..k]).rows)
  }

  predicate NeverHits(clock: int, acts: seq<Action>, n: nat)
    requires n <= |acts|
  {
    forall k {:trigger acts[..k]} :: 0 <= k < n ==> !HitsAnchor(Run(Init(clock), acts[..k]), acts[k])
  }

  lemma {:induction false} TrustedUpTo(clock: int, acts: seq<Action>, n: nat)
    requires n <= |acts|
    ensures AlwaysTrusted(clock, acts, n) <==> NeverHits(clock, acts, n)
  {
    hide Apply, HitsAnchor, AllTrusted;
    if n == 0 {
      assert acts[..0] == [];
      assert AllTrusted(Init(clock).rows) by { NothingCaptured(clock); }
    } else {
      TrustedUpTo(clock, acts, n - 1);
      assert acts[..n][..n - 1] == acts[..n - 1];
      var s := Run(Init(clock), acts[..n - 1]);
      assert Run(Init(clock), acts[..n]) == Apply(s, acts[n - 1]);
      if AlwaysTrusted(clock, acts, n - 1) {
        IndexedRun(clock, acts[..n - 1]);
        TrustLostExactly(s, acts[n - 1]);
      } else {
        assert !AlwaysTrusted(clock, acts, n);
      }
    }
  }

  lemma NothingCaptured(clock: int)
    ensures AllTrusted(Init(clock).rows)
  {
  }

  /** Duplicates allowed: a run keeps every current baseline ready, captured whole
      and healthy if and only if none of its steps is a by-id write to one. */
  lemma {:induction false} AnchorsTrustedExactly(clock: int, acts: seq<Action>)
    ensures AlwaysTrusted(clock, acts, |acts|) <==> NeverHits(clock, acts, |acts|)
  {
    TrustedUpTo(clock, acts, |acts|);
  }

  /** And no run, duplicates or not, ever leaves a site that had a current
      baseline without one, or with two. */
  lemma {:induction false} AnchorStays(clock: int, acts: seq<Action>, more: seq<Action>, site: SiteId)
    returns (anchor: Id)
    requires HasAnchor(Run(Init(clock), acts).rows, site)
    ensures IsAnchor(Run(Init(clock), acts + more).rows, site, anchor)
    ensures forall id :: IsAnchor(Run(Init(clock), acts + more).rows, site, id) ==> id == anchor
  {
    hide Apply, HasAnchor;
    if more == [] {
      assert acts + more == acts;
    } else {
      var n := |more| - 1;
      var before := AnchorStays(clock, acts, more[..n], site);
      assert (acts + more)[..|acts + more| - 1] == acts + more[..n];
      AnchorStep(Run(Init(clock), acts + more[..n]), more[n], site, before);
    }
    anchor := AnchorOf(Run(Init(clock), acts + more).rows, site);
    IndexedRun(clock, acts + more);
    hide Run;
  }

  lemma AnchorOf(rows: Rows, site: SiteId) returns (anchor: Id)
    requires HasAnchor(rows, site)
    ensures IsAnchor(rows, site, anchor)
  {
    anchor :| anchor in rows && IsAnchor(rows, site, anchor);
  }

  lemma AnchorStep(s: System, a: Action, site: SiteId, anchor: Id)
    requires IsAnchor(s.rows, site, anchor)
    ensures HasAnchor(Apply(s, a).rows, site)
  {
    hide Indexed;
    var u := Apply(s, a);
    if a.Fetched? && u.rows != s.rows && Healthy(a.outcome) {
      var id := s.deliveries[a.d].id;
      assert IsAnchor(u.rows, site, if s.rows[id].site == site then id else anchor);
    } else {
      assert IsAnchor(u.rows, site, anchor);
    }
  }

  lemma {:induction false} Snoc(s: System, acts: seq<Action>, a: Action, u: System)
    requires Run(s, acts) == u
    ensures Run(s, acts + [a]) == Apply(u, a)
  {
    assert (acts + [a])[..|acts|] == acts;
  }

  lemma {:induction false} DuplicateQueued() returns (acts: seq<Action>)
    ensures acts == [Rebaseline(0, None, 0, 0), Publish(0, true), Duplicate(0, 1)]
    ensures Run(Init(0), acts)
            == System(0, map[0 := NewBaseline(0, 0)], map[0 := Delivery(0, Queued), 1 := Delivery(0, Queued)])
  {
    var rows := map[0 := NewBaseline(0, 0)];
    assert Rebaselined(map[], 0, None, 0, 0) == rows && Indexed(rows);
    assert Run(Init(0), []) == Init(0);
    hide Run, Indexed;
    Snoc(Init(0), [], Rebaseline(0, None, 0, 0), Init(0));
    acts := [] + [Rebaseline(0, None, 0, 0)];
    Snoc(Init(0), acts, Publish(0, true), System(0, rows, map[0 := Delivery(0, Unpublished)]));
    acts := acts + [Publish(0, true)];
    Snoc(Init(0), acts, Duplicate(0, 1), System(0, rows, map[0 := Delivery(0, Queued)]));
    acts := acts + [Duplicate(0, 1)];
  }

  lemma {:induction false} BothLoaded() returns (acts: seq<Action>)
    ensures acts == [Rebaseline(0, None, 0, 0), Publish(0, true), Duplicate(0, 1), Load(0), Load(1)]
    ensures Run(Init(0), acts)
         == System(0, map[0 := NewBaseline(0, 0)],
                   map[0 := Delivery(0, Loaded(Pending)), 1 := Delivery(0, Loaded(Pending))])
  {
    hide Run, Indexed;
    acts := DuplicateQueued();
    var s := System(0, map[0 := NewBaseline(0, 0)], map[0 := Delivery(0, Queued), 1 := Delivery(0, Queued)]);
    Snoc(Init(0), acts, Load(0), s);
    acts := acts + [Load(0)];
    Snoc(Init(0), acts, Load(1), s.(deliveries := map[0 := Delivery(0, Loaded(Pending)), 1 := Delivery(0, Queued)]));
    acts := acts + [Load(1)];
  }

  lemma {:induction false} BothFetching() returns (acts: seq<Action>)
    ensures acts == [Rebaseline(0, None, 0, 0), Publish(0, true), Duplicate(0, 1), Load(0), Load(1), BeginCapture(0),
                     BeginCapture(1)]
    ensures Run(Init(0), acts)
         == System(0, map[0 := NewBaseline(0, 0).(status := Capturing)],
                   map[0 := Delivery(0, Fetching), 1 := Delivery(0, Fetching)])
  {
    var rows := map[0 := NewBaseline(0, 0).(status := Capturing)];
    assert Indexed(rows);
    hide Run, Indexed;
    acts := BothLoaded();
    Snoc(Init(0), acts, BeginCapture(0),
         System(0, map[0 := NewBaseline(0, 0)],
                map[0 := Delivery(0, Loaded(Pending)), 1 := Delivery(0, Loaded(Pending))]));
    assert SetStatus(map[0 := NewBaseline(0, 0)], 0, Capturing) == rows;
    acts := acts + [BeginCapture(0)];
    Snoc(Init(0), acts, BeginCapture(1),
         System(0, rows, map[0 := Delivery(0, Fetching), 1 := Delivery(0, Loaded(Pending))]));
    assert SetStatus(rows, 0, Capturing) == rows;
    acts := acts + [BeginCapture(1)];
  }

  lemma {:induction false} OneDemoted() returns (acts: seq<Action>)
    ensures acts == [Rebaseline(0, None, 0, 0), Publish(0, true), Duplicate(0, 1), Load(0), Load(1), BeginCapture(0),
                     BeginCapture(1), Demote(0)]
    ensures Run(Init(0), acts)
         == System(0, map[0 := NewBaseline(0, 0).(status := Capturing)],
                   map[0 := Delivery(0, Demoted({})), 1 := Delivery(0, Fetching)])
  {
    hide Run;
    acts := BothFetching();
    var s := System(0, map[0 := NewBaseline(0, 0).(status := Capturing)],
                    map[0 := Delivery(0, Fetching), 1 := Delivery(0, Fetching)]);
    assert CurrentOf(s.rows, 0) == {};
    Snoc(Init(0), acts, Demote(0), s);
    acts := acts + [Demote(0)];
  }

  lemma {:induction false} CopyStillFetching(hash: Hash) returns (acts: seq<Action>)
    ensures acts == [Rebaseline(0, None, 0, 0), Publish(0, true), Duplicate(0, 1), Load(0), Load(1), BeginCapture(0),
                     BeginCapture(1), Demote(0), Fetched(0, Page(hash, Some(200)))]
    ensures Run(Init(0), acts)
         == System(0, map[0 := Baseline(0, Ready, true, Some(hash), Some(200), 0)],
                   map[0 := Delivery(0, Finished), 1 := Delivery(0, Fetching)])
  {
    var capturing := map[0 := NewBaseline(0, 0).(status := Capturing)];
    var captured := map[0 := Baseline(0, Ready, true, Some(hash), Some(200), 0)];
    assert Promote(capturing, 0, hash, Some(200), {}) == captured;
    assert Indexed(captured);
    hide Run, Indexed, Promote;
    acts := OneDemoted();
    Snoc(Init(0), acts, Fetched(0, Page(hash, Some(200))),
         System(0, capturing, map[0 := Delivery(0, Demoted({})), 1 := Delivery(0, Fetching)]));
    acts := acts + [Fetched(0, Page(hash, Some(200)))];
  }

  /** With one message delivered twice the anchor can be lost: the copy's fetch
      fails after the first delivery has made the baseline current. */
  lemma {:induction false} DuplicateSpoils(hash: Hash) returns (acts: seq<Action>)
    ensures acts == [Rebaseline(0, None, 0, 0), Publish(0, true), Duplicate(0, 1), Load(0), Load(1), BeginCapture(0),
                     BeginCapture(1), Demote(0), Fetched(0, Page(hash, Some(200)))]
    ensures IsAnchor(Run(Init(0), acts).rows, 0, 0) && Trusted(Run(Init(0), acts).rows[0])
    ensures IsAnchor(Apply(Run(Init(0), acts), Fetched(1, Unreachable)).rows, 0, 0)
    ensures Apply(Run(Init(0), acts), Fetched(1, Unreachable)).rows[0].status == Failed
  {
    hide Run, Indexed;
    acts := CopyStillFetching(hash);
    assert Indexed(Run(Init(0), acts).rows) by { IndexedRun(0, acts); }
    FailedWriteFits(Run(Init(0), acts).rows, 0);
  }

  // ----- the table as the code writes it -----

  datatype Refusal = InProgress | QueueDown

  class BaselineTable {
    var rows: Rows
    var next: Id

    ghost predicate Valid()
      reads this
    {
      Indexed(rows) && forall id :: id in rows ==> id < next
    }

    constructor ()
      ensures Valid() && rows == map[]
    {
      rows, next := map[], 0;
    }

    /** Asks for a new capture. seen is the in-flight capture as it was read some
        time ago; a request that loses leaves the table exactly as it was, and
        one whose publish fails leaves its own row failed. */
    method RebaselineSite(site: SiteId, seen: Option<Id>, now: int, published: bool) returns (res: Result<Id, Refusal>)
      requires Valid() && (seen.Some? ==> seen.value in rows && rows[seen.value].site == site)
      modifies this
      ensures Valid()
      ensures res != Err(InProgress) <==>
              && (seen != None ==>
                    && old(rows)[seen.value].status in {Pending, Capturing}
                    && old(rows)[seen.value].createdAt < now - 600_000_000)
              && (forall id :: id in old(rows) && old(rows)[id].site == site && InFlight(old(rows)[id]) ==>
                    seen == Some(id))
      ensures res == Err(InProgress) ==> rows == old(rows)
      ensures (res.Ok? ==> published && res.value == old(next)) && (res == Err(QueueDown) ==> !published)
      ensures res != Err(InProgress) ==>
                && old(next) !in old(rows)
                && rows == (if seen == None then old(rows)
                            else old(rows)[seen.value := old(rows)[seen.value].(status := Failed)])
                           [old(next) := Baseline(site, if published then Pending else Failed, false, None, None, now)]
    {
      var before := rows;
      if seen.Some? {
        if !IsStale(rows[seen.value], now) {
          return Err(InProgress);
        }
        if !InFlight(rows[seen.value]) {
          return Err(InProgress);
        }
        rows := rows[seen.value := rows[seen.value].(status := Failed)];
      }
      if i :| i in rows && rows[i].site == site && InFlight(rows[i]) {
        TakenSlot(rows, site, next, now, i);
        rows := before;
        return Err(InProgress);
      }
      FreeSlot(rows, site, next, now);
      rows := rows[next := NewBaseline(site, now)];
      if published {
        res := Ok(next);
      } else {
        FailedWriteFits(rows, next);
        rows := rows[next := rows[next].(status := Failed)];
        res := Err(QueueDown);
      }
      next := next + 1;
    }

    /** The capture's last transaction: an unhealthy page fails the row, a healthy
        one demotes whatever was current and takes its place. */
    method FinishCapture(id: Id, outcome: Outcome) returns (ready: bool)
      requires Valid() && id in rows
      modifies this`rows
      ensures Valid()
      ensures ready <==> outcome.Page? && (outcome.http == None || outcome.http.value < 400)
      ensures ready ==>
                && rows.Keys == old(rows).Keys
                && rows[id] == old(rows)[id].(status := Ready, isCurrent := true, hash := Some(outcome.hash),
                                              http := outcome.http)
                && forall i :: i in rows && i != id ==>
                     rows[i] == if old(rows)[i].site == old(rows)[id].site then old(rows)[i].(isCurrent := false)
                                else old(rows)[i]
      ensures !ready ==> rows == old(rows)[id := old(rows)[id].(status := Failed)]
    {
      match outcome
      case Unreachable =>
        FailedWriteFits(rows, id);
        rows := rows[id := rows[id].(status := Failed)];
        ready := false;
      case Page(hash, http) =>
        if http.Some? && http.value >= 400 {
          FailedWriteFits(rows, id);
          rows := rows[id := rows[id].(status := Failed)];
          return false;
        }
        PromoteFits(rows, id, hash, http, CurrentOf(rows, rows[id].site));
        var site := rows[id].site;
        var captured := rows[id];
        rows := map i | i in rows ::
          if rows[i].site == site && rows[i].isCurrent then rows[i].(isCurrent := false) else rows[i];
        rows := rows[id := captured.(hash := Some(hash), http := http, status := Ready, isCurrent := true)];
        assert rows == Promote(old(rows), id, hash, http, CurrentOf(old(rows), site));
        ready := true;
    }
  }

  lemma FreeSlot(rows: Rows, site: SiteId, id: Id, now: int)
    requires Indexed(rows) && id !in rows && forall i :: i in rows && rows[i].site == site ==> !InFlight(rows[i])
    ensures Indexed(rows[id := NewBaseline(site, now)])
  {
  }

  lemma TakenSlot(rows: Rows, site: SiteId, id: Id, now: int, i: Id)
    requires id !in rows && i in rows && rows[i].site == site && InFlight(rows[i])
    ensures !OneInFlight(rows[id := NewBaseline(site, now)])
  {
    var after := rows[id := NewBaseline(site, now)];
    assert InFlight(after[i]) && InFlight(after[id]);
  }
}
