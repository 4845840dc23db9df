/** Frozen agent actions: proposals, confirmations, cancellations, superseding
    proposals and expiry, each a few transactions, in every order. */
module AgentGuard {
  import opened Prelude

  const SECOND := 1_000_000
  const PENDING_TTL := 600 * SECOND

  type Id = nat
  type User = nat

  datatype Status = Pending | Confirmed | Cancelled | Expired

  datatype Row = Row(conversation: nat, user: User, tool: string, args: string, status: Status, expiresAt: int)

  type Rows = map<Id, Row>

  datatype Proposal = Proposal(conversation: nat, user: User, tool: string, args: string)

  function Frozen(p: Proposal, now: int): Row {
    Row(p.conversation, p.user, p.tool, p.args, Pending, now + PENDING_TTL)
  }

  /** The pending rows of a conversation that a new proposal will cancel. */
  function Prior(rows: Rows, conversation: nat): set<Id> {
    set id | id in rows && rows[id].conversation == conversation && rows[id].status == Pending
  }

  /** The superseding write: by row id, without looking at the status again. */
  function CancelAll(rows: Rows, ids: set<Id>): Rows {
    map id | id in rows :: if id in ids then rows[id].(status := Cancelled) else rows[id]
  }

  predicate Resolvable(r: Row, now: int) { r.status == Pending && r.expiresAt >= now }

  function ExpireStale(rows: Rows, now: int): Rows {
    map id | id in rows ::
      if rows[id].status == Pending && rows[id].expiresAt < now then rows[id].(status := Expired) else rows[id]
  }

  // A request between two of its transactions.
  datatype Request =
    | Creating(proposal: Proposal, prior: set<Id>)
    | Executing(id: Id, actor: User)
    | Settling(id: Id)

  datatype Event =
    | Won(id: Id, actor: User, at: int)
    | Ran(id: Id, actor: User, tool: string, args: string)

  // proposals and log are history; no step reads them.
  datatype System = System(clock: int, rows: Rows, next: Id, requests: map<nat, Request>, proposals: map<Id, Proposal>,
                           log: seq<Event>)

  function Init(clock: int): System { System(clock, map[], 0, map[], map[], []) }

  datatype Action =
    | Tick(to: int)
    | Propose(req: nat, proposal: Proposal)
    | Freeze(req: nat, now: int)
    | Resolve(req: nat, id: Id, actor: User, confirm: bool, allowed: bool, now: int)
    | Settle(req: nat)
    | Execute(req: nat)
    | Janitor(now: int)
    | Dies(req: nat)

  function Done(s: System, req: nat): map<nat, Request> { s.requests - {req} }

  function ApplyResolve(s: System, a: Action): System
    requires a.Resolve?
  {
    if a.req in s.requests || a.now > s.clock || a.id !in s.rows then s
    else
      var r := s.rows[a.id];
      if r.user != a.actor || (a.confirm && !a.allowed) then s
      else if !Resolvable(r, a.now) then s.(requests := s.requests[a.req := Settling(a.id)])
      else if a.confirm then
        s.(rows := s.rows[a.id := r.(status := Confirmed)], requests := s.requests[a.req := Executing(a.id, a.actor)],
           log := s.log + [Won(a.id, a.actor, a.now)])
      else s.(rows := s.rows[a.id := r.(status := Cancelled)])
  }

  function Apply(s: System, a: Action): System {
    match a
    case Tick(to) => if to >= s.clock then s.(clock := to) else s
    case Propose(req, p) =>
      if req in s.requests then s
      else s.(requests := s.requests[req := Creating(p, Prior(s.rows, p.conversation))])
    case Freeze(req, now) =>
      if req in s.requests && s.requests[req].Creating? && now <= s.clock then
        var r := s.requests[req];
        s.(rows := CancelAll(s.rows, r.prior)[s.next := Frozen(r.proposal, now)], next := s.next + 1,
           requests := Done(s, req), proposals := s.proposals[s.next := r.proposal])
      else s
    case Resolve(_, _, _, _, _, _) => ApplyResolve(s, a)
    case Settle(req) =>
      if req in s.requests && s.requests[req].Settling? && s.requests[req].id in s.rows then
        var id := s.requests[req].id;
        var s' := s.(requests := Done(s, req));
        if s.rows[id].status == Pending then s'.(rows := s.rows[id := s.rows[id].(status := Expired)]) else s'
      else s
    case Execute(req) =>
      if req in s.requests && s.requests[req].Executing? && s.requests[req].id in s.rows then
        var r := s.rows[s.requests[req].id];
        s.(requests := Done(s, req), log := s.log + [Ran(s.requests[req].id, s.requests[req].actor, r.tool, r.args)])
      else s
    case Janitor(now) => if now <= s.clock then s.(rows := ExpireStale(s.rows, now)) else s
    case Dies(req) => s.(requests := Done(s, req))
  }

  function Run(s: System, acts: seq<Action>): System {
    if acts == [] then s else Apply(Run(s, acts[..|acts| - 1]), acts[|acts| - 1])
  }

  // ----- what every interleaving keeps -----

  /** A row says what its proposal said. */
  predicate Faithful(r: Row, p: Proposal) {
    r.conversation == p.conversation && r.user == p.user && r.tool == p.tool && r.args == p.args
  }

  predicate RowsInv(s: System) {
    && (forall id :: id in s.rows ==> id < s.next && id in s.proposals && Faithful(s.rows[id], s.proposals[id]))
    && (forall q :: q in s.requests && s.requests[q].Settling? ==> SettlingOk(s, s.requests[q].id))
  }

  /** A refused claim on a row that is still pending found it expired. */
  predicate SettlingOk(s: System, id: Id) {
    id in s.rows && (s.rows[id].status == Pending ==> s.rows[id].expiresAt < s.clock)
  }

  /** A won claim: by the proposer, in time, on a row no longer pending. */
  predicate WonOk(s: System, e: Event)
    requires e.Won?
  {
    e.id in s.rows && s.rows[e.id].status != Pending && e.actor == s.rows[e.id].user && e.at <= s.rows[e.id].expiresAt
  }

  predicate Held(s: System, id: Id) {
    exists q :: q in s.requests && s.requests[q].Executing? && s.requests[q].id == id
  }

  predicate WonBy(log: seq<Event>, id: Id, actor: User) {
    exists k :: 0 <= k < |log| && log[k].Won? && log[k].id == id && log[k].actor == actor
  }

  predicate SameRun(r: Request, q: Request) { r.Executing? && q.Executing? && r.id == q.id }

  predicate RunInv(s: System) {
    && (forall k :: 0 <= k < |s.log| && s.log[k].Won? ==> WonOk(s, s.log[k]))
    && (forall j, k :: 0 <= j < k < |s.log| && s.log[j].Won? && s.log[k].Won? ==> s.log[j].id != s.log[k].id)
    && (forall q :: q in s.requests && s.requests[q].Executing? ==>
          s.requests[q].id in s.rows && WonBy(s.log, s.requests[q].id, s.requests[q].actor))
    && (forall p, q :: p in s.requests && q in s.requests && SameRun(s.requests[p], s.requests[q]) ==> p == q)
    && (forall k :: 0 <= k < |s.log| && s.log[k].Ran? ==> RanOk(s, k))
    && (forall j, k :: 0 <= j < k < |s.log| && s.log[j].Ran? && s.log[k].Ran? ==> s.log[j].id != s.log[k].id)
  }

  /** A run: after a won claim of the same user, with the proposal's own tool
      and arguments, and nobody else is about to run it again. */
  predicate RanOk(s: System, k: nat)
    requires k < |s.log| && s.log[k].Ran?
  {
    var e := s.log[k];
    && WonBy(s.log[..k], e.id, e.actor)
    && e.id in s.proposals && e.actor == s.proposals[e.id].user && e.tool == s.proposals[e.id].tool
    && e.args == s.proposals[e.id].args
    && !Held(s, e.id)
  }

  lemma RowsFrozen(s: System, a: Action)
    requires RowsInv(s) && a.Freeze?
    ensures RowsInv(Apply(s, a))
  {
    hide ApplyResolve, ExpireStale, Prior;
    var t := Apply(s, a);
    forall q | q in t.requests && t.requests[q].Settling? ensures SettlingOk(t, t.requests[q].id) {
      assert SettlingOk(s, s.requests[q].id);
    }
  }

  lemma RowsStep(s: System, a: Action)
    requires RowsInv(s)
    ensures RowsInv(Apply(s, a))
  {
    if a.Freeze? {
      RowsFrozen(s, a);
    } else {
      hide CancelAll, Prior, Faithful;
      var t := Apply(s, a);
      forall q | q in t.requests && t.requests[q].Settling? ensures SettlingOk(t, t.requests[q].id) {
        if q in s.requests && s.requests[q] == t.requests[q] {
          assert SettlingOk(s, s.requests[q].id);
        }
      }
      forall id | id in t.rows
        ensures id < t.next && id in t.proposals && Faithful(t.rows[id], t.proposals[id])
      {
        SameFaith(s.rows[id], t.rows[id], s.proposals[id]);
      }
    }
  }

  lemma SameFaith(r: Row, u: Row, p: Proposal)
    requires Faithful(r, p) && u == r.(status := u.status)
    ensures Faithful(u, p)
  {
  }

  /** What one step may do to rows, proposals and claims when it logs nothing. */
  predicate Unlogged(s: System, t: System) {
    && t.log == s.log
    && (forall id :: id in s.rows ==> KeepsRow(t.rows, id, s.rows[id]))
    && (forall id :: id in s.proposals && id < s.next ==> id in t.proposals && t.proposals[id] == s.proposals[id])
    && (forall q :: q in t.requests && t.requests[q].Executing? ==> q in s.requests && s.requests[q] == t.requests[q])
  }

  predicate KeepsRow(rows: Rows, id: Id, r: Row) {
    && id in rows && rows[id].user == r.user && rows[id].expiresAt == r.expiresAt
    && (r.status != Pending ==> rows[id].status != Pending)
  }

  lemma UnloggedKeeps(s: System, t: System)
    requires RowsInv(s) && RunInv(s) && Unlogged(s, t)
    ensures RunInv(t)
  {
    forall k | 0 <= k < |t.log| && t.log[k].Won? ensures WonOk(t, t.log[k]) {
      assert WonOk(s, s.log[k]);
    }
    forall k | 0 <= k < |t.log| && t.log[k].Ran? ensures RanOk(t, k) {
      assert RanOk(s, k);
      var w :| 0 <= w < k && s.log[..k][w].Won? && s.log[..k][w].id == s.log[k].id;
      assert WonOk(s, s.log[w]);
    }
  }

  lemma UnloggedSteps(s: System, a: Action)
    requires RowsInv(s) && Apply(s, a).log == s.log
    ensures Unlogged(s, Apply(s, a))
  {
    hide SettlingOk, Faithful, Prior;
  }

  lemma WonLater(log: seq<Event>, longer: seq<Event>, id: Id, actor: User)
    requires WonBy(log, id, actor) && log <= longer
    ensures WonBy(longer, id, actor)
  {
    var k :| 0 <= k < |log| && log[k].Won? && log[k].id == id && log[k].actor == actor;
    assert longer[k] == log[k];
  }

  /** A pending card was never claimed, so nobody executes it or has. */
  lemma PendingUnclaimed(s: System, id: Id)
    requires RunInv(s) && id in s.rows && s.rows[id].status == Pending
    ensures forall k :: 0 <= k < |s.log| && s.log[k].Won? ==> s.log[k].id != id
    ensures forall q :: q in s.requests && s.requests[q].Executing? ==> s.requests[q].id != id
    ensures forall k :: 0 <= k < |s.log| && s.log[k].Ran? ==> s.log[k].id != id
  {
    forall k | 0 <= k < |s.log| && s.log[k].Won? ensures s.log[k].id != id {
      assert WonOk(s, s.log[k]);
    }
    forall q | q in s.requests && s.requests[q].Executing? ensures s.requests[q].id != id {
      var k :| 0 <= k < |s.log| && s.log[k].Won? && s.log[k].id == s.requests[q].id;
    }
    forall k | 0 <= k < |s.log| && s.log[k].Ran? ensures s.log[k].id != id {
      assert RanOk(s, k);
      var w :| 0 <= w < k && s.log[..k][w].Won? && s.log[..k][w].id == s.log[k].id;
      assert s.log[w].Won?;
    }
  }

  lemma ClaimRans(s: System, a: Action)
    requires RunInv(s) && a.Resolve? && Apply(s, a).log != s.log
    ensures forall k :: 0 <= k < |Apply(s, a).log| && Apply(s, a).log[k].Ran? ==> RanOk(Apply(s, a), k)
  {
    hide CancelAll, ExpireStale, Prior, WonOk, WonBy;
    PendingUnclaimed(s, a.id);
    var t := Apply(s, a);
    forall k | 0 <= k < |t.log| && t.log[k].Ran? ensures RanOk(t, k) {
      assert RanOk(s, k);
      assert t.log[..k] == s.log[..k];
    }
  }

  lemma ClaimKeeps(s: System, a: Action)
    requires RunInv(s) && a.Resolve? && Apply(s, a).log != s.log
    ensures RunInv(Apply(s, a))
  {
    hide CancelAll, ExpireStale, Prior, RanOk;
    PendingUnclaimed(s, a.id);
    ClaimRans(s, a);
    var t := Apply(s, a);
    assert t.log[|s.log|] == Won(a.id, a.actor, a.now);
    forall k | 0 <= k < |s.log| && s.log[k].Won? ensures WonOk(t, t.log[k]) {
      assert WonOk(s, s.log[k]);
    }
    forall q | q in t.requests && t.requests[q].Executing?
      ensures t.requests[q].id in t.rows && WonBy(t.log, t.requests[q].id, t.requests[q].actor)
    {
      if q in s.requests {
        WonLater(s.log, t.log, s.requests[q].id, s.requests[q].actor);
      }
    }
  }

  lemma ExecuteRans(s: System, a: Action)
    requires RowsInv(s) && RunInv(s) && a.Execute? && Apply(s, a).log != s.log
    ensures forall k :: 0 <= k < |Apply(s, a).log| && Apply(s, a).log[k].Ran? ==> RanOk(Apply(s, a), k)
    ensures forall k :: 0 <= k < |s.log| && s.log[k].Ran? ==> s.log[k].id != s.requests[a.req].id
  {
    hide ApplyResolve, CancelAll, ExpireStale, Prior;
    var t := Apply(s, a);
    var r := s.requests[a.req];
    assert t.log[..|s.log|] == s.log;
    assert Held(s, r.id);
    forall k | 0 <= k < |s.log| && s.log[k].Ran? ensures RanOk(t, k) && s.log[k].id != r.id {
      assert RanOk(s, k) && t.log[..k] == s.log[..k];
    }
    var w :| 0 <= w < |s.log| && s.log[w].Won? && s.log[w].id == r.id && s.log[w].actor == r.actor;
    assert WonOk(s, s.log[w]);
    assert RanOk(t, |s.log|);
  }

  lemma ExecuteKeeps(s: System, a: Action)
    requires RowsInv(s) && RunInv(s) && a.Execute? && Apply(s, a).log != s.log
    ensures RunInv(Apply(s, a))
  {
    ExecuteRans(s, a);
    hide ApplyResolve, CancelAll, ExpireStale, Prior, RanOk, WonBy;
    var t := Apply(s, a);
    assert t.log[..|s.log|] == s.log;
    forall k | 0 <= k < |s.log| && s.log[k].Won? ensures WonOk(t, t.log[k]) {
      assert WonOk(s, s.log[k]);
    }
    forall q | q in t.requests && t.requests[q].Executing?
      ensures t.requests[q].id in t.rows && WonBy(t.log, t.requests[q].id, t.requests[q].actor)
    {
      WonLater(s.log, t.log, s.requests[q].id, s.requests[q].actor);
    }
  }

  lemma Step(s: System, a: Action)
    requires RowsInv(s) && RunInv(s)
    ensures RowsInv(Apply(s, a)) && RunInv(Apply(s, a))
  {
    hide RunInv, RowsInv;
    RowsStep(s, a);
    if Apply(s, a).log == s.log {
      UnloggedSteps(s, a);
      UnloggedKeeps(s, Apply(s, a));
    } else if a.Resolve? {
      ClaimKeeps(s, a);
    } else {
      ExecuteKeeps(s, a);
    }
  }

  lemma {:induction false} Always(clock: int, acts: seq<Action>)
    ensures RowsInv(Run(Init(clock), acts)) && RunInv(Run(Init(clock), acts))
  {
    hide Apply;
    if acts != [] {
      Always(clock, acts[..|acts| - 1]);
      Step(Run(Init(clock), acts[..|acts| - 1]), acts[|acts| - 1]);
    }
  }

  /** In every interleaving an action's executor runs at most once, only for the
      proposer, only after a claim that was made in time, and only with the tool
      and arguments that were frozen. */
  lemma {:induction false} FrozenActionOnce(clock: int, acts: seq<Action>)
    ensures var s := Run(Init(clock), acts);
            && (forall j, k :: 0 <= j < k < |s.log| && s.log[j].Ran? && s.log[k].Ran? ==> s.log[j].id != s.log[k].id)
            && (forall k :: 0 <= k < |s.log| && s.log[k].Ran? ==> RanOk(s, k))
            && (forall k :: 0 <= k < |s.log| && s.log[k].Won? ==> WonOk(s, s.log[k]))
            && (forall id :: id in s.rows ==> id in s.proposals && Faithful(s.rows[id], s.proposals[id]))
  {
    Always(clock, acts);
  }

  /** No status ever returns to pending, and a settled status changes exactly
      when a proposal that had read the row as pending writes its cancellation. */
  lemma {:induction false} SettledStatus(clock: int, acts: seq<Action>, a: Action, id: Id)
    requires id in Run(Init(clock), acts).rows && Run(Init(clock), acts).rows[id].status != Pending
    ensures var s := Run(Init(clock), acts);
            var t := Apply(s, a);
            && id in t.rows && t.rows[id].status != Pending
            && (t.rows[id].status != s.rows[id].status <==>
                  && a.Freeze? && a.now <= s.clock && a.req in s.requests && s.requests[a.req].Creating?
                  && id in s.requests[a.req].prior && s.rows[id].status != Cancelled)
  {
    Always(clock, acts);
  }

  /** A resolving step claims exactly its owner's pending card in time: a confirm
      goes on to execute it, a cancel settles it. A refusal for any reason but the
      card's own state changes nothing. */
  lemma ResolveExactly(s: System, a: Action)
    requires a.Resolve? && a.req !in s.requests && a.now <= s.clock && a.id in s.rows
    ensures var r, t := s.rows[a.id], Apply(s, a);
            var mine := r.user == a.actor && (a.confirm ==> a.allowed);
            && (!mine ==> t == s)
            && (mine && r.status == Pending && a.now <= r.expiresAt ==>
                  && t.rows == s.rows[a.id := r.(status := if a.confirm then Confirmed else Cancelled)]
                  && t.requests == (if a.confirm then s.requests[a.req := Executing(a.id, a.actor)] else s.requests)
                  && t.log == s.log + (if a.confirm then [Won(a.id, a.actor, a.now)] else []))
            && (mine && !(r.status == Pending && a.now <= r.expiresAt) ==>
                  t == s.(requests := s.requests[a.req := Settling(a.id)]))
  {
  }

  /** Behind a won claim the frozen tool runs with the frozen arguments; behind a
      refused one a card that is still pending expires. */
  lemma AfterResolving(s: System, req: nat)
    requires req in s.requests && !s.requests[req].Creating? && s.requests[req].id in s.rows
    ensures var r, id := s.requests[req], s.requests[req].id;
            && (r.Executing? ==>
                  Apply(s, Execute(req))
                  == s.(requests := s.requests - {req},
                        log := s.log + [Ran(id, r.actor, s.rows[id].tool, s.rows[id].args)]))
            && (r.Settling? ==>
                  Apply(s, Settle(req))
                  == s.(requests := s.requests - {req},
                        rows := s.rows[id := s.rows[id].(status := if s.rows[id].status == Pending then Expired
                                                                   else s.rows[id].status)]))
  {
  }

  /** The janitor expires exactly the pending cards whose time is over. */
  lemma JanitorExactly(s: System, now: int)
    requires now <= s.clock
    ensures Apply(s, Janitor(now)).rows.Keys == s.rows.Keys
    ensures forall id :: id in s.rows ==>
              Apply(s, Janitor(now)).rows[id]
              == if s.rows[id].status == Pending && s.rows[id].expiresAt < now then s.rows[id].(status := Expired)
                 else s.rows[id]
  {
  }

  /** A proposal's commit cancels exactly the cards it had read, and adds its own
      for ten minutes with the proposed tool and arguments. */
  lemma FreezeExactly(s: System, req: nat, now: int)
    requires RowsInv(s) && req in s.requests && s.requests[req].Creating? && now <= s.clock
    ensures var p, prior, t := s.requests[req].proposal, s.requests[req].prior, Apply(s, Freeze(req, now));
            && t.rows.Keys == s.rows.Keys + {s.next} && s.next !in s.rows
            && t.rows[s.next] == Row(p.conversation, p.user, p.tool, p.args, Pending, now + 600_000_000)
            && (forall id :: id in s.rows ==>
                  t.rows[id] == if id in prior then s.rows[id].(status := Cancelled) else s.rows[id])
            && t.next == s.next + 1 && t.requests == s.requests - {req}
  {
  }

  /** Such an overwrite is reachable: a proposal reads the card, the user confirms
      it, and the proposal then cancels what is already running. */
  lemma ConfirmedThenCancelled(p: Proposal)
    ensures var s := Apply(Apply(Apply(Apply(Init(0), Propose(0, p)), Freeze(0, 0)), Propose(1, p)),
                           Resolve(2, 0, p.user, true, true, 0));
            && 0 in s.rows && s.rows[0].status == Confirmed
            && 2 in s.requests && s.requests[2] == Executing(0, p.user)
            && Apply(s, Freeze(1, 0)).rows[0].status == Cancelled
  {
    var s1 := Apply(Init(0), Propose(0, p));
    assert Prior(map[], p.conversation) == {};
    assert s1.requests == map[0 := Creating(p, {})];
    var s2 := Apply(s1, Freeze(0, 0));
    assert s2.rows == map[0 := Frozen(p, 0)] && s2.requests == map[];
    assert Prior(s2.rows, p.conversation) == {0};
    var s3 := Apply(s2, Propose(1, p));
    assert s3.requests == map[1 := Creating(p, {0})];
  }

  // ----- one pending card per conversation -----

  predicate SameConversation(r: Row, u: Row) {
    r.status == Pending && u.status == Pending && r.conversation == u.conversation
  }

  /** The documented promise: a conversation has at most one pending card. */
  predicate OnePending(rows: Rows) {
    forall i, j :: i in rows && j in rows && SameConversation(rows[i], rows[j]) ==> i == j
  }

  /** A proposal is about to commit beside a pending card it did not read. */
  predicate PilesUp(s: System, a: Action) {
    && a.Freeze? && a.req in s.requests && s.requests[a.req].Creating? && a.now <= s.clock
    && exists i :: i in Prior(s.rows, s.requests[a.req].proposal.conversation) && i !in s.requests[a.req].prior
  }

  /** A proposal leaves its own card as the conversation's only pending one if and
      only if it had read every card that is pending when it commits. */
  lemma FreezeSupersedes(s: System, req: nat, now: int)
    requires RowsInv(s) && req in s.requests && s.requests[req].Creating? && now <= s.clock
    ensures var c := s.requests[req].proposal.conversation;
            Prior(Apply(s, Freeze(req, now)).rows, c) == {s.next} <==> Prior(s.rows, c) <= s.requests[req].prior
  {
    hide Faithful, SettlingOk;
    var c, prior := s.requests[req].proposal.conversation, s.requests[req].prior;
    var t := Apply(s, Freeze(req, now));
    assert Prior(t.rows, c) == (Prior(s.rows, c) - prior) + {s.next};
    if i :| i in Prior(s.rows, c) && i !in prior {
      assert i in Prior(t.rows, c) && i != s.next;
    }
  }

  lemma FreezePiles(s: System, a: Action)
    requires RowsInv(s) && OnePending(s.rows) && a.Freeze?
    ensures OnePending(Apply(s, a).rows) <==> !PilesUp(s, a)
  {
    hide Faithful, SettlingOk, ApplyResolve, ExpireStale;
    var t := Apply(s, a);
    if t != s {
      var c := s.requests[a.req].proposal.conversation;
      if i :| i in Prior(s.rows, c) && i !in s.requests[a.req].prior {
        assert SameConversation(t.rows[i], t.rows[s.next]) && i != s.next;
      }
    }
  }

  lemma PileStep(s: System, a: Action)
    requires RowsInv(s) && OnePending(s.rows)
    ensures OnePending(Apply(s, a).rows) <==> !PilesUp(s, a)
  {
    if a.Freeze? {
      FreezePiles(s, a);
    } else {
      hide RowsInv, CancelAll, Prior;
      var t := Apply(s, a);
      assert forall i :: i in t.rows && t.rows[i].status == Pending ==> i in s.rows && t.rows[i] == s.rows[i];
    }
  }

  predicate AlwaysOne(clock: int, acts: seq<Action>, n: nat)
    requires n <= |acts|
  {
    forall k {:trigger acts[..k]} :: 0 <= k <= n ==> OnePending(Run(Init(clock), acts[..k]).rows)
  }

  predicate NeverPilesUp(clock: int, acts: seq<Action>, n: nat)
    requires n <= |acts|
  {
    forall k {:trigger acts[..k]} :: 0 <= k < n ==> !PilesUp(Run(Init(clock), acts[..k]), acts[k])
  }

  lemma {:induction false} OneUpTo(clock: int, acts: seq<Action>, n: nat)
    requires n <= |acts|
    ensures AlwaysOne(clock, acts, n) <==> NeverPilesUp(clock, acts, n)
  {
    hide Apply, PilesUp, RowsInv, RunInv;
    if n == 0 {
      assert acts[..0] == [];
    } else {
      hide OnePending;
      OneUpTo(clock, acts, n - 1);
      assert acts[..n][..n - 1] == acts[..n - 1];
      var s := Run(Init(clock), acts[..n - 1]);
      if AlwaysOne(clock, acts, n - 1) {
        Always(clock, acts[..n - 1]);
        PileStep(s, acts[n - 1]);
      } else {
        assert !AlwaysOne(clock, acts, n);
      }
    }
  }

  /** A run never leaves two pending cards in a conversation if and only if none
      of its proposals commits beside a pending card it had not read. */
  lemma {:induction false} OnePendingExactly(clock: int, acts: seq<Action>)
    ensures AlwaysOne(clock, acts, |acts|) <==> NeverPilesUp(clock, acts, |acts|)
  {
    OneUpTo(clock, acts, |acts|);
  }

  /** Two turns of a conversation that propose at the same time leave two. */
  lemma {:induction false} TwoPending(p: Proposal) returns (acts: seq<Action>)
    ensures acts == [Propose(0, p), Propose(1, p), Freeze(0, 0), Freeze(1, 0)]
    ensures Prior(Run(Init(0), acts).rows, p.conversation) == {0, 1}
  {
    acts := [Propose(0, p), Propose(1, p), Freeze(0, 0), Freeze(1, 0)];
    assert Prior(map[], p.conversation) == {};
    var s1 := Apply(Init(0), acts[0]);
    var s2 := Apply(s1, acts[1]);
    assert s2.requests == map[0 := Creating(p, {}), 1 := Creating(p, {})];
    var s3 := Apply(s2, acts[2]);
    assert s3.rows == map[0 := Frozen(p, 0)] && s3.requests == map[1 := Creating(p, {})];
    var s4 := Apply(s3, acts[3]);
    assert s4.rows == map[0 := Frozen(p, 0), 1 := Frozen(p, 0)];
    RunFour(Init(0), acts[0], acts[1], acts[2], acts[3]);
  }

  lemma {:induction false} RunFour(s: System, a: Action, b: Action, c: Action, d: Action)
    ensures Run(s, [a, b, c, d]) == Apply(Apply(Apply(Apply(s, a), b), c), d)
  {
    hide Apply;
    assert [a, b, c, d][..3] == [a, b, c] && [a, b, c][..2] == [a, b] && [a, b][..1] == [a] && [a][..0] == [];
    assert Run(s, [a]) == Apply(s, a);
    assert Run(s, [a, b]) == Apply(Run(s, [a]), b);
    assert Run(s, [a, b, c]) == Apply(Run(s, [a, b]), c);
  }

  /** A row only expires once its time is over. */
  lemma {:induction false} ExpiresLate(clock: int, acts: seq<Action>, a: Action, id: Id)
    requires id in Run(Init(clock), acts).rows && Run(Init(clock), acts).rows[id].status != Expired
    requires Apply(Run(Init(clock), acts), a).rows[id].status == Expired
    ensures Run(Init(clock), acts).rows[id].expiresAt < Run(Init(clock), acts).clock
  {
    Always(clock, acts);
    var s := Run(Init(clock), acts);
    if a.Settle? {
      assert SettlingOk(s, s.requests[a.req].id);
    }
  }

  // ----- the guard's own calls -----

  datatype Refusal = NoSuchAction | ForeignAction | ToolGone | RoleTooLow | Late | Already(status: Status)

  class ActionTable {
    var rows: Rows
    var next: Id

    ghost predicate Valid()
      reads this
    {
      forall id :: id in rows ==> id < next
    }

    constructor ()
      ensures Valid() && rows == map[]
    {
      rows, next := map[], 0;
    }

    /** Freezes a call; every older pending one of the conversation is cancelled. */
    method CreatePending(p: Proposal, now: int) returns (id: Id)
      requires Valid()
      modifies this
      ensures Valid() && id !in old(rows)
      ensures rows.Keys == old(rows).Keys + {id}
      ensures rows[id] == Row(p.conversation, p.user, p.tool, p.args, Pending, now + 600_000_000)
      ensures forall i :: i in old(rows) ==>
                rows[i] == if old(rows)[i].conversation == p.conversation && old(rows)[i].status == Pending
                           then old(rows)[i].(status := Cancelled) else old(rows)[i]
      ensures Prior(rows, p.conversation) == {id}
    {
      var left := Prior(rows, p.conversation);
      ghost var prior := left;
      while left != {}
        invariant Valid() && next == old(next) && left <= prior <= rows.Keys == old(rows).Keys
        invariant forall i :: i in rows && i in prior - left ==> rows[i] == old(rows)[i].(status := Cancelled)
        invariant forall i :: i in rows && i !in prior - left ==> rows[i] == old(rows)[i]
        decreases left
      {
        var i :| i in left;
        rows := rows[i := rows[i].(status := Cancelled)];
        left := left - {i};
      }
      assert rows == CancelAll(old(rows), prior);
      id := next;
      rows := rows[id := Row(p.conversation, p.user, p.tool, p.args, Pending, now + PENDING_TTL)];
      next := next + 1;
    }

    /** Confirms or cancels. A refused confirm leaves the card as it was; only a
        card past its time is settled as expired. Ok holds the arguments to run. */
    method ResolvePending(id: Id, actor: User, confirm: bool, toolExists: bool, roleAllows: bool, now: int)
      returns (res: Result<Option<string>, Refusal>)
      requires Valid()
      modifies this`rows
      ensures Valid()
      ensures res.Ok? <==>
              id in old(rows) && old(rows)[id].user == actor && (confirm ==> toolExists && roleAllows)
                  && old(rows)[id].status == Pending && now <= old(rows)[id].expiresAt
      ensures res.Ok? ==> rows == old(rows)[id := old(rows)[id].(status := if confirm then Confirmed else Cancelled)]
      ensures res.Ok? ==> res.value == if confirm then Some(old(rows)[id].args) else None
      ensures res == Err(Late) <==>
              id in old(rows) && old(rows)[id].user == actor && (confirm ==> toolExists && roleAllows)
                                    && old(rows)[id].status == Pending && old(rows)[id].expiresAt < now
      ensures res == Err(Late) ==> rows == old(rows)[id := old(rows)[id].(status := Expired)]
      ensures res.Err? && res.error != Late ==> rows == old(rows)
      ensures res.Err? && res.error.Already? ==> id in old(rows) && res.error.status == old(rows)[id].status
    {
      if id !in rows {
        return Err(NoSuchAction);
      }
      var action := rows[id];
      if action.user != actor {
        return Err(ForeignAction);
      }
      if confirm {
        if !toolExists {
          return Err(ToolGone);
        }
        if !roleAllows {
          return Err(RoleTooLow);
        }
      }
      var target := if confirm then Confirmed else Cancelled;
      if !(action.status == Pending && action.expiresAt >= now) {
        if action.status == Pending {
          rows := rows[id := action.(status := Expired)];
          return Err(Late);
        }
        return Err(Already(action.status));
      }
      rows := rows[id := action.(status := target)];
      if !confirm {
        return Ok(None);
      }
      res := Ok(Some(rows[id].args));
    }
  }
}
