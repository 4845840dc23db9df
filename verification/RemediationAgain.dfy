/** A forgotten delivery is sent again in some continuation of its run. */
module RemediationAgain {
  import opened Prelude
  import opened RemediationModel
  import opened RemediationSafety
  import opened RemediationOrder
  import opened RemediationOnce
  import opened RemediationRecovery

  lemma {:induction false} AboveAll(used: set<nat>) returns (n: nat)
    ensures forall k :: k in used ==> k < n
    decreases used
  {
    n := 0;
    if used != {} {
      var k :| k in used;
      n := AboveAll(used - {k});
      assert forall j :: j in used ==> j == k || j in used - {k};
      n := Max(n, k + 1);
    }
  }

  /** Every worker may be gone. */
  lemma {:induction false} AllDie(s: System) returns (acts: seq<Action>)
    ensures Run(s, acts) == s.(workers := map[])
    decreases |s.workers|
  {
    acts := [];
    if s.workers != map[] {
      var w :| w in s.workers;
      var t := Apply(s, WorkerDies(w));
      assert t.workers.Keys == s.workers.Keys - {w} && |t.workers.Keys| < |s.workers.Keys|;
      var rest := AllDie(t);
      acts := [WorkerDies(w)] + rest;
      RunCons(s, WorkerDies(w), rest);
    }
  }

  lemma MessageIsSent(s: System, id: Id)
    requires s.workers == map[] && id in s.queue && id in s.rows && Claimable(s.rows[id], s.clock)
    ensures Apply(Apply(Apply(s, Start(0, id)), TryClaim(0, s.clock)), Send(0, true)).log
         == s.log + [Claim(id, s.clock), Post(id)]
  {
    ClaimWon(s, id);
    hide ApplyStart, ApplyTryClaim, IsSweep;
    var t := Apply(Apply(s, Start(0, id)), TryClaim(0, s.clock));
    assert Apply(t, Send(0, true)).log == s.log + [Claim(id, s.clock)] + [Post(id)];
  }

  /** A queued row that no worker holds: one more message, after the stale bound. */
  lemma {:induction false} QueuedIsSent(s: System, id: Id) returns (acts: seq<Action>)
    requires s.workers == map[] && id in s.rows && s.rows[id].status == Queued
    requires s.rows[id].executedAt.Some? ==> s.rows[id].executedAt.value <= s.clock
    ensures exists at :: Run(s, acts).log == s.log + [Claim(id, at), Post(id)]
  {
    var now := s.clock + STALE_INFLIGHT + 1;
    var t := Apply(Apply(s, Tick(now)), Redeliver(id));
    assert id in t.queue && t.rows == s.rows && t.workers == map[] && t.log == s.log && t.clock == now;
    hide Run, Apply;
    MessageIsSent(t, id);
    acts := [Tick(now), Redeliver(id), Start(0, id), TryClaim(0, now)] + [Send(0, true)];
    RunFour(s, Tick(now), Redeliver(id), Start(0, id), TryClaim(0, now));
    RunSnoc(s, acts[..4], Send(0, true));
  }

  lemma {:induction false} RunSnoc(s: System, acts: seq<Action>, a: Action)
    ensures Run(s, acts + [a]) == Apply(Run(s, acts), a)
  {
    assert (acts + [a])[..|acts|] == acts;
  }

  /** A row in the confirm queue: an operator confirms it. */
  lemma {:induction false} PendingIsQueued(s: System, id: Id) returns (acts: seq<Action>)
    requires id in s.rows && s.rows[id].status == PendingConfirm
    ensures var t := Run(s, acts);
            t.workers == s.workers && t.clock == s.clock && t.log == s.log + [Confirmed(id)]
            && t.rows == s.rows[id := ConfirmRow(s.rows[id], s.clock)]
  {
    var req := AboveAll(s.confirmers.Keys);
    assert req !in s.confirmers;
    acts := [Confirm(req, id, s.clock, s.clock)];
    assert [Confirm(req, id, s.clock, s.clock)][..0] == [];
  }

  /** An open row is sent by some continuation. */
  lemma OpenIsSent(s: System, id: Id) returns (acts: seq<Action>)
    requires id in s.rows && s.rows[id].status in {Queued, PendingConfirm}
    requires s.rows[id].executedAt.Some? ==> s.rows[id].executedAt.value <= s.clock
    ensures s.log < Run(s, acts).log && Run(s, acts).log[|Run(s, acts).log| - 1] == Post(id)
  {
    acts := AllDie(s);
    var t := Run(s, acts);
    if s.rows[id].status == PendingConfirm {
      var more := PendingIsQueued(t, id);
      RunConcat(s, acts, more);
      acts := acts + more;
      t := Run(s, acts);
    }
    assert s.log <= t.log;
    hide Run;
    var more := QueuedIsSent(t, id);
    RunConcat(s, acts, more);
    acts := acts + more;
  }

  /** What a forgotten row looks like. */
  lemma ForgottenIsOpen(s: System, a: Action, id: Id)
    requires OpenInv(s) && Forgets(s, a, id)
    ensures id in Apply(s, a).rows && !Ended(Apply(s, a).rows, id)
  {
    assert Handled(s, id) by {
      assert a.WorkerDies? ==> Unrecorded(s, a.w, id);
    }
    if a.WorkerDies? {
      assert InWindow(s, a.w) && Holds(s, a.w);
    }
    HandledStep(s, a, id);
  }

  lemma OpenNow(s: System, id: Id)
    requires OpenInv(s) && id in s.rows && !Ended(s.rows, id) && s.rows[id].status != Dismissed
    ensures s.rows[id].status in {Queued, PendingConfirm}
    ensures s.rows[id].executedAt.Some? ==> s.rows[id].executedAt.value <= s.clock
  {
    hide InWindow, ClaimsSpaced, StampKept;
  }

  /** The two forgetting steps matter: after either of them, unless the row is
      dismissed, some continuation of the run POSTs the execution. */
  lemma {:induction false} ForgottenIsSentAgain(clock: int, acts: seq<Action>, a: Action, id: Id)
    returns (more: seq<Action>)
    requires Forgets(Run(Init(clock), acts), a, id)
    requires id in Run(Init(clock), acts + [a]).rows ==> Run(Init(clock), acts + [a]).rows[id].status != Dismissed
    ensures var before, after := Run(Init(clock), acts + [a]).log, Run(Init(clock), acts + [a] + more).log;
            before < after && after[|after| - 1] == Post(id)
  {
    hide Run, Apply, Forgets, OpenInv, Ended;
    OpenRun(clock, acts);
    RunSnoc(Init(clock), acts, a);
    ForgottenIsOpen(Run(Init(clock), acts), a, id);
    OpenRun(clock, acts + [a]);
    OpenNow(Run(Init(clock), acts + [a]), id);
    more := OpenIsSent(Run(Init(clock), acts + [a]), id);
    RunConcat(Init(clock), acts + [a], more);
  }
}
