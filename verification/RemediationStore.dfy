/** The remediation table and its endpoints as the code runs them, undisturbed,
    in terms of the row functions that the state machine's steps use. */
module RemediationStore {
  import opened Prelude
  import opened RemediationModel

  datatype FireResult = Missing | NotQueued | NotClaimed | Recorded(status: Status)

  datatype ConfirmResult = NotFound | Conflict(status: Status) | Queueing | QueueDown

  /** The unique (hook, scan) index. */
  ghost predicate UniquePairs(rows: Rows) {
    forall i, j :: i in rows && j in rows && rows[i].hook == rows[j].hook && rows[i].scan == rows[j].scan ==> i == j
  }

  lemma CreateOneUnique(b: Batch, h: Hook, scan: nat, risk: real, now: int)
    requires UniquePairs(b.rows) && forall id :: id in b.rows ==> id < b.next
    ensures UniquePairs(CreateOne(b, h, scan, risk, now).rows)
    ensures forall id :: id in CreateOne(b, h, scan, risk, now).rows ==> id < CreateOne(b, h, scan, risk, now).next
  {
  }

  /** An undisturbed confirm is two steps of the state machine: the claim, and
      the publish or its taking back. */
  lemma ConfirmSteps(s: System, req: nat, id: Id, now: int, staleNow: int, published: bool)
    requires now <= staleNow <= s.clock && req !in s.confirmers && id in s.rows && Confirmable(s.rows[id], staleNow)
    ensures var confirmed := ConfirmRow(s.rows[id], now);
            Apply(Apply(s, Confirm(req, id, now, staleNow)), Enqueue(req, published))
            == s.(rows := s.rows[id := if published then confirmed else confirmed.(status := PendingConfirm)],
                  queue := if published then s.queue + multiset{id} else s.queue, log := s.log + [Confirmed(id)])
  {
    var t := Apply(s, Confirm(req, id, now, staleNow));
    assert Without(t.confirmers, req) == s.confirmers;
  }

  /** So is the scan task's transaction and the publishing behind it one step. */
  lemma CreateStep(s: System, scan: nat, risk: real, hooks: seq<Hook>, fault: bool, lost: set<Id>)
    ensures var b := CreateAll(Batch(s.rows, s.next, [], s.log), hooks, scan, risk, s.clock);
            var t := Apply(s, Create(scan, risk, hooks, !fault, lost));
            && t.rows == (if fault then s.rows else b.rows) && t.log == (if fault then s.log else b.log)
            && t.next == b.next && t == s.(rows := t.rows, next := t.next, log := t.log, queue := t.queue)
            && forall id :: t.queue[id] == s.queue[id] + if id in lost then 0 else multiset(b.ready)[id]
  {
    var b := CreateAll(Batch(s.rows, s.next, [], s.log), hooks, scan, risk, s.clock);
    forall id ensures Kept(b.ready, lost)[id] == if id in lost then 0 else multiset(b.ready)[id] {
      KeptExactly(b.ready, lost, id);
    }
  }

  lemma DismissStep(s: System, id: Id, now: int)
    requires now <= s.clock && id in s.rows
    ensures Apply(s, Dismiss(id, now))
         == if s.rows[id].status == PendingConfirm
            then s.(rows := s.rows[id := s.rows[id].(status := Dismissed, confirmedAt := Some(now))]) else s
  {
  }

  /** What is published of a list: each id as often as it is listed, but for the lost. */
  lemma {:induction false} KeptExactly(ids: seq<Id>, lost: set<Id>, id: Id)
    ensures Kept(ids, lost)[id] == if id in lost then 0 else multiset(ids)[id]
  {
    if ids != [] {
      KeptExactly(ids[1..], lost, id);
      assert ids == [ids[0]] + ids[1..];
    }
  }

  // ----- the two bounds of ten minutes -----

  /** A claimed row can be claimed again after more than ten minutes, one that was
      never claimed at once, and one that is not queued never. */
  lemma ClaimAgain(r: Row, at: int, now: int)
    ensures r.status == Queued && r.executedAt == None ==> Claimable(r, now)
    ensures r.status == Queued ==> (Claimable(r.(executedAt := Some(at)), now) <==> now > at + 600_000_000)
    ensures r.status != Queued ==> !Claimable(r, now)
  {
  }

  /** A confirmed row can be confirmed again after more than ten minutes while it is
      still queued, and a row that was queued unattended never. */
  lemma ConfirmAgain(r: Row, at: int, now: int)
    ensures r.status == PendingConfirm ==> Confirmable(r, now)
    ensures ConfirmRow(r, at).status == Queued
    ensures Confirmable(ConfirmRow(r, at), now) <==> now > at + 600_000_000
    ensures r.status == Queued && r.confirmedAt == None ==> !Confirmable(r, now)
    ensures r.status in {Succeeded, Failed, Dismissed} ==> !Confirmable(r, now)
  {
  }

  class ExecutionTable {
    var rows: Rows
    var next: Id
    var queue: multiset<Id>
    ghost var log: seq<Event>

    ghost predicate Valid()
      reads this
    {
      UniquePairs(rows) && forall id :: id in rows ==> id < next
    }

    constructor ()
      ensures Valid() && rows == map[] && queue == multiset{} && log == []
    {
      rows, next, queue, log := map[], 0, multiset{}, [];
    }

    /** The scan task's transaction: one execution per due hook, and the ids of
        those that may fire at once. A fault after some hooks rolls the rows
        back but still hands the ids out. */
    method CreateForFlaggedScan(scan: nat, risk: real, hooks: seq<Hook>, now: int, fault: bool) returns (ready: seq<Id>)
      requires Valid()
      modifies this
      ensures Valid() && queue == old(queue)
      ensures var b := CreateAll(Batch(old(rows), old(next), [], old(log)), hooks, scan, risk, now);
              && ready == b.ready && next == b.next
              && rows == (if fault then old(rows) else b.rows) && log == (if fault then old(log) else b.log)
    {
      ready := [];
      ghost var start := Batch(rows, next, [], log);
      var before := rows;
      ghost var logged := log;
      for k := 0 to |hooks|
        invariant Valid() && queue == old(queue)
        invariant Batch(rows, next, ready, log) == CreateAll(start, hooks[..k], scan, risk, now)
        invariant next >= old(next)
      {
        var hook := hooks[k];
        assert hooks[..k + 1][..k] == hooks[..k];
        CreateOneUnique(Batch(rows, next, ready, log), hook, scan, risk, now);
        if risk < hook.threshold {
          continue;
        }
        if Exists(rows, hook.id, scan) {
          var existing :| existing in rows && rows[existing].hook == hook.id && rows[existing].scan == scan;
          if rows[existing].status == Queued {
            ready := ready + [existing];
          }
          continue;
        }
        var auto := !hook.manual;
        var cooled := auto && Cooled(rows, hook.id, now);
        var status := if cooled || !auto then PendingConfirm else Queued;
        rows := rows[next := Row(hook.id, scan, status, now, None, None)];
        log := log + [if status == Queued then AutoQueued(next, hook.id, now) else Parked(next)];
        if status == Queued {
          ready := ready + [next];
        }
        next := next + 1;
      }
      assert hooks[..|hooks|] == hooks;
      if fault {
        rows := before;
        log := logged;
      }
    }

    /** The delivery claim: stamps the row for exactly one message. */
    method Claim(id: Id, now: int) returns (claimed: bool)
      requires Valid()
      modifies this`rows
      ensures Valid()
      ensures claimed <==> id in old(rows) && Claimable(old(rows)[id], now)
      ensures rows == if claimed then old(rows)[id := old(rows)[id].(executedAt := Some(now))] else old(rows)
    {
      claimed := id in rows && rows[id].status == Queued
                 && (rows[id].executedAt.None? || rows[id].executedAt.value < now - STALE_INFLIGHT);
      if claimed {
        rows := rows[id := rows[id].(executedAt := Some(now))];
      }
    }

    /** One delivery from message to outcome. answer is what the webhook call
        gave: Some(ok), or None when it crashed. */
    method Fire(id: Id, now: int, prereqs: bool, decrypted: bool, answer: Option<bool>, later: int)
      returns (res: FireResult)
      requires Valid()
      modifies this`rows
      ensures Valid()
      ensures (res == Missing) == (id !in old(rows))
      ensures (res == NotQueued) == (id in old(rows) && old(rows)[id].status != Queued)
      ensures (res == NotClaimed)
              == (id in old(rows) && old(rows)[id].status == Queued && !Claimable(old(rows)[id], now))
      ensures res.Recorded? ==>
                && res.status == (if prereqs && decrypted && answer == Some(true) then Succeeded else Failed)
                && rows == old(rows)[id := old(rows)[id].(status := res.status, executedAt := Some(later))]
      ensures !res.Recorded? ==> rows == old(rows)
    {
      if id !in rows {
        return Missing;
      }
      if rows[id].status != Queued {
        return NotQueued;
      }
      var claimed := Claim(id, now);
      if !claimed {
        return NotClaimed;
      }
      var status;
      if !prereqs || !decrypted {
        status := Failed;
      } else {
        var ok := answer.Some? && answer.value;
        status := if ok then Succeeded else Failed;
      }
      rows := rows[id := rows[id].(status := status, executedAt := Some(later))];
      res := Recorded(status);
    }

    /** The confirm endpoint: claim, commit, publish, and on a dead queue put
        the row back. */
    method Confirm(id: Id, now: int, staleNow: int, published: bool) returns (res: ConfirmResult)
      requires Valid()
      modifies this`rows, this`queue, this`log
      ensures Valid()
      ensures (res == NotFound) == (id !in old(rows))
      ensures res.Conflict? == (id in old(rows) && !Confirmable(old(rows)[id], staleNow))
      ensures res.Conflict? ==> res.status == old(rows)[id].status
      ensures res == Queueing ==>
              published && rows == old(rows)[id := ConfirmRow(old(rows)[id], now)] && queue == old(queue) + multiset{id}
      ensures res == QueueDown ==> !published && queue == old(queue)
      ensures res == QueueDown ==> rows == old(rows)[id := ConfirmRow(old(rows)[id], now).(status := PendingConfirm)]
      ensures res.Queueing? || res.QueueDown? ==> log == old(log) + [Confirmed(id)]
      ensures res.NotFound? || res.Conflict? ==> rows == old(rows) && queue == old(queue) && log == old(log)
    {
      if id !in rows {
        return NotFound;
      }
      var claimed := rows[id].status == PendingConfirm;
      if !claimed {
        var staleBound := staleNow - STALE_INFLIGHT;
        claimed := rows[id].status == Queued && rows[id].confirmedAt.Some? && rows[id].confirmedAt.value < staleBound;
      }
      if !claimed {
        return Conflict(rows[id].status);
      }
      rows := rows[id := rows[id].(status := Queued, confirmedAt := Some(now))];
      log := log + [Confirmed(id)];
      if published {
        queue := queue + multiset{id};
        res := Queueing;
      } else {
        rows := rows[id := rows[id].(status := PendingConfirm)];
        res := QueueDown;
      }
    }

    method Dismiss(id: Id, now: int) returns (res: ConfirmResult)
      requires Valid()
      modifies this`rows
      ensures Valid()
      ensures (res == NotFound) == (id !in old(rows))
      ensures res.Conflict? == (id in old(rows) && old(rows)[id].status != PendingConfirm)
      ensures rows == if res == Queueing then old(rows)[id := DismissRow(old(rows)[id], now)] else old(rows)
      ensures res != QueueDown
    {
      if id !in rows {
        return NotFound;
      }
      if rows[id].status != PendingConfirm {
        return Conflict(rows[id].status);
      }
      rows := rows[id := rows[id].(status := Dismissed, confirmedAt := Some(now))];
      res := Queueing;
    }

    /** The resweep: every row the query returned is published again, and a
        failed publish does not stop the others. */
    method Resweep(picked: seq<Id>, lost: set<Id>) returns (reenqueued: nat)
      modifies this`queue
      ensures queue == old(queue) + Kept(picked, lost)
      ensures reenqueued == |Kept(picked, lost)|
    {
      reenqueued := 0;
      assert Kept([], lost) == multiset{};
      hide Kept;
      for k := 0 to |picked|
        invariant queue == old(queue) + Kept(picked[..k], lost) && reenqueued == |Kept(picked[..k], lost)|
      {
        KeptNext(picked, k, lost);
        if picked[k] !in lost {
          queue := queue + multiset{picked[k]};
          reenqueued := reenqueued + 1;
        }
      }
      assert picked[..|picked|] == picked;
    }
  }

  lemma KeptNext(ids: seq<Id>, k: nat, lost: set<Id>)
    requires k < |ids|
    ensures Kept(ids[..k + 1], lost) == Kept(ids[..k], lost) + (if ids[k] in lost then multiset{} else multiset{ids[k]})
  {
    hide Kept;
    KeptSnoc(ids[..k], ids[k], lost);
    assert ids[..k + 1] == ids[..k] + [ids[k]];
  }

  lemma {:induction false} KeptSnoc(ids: seq<Id>, id: Id, lost: set<Id>)
    ensures Kept(ids + [id], lost) == Kept(ids, lost) + (if id in lost then multiset{} else multiset{id})
  {
    if ids == [] {
      assert ids + [id] == [id];
    } else {
      KeptSnoc(ids[1..], id, lost);
      assert (ids + [id])[1..] == ids[1..] + [id];
    }
  }
}
