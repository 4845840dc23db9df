/** For which hooks a flagged scan creates an execution, and which of them fire. */
module RemediationCreation {
  import opened Prelude
  import opened RemediationModel
  import opened RemediationStore

  /** The hook may fire unattended: it is not manual, and its last outbound attempt
      was created half an hour ago or earlier. */
  predicate FiresAlone(rows: Rows, h: Hook, now: int) {
    && !h.manual
    && forall id :: id in rows && rows[id].hook == h.id && rows[id].status in {Queued, Succeeded, Failed} ==>
         rows[id].createdAt <= now - 1_800_000_000
  }

  predicate HasPair(rows: Rows, hook: nat, scan: nat) {
    exists id :: id in rows && rows[id].hook == hook && rows[id].scan == scan
  }

  function Made(rows: Rows, h: Hook, scan: nat, now: int): Row {
    Row(h.id, scan, if FiresAlone(rows, h, now) then Queued else PendingConfirm, now, None, None)
  }

  ghost predicate Fresh(b: Batch) { UniquePairs(b.rows) && forall id :: id in b.rows ==> id < b.next }

  /** One hook: nothing below its threshold; at or above it a new execution of its
      own status, or, if the scan already has one, only a queued one made ready. */
  lemma CreateOneExactly(b: Batch, h: Hook, scan: nat, risk: real, now: int)
    requires Fresh(b)
    ensures var c := CreateOne(b, h, scan, risk, now);
            && Fresh(c)
            && (risk < h.threshold ==> c == b)
            && (risk >= h.threshold && !HasPair(b.rows, h.id, scan) ==>
                  && c.rows == b.rows[b.next := Made(b.rows, h, scan, now)] && c.next == b.next + 1
                  && c.ready == b.ready + (if FiresAlone(b.rows, h, now) then [b.next] else [])
                  && c.log == b.log + [if FiresAlone(b.rows, h, now) then AutoQueued(b.next, h.id, now)
                                       else Parked(b.next)])
            && (risk >= h.threshold && HasPair(b.rows, h.id, scan) ==>
                  && c == b.(ready := c.ready)
                  && forall id :: id in b.rows && b.rows[id].hook == h.id && b.rows[id].scan == scan ==>
                       c.ready == b.ready + (if b.rows[id].status == Queued then [id] else []))
  {
    CreateOneUnique(b, h, scan, risk, now);
    assert Cooled(b.rows, h.id, now) <==>
      exists id :: id in b.rows && b.rows[id].hook == h.id && Attempted(b.rows[id])
        && b.rows[id].createdAt > now - 1_800_000_000;
  }

  predicate Distinct(hooks: seq<Hook>) { forall i, j :: 0 <= i < j < |hooks| ==> hooks[i].id != hooks[j].id }

  /** The row was made for this hook. */
  predicate MadeFor(b: Batch, id: Id, r: Row, h: Hook, scan: nat, risk: real, now: int) {
    id !in b.rows && risk >= h.threshold && !HasPair(b.rows, h.id, scan) && r == Made(b.rows, h, scan, now)
  }

  /** The delivery of the row is due at once. */
  predicate Due(r: Row, h: Hook, scan: nat, risk: real) {
    r.hook == h.id && r.scan == scan && r.status == Queued && risk >= h.threshold
  }

  ghost predicate Created(b: Batch, c: Batch, hooks: seq<Hook>, scan: nat, risk: real, now: int) {
    && (forall id :: id in b.rows ==> id in c.rows && c.rows[id] == b.rows[id])
    && (forall id :: id in c.rows && id !in b.rows ==>
          exists k :: 0 <= k < |hooks| && MadeFor(b, id, c.rows[id], hooks[k], scan, risk, now))
    && (forall k :: 0 <= k < |hooks| ==>
          (HasPair(c.rows, hooks[k].id, scan) <==> HasPair(b.rows, hooks[k].id, scan) || risk >= hooks[k].threshold))
    && (forall id :: id in c.ready <==>
          id in b.ready || (id in c.rows && exists k :: 0 <= k < |hooks| && Due(c.rows[id], hooks[k], scan, risk)))
  }

  /** A whole list of hooks: old rows stay, every new one was made for a hook whose
      threshold was reached and that had none, every such hook has one, and exactly
      the queued ones of such hooks are handed out for delivery. */
  lemma {:induction false} CreateAllExactly(b: Batch, hooks: seq<Hook>, scan: nat, risk: real, now: int)
    requires Fresh(b) && Distinct(hooks)
    ensures Fresh(CreateAll(b, hooks, scan, risk, now))
    ensures Created(b, CreateAll(b, hooks, scan, risk, now), hooks, scan, risk, now)
  {
    if hooks != [] {
      var n := |hooks| - 1;
      CreateAllExactly(b, hooks[..n], scan, risk, now);
      var c := CreateAll(b, hooks[..n], scan, risk, now);
      CreateOneExactly(c, hooks[n], scan, risk, now);
      hide Fresh;
      OneHookMore(b, c, CreateOne(c, hooks[n], scan, risk, now), hooks, n, scan, risk, now);
    }
  }

  /** Rows made for other hooks do not matter to this one. */
  lemma OthersMade(b: Batch, c: Batch, hooks: seq<Hook>, n: nat, scan: nat, risk: real, now: int)
    requires n < |hooks| && Distinct(hooks) && Created(b, c, hooks[..n], scan, risk, now)
    ensures forall id :: id in c.rows && c.rows[id].hook == hooks[n].id ==> id in b.rows && c.rows[id] == b.rows[id]
    ensures HasPair(c.rows, hooks[n].id, scan) <==> HasPair(b.rows, hooks[n].id, scan)
    ensures Made(c.rows, hooks[n], scan, now) == Made(b.rows, hooks[n], scan, now)
  {
    forall id | id in c.rows && id !in b.rows ensures c.rows[id].hook != hooks[n].id {
      var k :| 0 <= k < n && MadeFor(b, id, c.rows[id], hooks[..n][k], scan, risk, now);
      assert hooks[..n][k] == hooks[k];
    }
  }

  /** What one hook's pass does to the pairs and to the ids handed out. */
  lemma PassExactly(c: Batch, d: Batch, h: Hook, scan: nat, risk: real, now: int)
    requires Fresh(c) && d == CreateOne(c, h, scan, risk, now)
    ensures forall id :: id in c.rows ==> id in d.rows && d.rows[id] == c.rows[id]
    ensures forall id :: id in d.rows && id !in c.rows ==>
              d.rows[id].hook == h.id && MadeFor(c, id, d.rows[id], h, scan, risk, now)
    ensures HasPair(d.rows, h.id, scan) <==> HasPair(c.rows, h.id, scan) || risk >= h.threshold
    ensures forall id :: id in d.ready <==> id in c.ready || (id in d.rows && Due(d.rows[id], h, scan, risk))
  {
    CreateOneExactly(c, h, scan, risk, now);
    hide CreateOne, FiresAlone;
    if risk >= h.threshold && !HasPair(c.rows, h.id, scan) {
      assert d.rows[c.next].hook == h.id && d.rows[c.next].scan == scan;
    }
    forall id ensures id in d.ready <==> id in c.ready || (id in d.rows && Due(d.rows[id], h, scan, risk)) {
      if id in c.rows && Due(c.rows[id], h, scan, risk) {
        assert HasPair(c.rows, h.id, scan);
      }
    }
  }

  lemma PairsMore(b: Batch, c: Batch, d: Batch, hooks: seq<Hook>, n: nat, scan: nat, risk: real, now: int)
    requires |hooks| == n + 1 && Distinct(hooks) && Created(b, c, hooks[..n], scan, risk, now) && Fresh(c)
    requires d == CreateOne(c, hooks[n], scan, risk, now)
    ensures forall k :: 0 <= k <= n ==>
              (HasPair(d.rows, hooks[k].id, scan) <==> HasPair(b.rows, hooks[k].id, scan) || risk >= hooks[k].threshold)
  {
    OthersMade(b, c, hooks, n, scan, risk, now);
    PassExactly(c, d, hooks[n], scan, risk, now);
    hide CreateOne;
    forall k | 0 <= k < n ensures HasPair(d.rows, hooks[k].id, scan) <==> HasPair(c.rows, hooks[k].id, scan) {
      if id :| id in d.rows && d.rows[id].hook == hooks[k].id && d.rows[id].scan == scan {
        assert id in c.rows;
      }
      if id :| id in c.rows && c.rows[id].hook == hooks[k].id && c.rows[id].scan == scan {
        assert d.rows[id] == c.rows[id];
      }
    }
    assert forall k :: 0 <= k < n ==> hooks[..n][k] == hooks[k];
  }

  lemma ReadyMore(b: Batch, c: Batch, d: Batch, hooks: seq<Hook>, n: nat, scan: nat, risk: real, now: int, id: Id)
    requires |hooks| == n + 1 && Distinct(hooks) && Created(b, c, hooks[..n], scan, risk, now) && Fresh(c)
    requires d == CreateOne(c, hooks[n], scan, risk, now)
    ensures id in d.ready <==>
            id in b.ready || (id in d.rows && exists k :: 0 <= k <= n && Due(d.rows[id], hooks[k], scan, risk))
  {
    PassExactly(c, d, hooks[n], scan, risk, now);
    hide CreateOne, MadeFor;
    assert forall k :: 0 <= k < n ==> hooks[..n][k] == hooks[k];
    if id in d.rows {
      if k :| 0 <= k < n && Due(d.rows[id], hooks[k], scan, risk) {
        assert id in c.rows && Due(c.rows[id], hooks[..n][k], scan, risk);
      }
    }
    if id in c.rows {
      if k :| 0 <= k < n && Due(c.rows[id], hooks[..n][k], scan, risk) {
        assert Due(d.rows[id], hooks[k], scan, risk);
      }
    }
  }

  lemma MadeMore(b: Batch, c: Batch, d: Batch, hooks: seq<Hook>, n: nat, scan: nat, risk: real, now: int, id: Id)
    requires |hooks| == n + 1 && Distinct(hooks) && Created(b, c, hooks[..n], scan, risk, now) && Fresh(c)
    requires d == CreateOne(c, hooks[n], scan, risk, now) && id in d.rows && id !in b.rows
    ensures exists k :: 0 <= k <= n && MadeFor(b, id, d.rows[id], hooks[k], scan, risk, now)
  {
    PassExactly(c, d, hooks[n], scan, risk, now);
    hide CreateOne, Due, HasPair, FiresAlone;
    if id in c.rows {
      var k :| 0 <= k < n && MadeFor(b, id, c.rows[id], hooks[..n][k], scan, risk, now);
      assert MadeFor(b, id, d.rows[id], hooks[k], scan, risk, now);
    } else {
      OthersMade(b, c, hooks, n, scan, risk, now);
      assert MadeFor(b, id, d.rows[id], hooks[n], scan, risk, now);
    }
  }

  lemma OneHookMore(b: Batch, c: Batch, d: Batch, hooks: seq<Hook>, n: nat, scan: nat, risk: real, now: int)
    requires |hooks| == n + 1 && Distinct(hooks) && Created(b, c, hooks[..n], scan, risk, now) && Fresh(c)
    requires d == CreateOne(c, hooks[n], scan, risk, now)
    ensures Created(b, d, hooks, scan, risk, now)
  {
    PassExactly(c, d, hooks[n], scan, risk, now);
    PairsMore(b, c, d, hooks, n, scan, risk, now);
    hide CreateOne, Due, MadeFor, HasPair;
    forall id ensures id in d.ready <==>
                      id in b.ready
                      || (id in d.rows && exists k :: 0 <= k <= n && Due(d.rows[id], hooks[k], scan, risk)) {
      ReadyMore(b, c, d, hooks, n, scan, risk, now, id);
    }
    forall id | id in d.rows && id !in b.rows
      ensures exists k :: 0 <= k <= n && MadeFor(b, id, d.rows[id], hooks[k], scan, risk, now)
    {
      MadeMore(b, c, d, hooks, n, scan, risk, now, id);
    }
  }
}
