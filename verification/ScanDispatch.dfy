/** The scan dispatcher: overlapping ticks that claim due sites by
    compare-and-set, adaptive rescheduling, user edits, and the scans table
    with its one-in-flight-per-site index. */
module ScanDispatch {
  import opened Prelude

  const SECOND := 1_000_000
  const MINUTE := 60 * SECOND
  const STALE_INFLIGHT := 600 * SECOND
  const MIN_INTERVAL_MINUTES := 5
  const MAX_INTERVAL_MINUTES := 24 * 60
  const MAX_DISPATCH_PER_TICK := 50

  type SiteId = nat
  type ScanId = nat

  function ClampInterval(minutes: int): (m: int)
    ensures 5 <= m <= 1440 && (5 <= minutes <= 1440 ==> m == minutes)
    ensures (minutes < 5 ==> m == 5) && (minutes > 1440 ==> m == 1440)
  {
    Max(MIN_INTERVAL_MINUTES, Min(MAX_INTERVAL_MINUTES, minutes))
  }

  // auto is is_active and auto_scan_enabled together.
  datatype Site = Site(auto: bool, minutes: int, nextScanAt: Option<int>, baselineReady: bool)

  datatype ScanStatus = Pending | Running | Completed | Failed

  datatype Scan = Scan(site: SiteId, status: ScanStatus, createdAt: int, startedAt: Option<int>)

  type Scans = map<ScanId, Scan>

  predicate InFlight(x: Scan) { x.status == Pending || x.status == Running }

  predicate IsStale(x: Scan, now: int) {
    (if x.startedAt.Some? then x.startedAt.value else x.createdAt) < now - STALE_INFLIGHT
  }

  predicate Clash(x: Scan, y: Scan) { InFlight(x) && InFlight(y) && x.site == y.site }

  /** The partial unique index: at most one scan in flight per site. */
  predicate OneInFlight(scans: Scans) {
    forall i, j :: i in scans && j in scans && Clash(scans[i], scans[j]) ==> i == j
  }

  /** A commit that would break the index is rejected whole. */
  function Commit(before: Scans, after: Scans): Scans {
    if OneInFlight(after) then after else before
  }

  function FailScan(scans: Scans, id: Option<ScanId>): Scans {
    if id.Some? && id.value in scans then scans[id.value := scans[id.value].(status := Failed)] else scans
  }

  // One due site as the tick read it.
  datatype Entry = Entry(site: SiteId, interval: int, seen: int)

  predicate Due(x: Site, now: int) {
    x.auto && x.nextScanAt.Some? && x.nextScanAt.value <= now
  }

  /** A possible answer of the due-sites query. */
  predicate IsPlan(sites: map<SiteId, Site>, now: int, plan: seq<Entry>) {
    && |plan| <= MAX_DISPATCH_PER_TICK
    && (forall k :: 0 <= k < |plan| ==>
          plan[k].site in sites && Due(sites[plan[k].site], now)
          && plan[k].interval == ClampInterval(sites[plan[k].site].minutes)
          && Some(plan[k].seen) == sites[plan[k].site].nextScanAt)
    && (forall j, k :: 0 <= j < k < |plan| ==> plan[j].site != plan[k].site && plan[j].seen <= plan[k].seen)
  }

  // failed is not a counter of the code: it is the rows the others leave out.
  datatype Stats = Stats(enqueued: nat, skippedInFlight: nat, skippedNoBaseline: nat, recoveredStale: nat,
                         lostClaim: nat, failed: nat)

  const NONE := Stats(0, 0, 0, 0, 0, 0)

  function Handled(x: Stats): nat {
    x.enqueued + x.skippedInFlight + x.skippedNoBaseline + x.lostClaim + x.failed
  }

  // What a tick is doing with the site at pos.
  datatype Phase = Claiming | Looking | Inserting(stale: Option<ScanId>)

  datatype Tick = Tick(now: int, plan: seq<Entry>, pos: nat, phase: Phase, stats: Stats)

  datatype Event = Claimed(site: SiteId, instant: int)

  datatype System = System(clock: int, sites: map<SiteId, Site>, scans: Scans, ticks: map<nat, Tick>, log: seq<Event>)

  datatype Action =
    | Advance(to: int)
    | TickStart(t: nat, plan: seq<Entry>)
    | TickClaim(t: nat)
    | TickLook(t: nat, current: Option<ScanId>)
    | TickInsert(t: nat, id: ScanId, published: bool)
    | TickFault(t: nat)
    | TickDies(t: nat)
    | Reschedule(site: SiteId, minutes: int, stamp: int)
    | Edit(site: SiteId, auto: bool, minutes: int, rearm: bool, stamp: int)
    | SetBaseline(site: SiteId, ready: bool)
    | WriteScans(scans: Scans)

  // TickFault is an exception while a claimed site is worked on, TickDies the end
  // of a whole tick. WriteScans stands for everybody else who writes scans.

  function NextSite(t: Tick, stats: Stats): Tick { t.(pos := t.pos + 1, phase := Claiming, stats := stats) }

  function ClaimTick(s: System, a: Action): System
    requires a.TickClaim?
  {
    if a.t !in s.ticks || s.ticks[a.t].phase != Claiming || s.ticks[a.t].pos >= |s.ticks[a.t].plan| then s
    else
      var t := s.ticks[a.t];
      var e := t.plan[t.pos];
      if e.site in s.sites && s.sites[e.site].nextScanAt == Some(e.seen) then
        s.(sites := s.sites[e.site := s.sites[e.site].(nextScanAt := Some(t.now + e.interval * MINUTE))],
           ticks := s.ticks[a.t := t.(phase := Looking)], log := s.log + [Claimed(e.site, e.seen)])
      else s.(ticks := s.ticks[a.t := NextSite(t, t.stats.(lostClaim := t.stats.lostClaim + 1))])
  }

  /** The scan the in-flight query returns: one of the site's, if there is one. */
  predicate IsCurrent(scans: Scans, site: SiteId, current: Option<ScanId>) {
    match current
    case Some(id) => id in scans && scans[id].site == site && InFlight(scans[id])
    case None => forall id :: id in scans && scans[id].site == site ==> !InFlight(scans[id])
  }

  function LookTick(s: System, a: Action): System
    requires a.TickLook?
  {
    if a.t !in s.ticks || s.ticks[a.t].phase != Looking || s.ticks[a.t].pos >= |s.ticks[a.t].plan| then s
    else
      var t := s.ticks[a.t];
      var site := t.plan[t.pos].site;
      if site !in s.sites || !s.sites[site].baselineReady then
        s.(ticks := s.ticks[a.t := NextSite(t, t.stats.(skippedNoBaseline := t.stats.skippedNoBaseline + 1))])
      else if !IsCurrent(s.scans, site, a.current) then s
      else if a.current.None? then s.(ticks := s.ticks[a.t := t.(phase := Inserting(None))])
      else if IsStale(s.scans[a.current.value], s.clock)
          then s.(ticks := s.ticks[a.t := t.(phase := Inserting(a.current))])
      else s.(ticks := s.ticks[a.t := NextSite(t, t.stats.(skippedInFlight := t.stats.skippedInFlight + 1))])
  }

  function InsertTick(s: System, a: Action): System
    requires a.TickInsert?
  {
    if a.t !in s.ticks || !s.ticks[a.t].phase.Inserting? || s.ticks[a.t].pos >= |s.ticks[a.t].plan|
        || a.id in s.scans then s
    else
      var t := s.ticks[a.t];
      var after := FailScan(s.scans, t.phase.stale)[a.id := Scan(t.plan[t.pos].site, Pending, s.clock, None)];
      if !OneInFlight(after) then
        s.(ticks := s.ticks[a.t := NextSite(t, t.stats.(failed := t.stats.failed + 1))])
      else
        var stats := if t.phase.stale.Some? then t.stats.(recoveredStale := t.stats.recoveredStale + 1) else t.stats;
        s.(scans := after,
           ticks := s.ticks[a.t := NextSite(t, if a.published then stats.(enqueued := stats.enqueued + 1)
               else stats.(failed := stats.failed + 1))])
  }

  /** A schedule is committed less than five minutes after its clock was read. */
  predicate Prompt(s: System, stamp: int) { stamp <= s.clock < stamp + MIN_INTERVAL_MINUTES * MINUTE }

  function Apply(s: System, a: Action): System {
    match a
    case Advance(to) => if to >= s.clock then s.(clock := to) else s
    case TickStart(t, plan) =>
      if t !in s.ticks && IsPlan(s.sites, s.clock, plan)
      then s.(ticks := s.ticks[t := Tick(s.clock, plan, 0, Claiming, NONE)]) else s
    case TickClaim(_) => ClaimTick(s, a)
    case TickLook(_, _) => LookTick(s, a)
    case TickInsert(_, _, _) => InsertTick(s, a)
    case TickFault(t) =>
      if t in s.ticks && s.ticks[t].phase != Claiming && s.ticks[t].pos < |s.ticks[t].plan|
      then s.(ticks := s.ticks[t := NextSite(s.ticks[t], s.ticks[t].stats.(failed := s.ticks[t].stats.failed + 1))])
      else s
    case TickDies(t) => s.(ticks := s.ticks - {t})
    case Reschedule(site, minutes, stamp) =>
      if site in s.sites && Prompt(s, stamp)
      then s.(sites := s.sites[site := s.sites[site].(nextScanAt := Some(stamp + ClampInterval(minutes) * MINUTE))])
      else s
    case Edit(site, auto, minutes, rearm, stamp) =>
      if !Prompt(s, stamp) then s
      else if site !in s.sites
          then s.(sites := s.sites[site := Site(auto, minutes, if auto
              then Some(stamp + ClampInterval(minutes) * MINUTE) else None, false)])
      else
        var x := s.sites[site].(auto := auto, minutes := minutes);
        s.(sites := s.sites[site := if !auto then x.(nextScanAt := None)
                                    else if rearm then x.(nextScanAt := Some(stamp + ClampInterval(minutes) * MINUTE))
                                        else x])
    case SetBaseline(site, ready) =>
      if site in s.sites then s.(sites := s.sites[site := s.sites[site].(baselineReady := ready)]) else s
    case WriteScans(scans) => s.(scans := Commit(s.scans, scans))
  }

  function Run(s: System, acts: seq<Action>): System {
    if acts == [] then s else Apply(Run(s, acts[..|acts| - 1]), acts[|acts| - 1])
  }

  predicate Initial(s: System) {
    s.ticks == map[] && s.log == [] && OneInFlight(s.scans)
  }

  // ----- due instants -----

  predicate TickOk(t: Tick, clock: int) {
    && t.now <= clock && t.pos <= |t.plan|
    && (t.phase != Claiming ==> t.pos < |t.plan|)
    && (forall k :: 0 <= k < |t.plan| ==> t.plan[k].seen <= t.now && t.plan[k].interval >= MIN_INTERVAL_MINUTES)
    && Handled(t.stats) == t.pos
  }

  /** Claimed instants lie in the past and before the site's next one. */
  predicate Passed(s: System, e: Event) {
    e.instant <= s.clock
        && (e.site in s.sites && s.sites[e.site].nextScanAt.Some? ==> e.instant < s.sites[e.site].nextScanAt.value)
  }

  predicate Inv(s: System) {
    && (forall t :: t in s.ticks ==> TickOk(s.ticks[t], s.clock))
    && (forall k :: 0 <= k < |s.log| ==> Passed(s, s.log[k]))
    && (forall j, k :: 0 <= j < k < |s.log| && s.log[j].site == s.log[k].site ==> s.log[j].instant < s.log[k].instant)
    && OneInFlight(s.scans)
  }

  lemma ClaimKeeps(s: System, a: Action)
    requires Inv(s) && a.TickClaim?
    ensures Inv(Apply(s, a))
  {
    hide OneInFlight;
    var u := ClaimTick(s, a);
    if u != s {
      var t := s.ticks[a.t];
      assert TickOk(t, s.clock);
      var e := t.plan[t.pos];
      assert TickOk(u.ticks[a.t], u.clock);
      if u.log != s.log {
        forall k | 0 <= k < |s.log|
          ensures Passed(u, s.log[k]) && (s.log[k].site == e.site ==> s.log[k].instant < e.seen)
        {
          assert Passed(s, s.log[k]);
        }
        assert e.interval * MINUTE > 0;
      } else {
        forall k | 0 <= k < |s.log| ensures Passed(u, s.log[k]) {
          assert Passed(s, s.log[k]);
        }
      }
    }
  }

  lemma TickSet(s: System, t: nat, x: Tick, scans: Scans)
    requires Inv(s) && TickOk(x, s.clock) && OneInFlight(scans)
    ensures Inv(s.(ticks := s.ticks[t := x], scans := scans))
  {
    hide TickOk, OneInFlight;
    var u := s.(ticks := s.ticks[t := x], scans := scans);
    forall k | 0 <= k < |u.log| ensures Passed(u, u.log[k]) {
      assert Passed(s, s.log[k]);
    }
  }

  lemma NextSiteOk(t: Tick, stats: Stats, clock: int)
    requires TickOk(t, clock) && t.pos < |t.plan| && Handled(stats) == Handled(t.stats) + 1
    ensures TickOk(NextSite(t, stats), clock)
  {
  }

  lemma LookKeeps(s: System, a: Action)
    requires Inv(s) && a.TickLook?
    ensures Inv(Apply(s, a))
  {
    hide OneInFlight, IsStale, IsCurrent, Passed;
    var u := LookTick(s, a);
    if u != s {
      var t := s.ticks[a.t];
      NextSiteOk(t, t.stats.(skippedNoBaseline := t.stats.skippedNoBaseline + 1), s.clock);
      NextSiteOk(t, t.stats.(skippedInFlight := t.stats.skippedInFlight + 1), s.clock);
      TickSet(s, a.t, u.ticks[a.t], s.scans);
    }
  }

  lemma InsertKeeps(s: System, a: Action)
    requires Inv(s) && a.TickInsert?
    ensures Inv(Apply(s, a))
  {
    hide OneInFlight, Passed;
    var u := InsertTick(s, a);
    if u != s {
      var t := s.ticks[a.t];
      NextSiteOk(t, u.ticks[a.t].stats, s.clock);
      TickSet(s, a.t, u.ticks[a.t], u.scans);
    }
  }

  lemma ListedOk(sites: map<SiteId, Site>, now: int, plan: seq<Entry>)
    requires IsPlan(sites, now, plan)
    ensures TickOk(Tick(now, plan, 0, Claiming, NONE), now)
  {
    forall k | 0 <= k < |plan| ensures plan[k].seen <= now && plan[k].interval >= MIN_INTERVAL_MINUTES {
      assert Due(sites[plan[k].site], now);
    }
  }

  lemma StartKeeps(s: System, t: nat, plan: seq<Entry>)
    requires Inv(s) && IsPlan(s.sites, s.clock, plan)
    ensures Inv(Apply(s, TickStart(t, plan)))
  {
    hide Passed, IsPlan, TickOk, OneInFlight;
    if t !in s.ticks {
      var x := Tick(s.clock, plan, 0, Claiming, NONE);
      ListedOk(s.sites, s.clock, plan);
      TickSet(s, t, x, s.scans);
    }
  }

  lemma FaultKeeps(s: System, t: nat)
    requires Inv(s)
    ensures Inv(Apply(s, TickFault(t)))
  {
    hide OneInFlight, Passed;
    if t in s.ticks && s.ticks[t].phase != Claiming && s.ticks[t].pos < |s.ticks[t].plan| {
      var x := s.ticks[t];
      NextSiteOk(x, x.stats.(failed := x.stats.failed + 1), s.clock);
      TickSet(s, t, NextSite(x, x.stats.(failed := x.stats.failed + 1)), s.scans);
    }
  }

  lemma DiesKeeps(s: System, t: nat)
    requires Inv(s)
    ensures Inv(s.(ticks := s.ticks - {t}))
  {
    hide TickOk, OneInFlight;
    var u := s.(ticks := s.ticks - {t});
    forall k | 0 <= k < |u.log| ensures Passed(u, u.log[k]) {
      assert Passed(s, s.log[k]);
    }
  }

  lemma TickRunKeeps(s: System, a: Action)
    requires Inv(s) && (a.TickStart? || a.TickFault? || a.TickDies?)
    ensures Inv(Apply(s, a))
  {
    hide OneInFlight, Passed, IsPlan, TickOk;
    match a
    case TickStart(t, plan) => if IsPlan(s.sites, s.clock, plan) { StartKeeps(s, t, plan); }
    case TickFault(t) => FaultKeeps(s, t);
    case TickDies(t) => DiesKeeps(s, t);
  }

  lemma SiteSet(s: System, site: SiteId, x: Site)
    requires Inv(s)
    requires x.nextScanAt.Some? ==>
             x.nextScanAt.value > s.clock || (site in s.sites && x.nextScanAt == s.sites[site].nextScanAt)
    ensures Inv(s.(sites := s.sites[site := x]))
  {
    hide TickOk, OneInFlight;
    var u := s.(sites := s.sites[site := x]);
    forall k | 0 <= k < |u.log| ensures Passed(u, u.log[k]) {
      assert Passed(s, s.log[k]);
    }
  }

  lemma SiteKeeps(s: System, a: Action)
    requires Inv(s) && (a.Reschedule? || a.Edit? || a.SetBaseline?)
    ensures Inv(Apply(s, a))
  {
    hide Inv;
    var u := Apply(s, a);
    if a.site in u.sites {
      SiteSet(s, a.site, u.sites[a.site]);
    }
  }

  lemma OutsideKeeps(s: System, a: Action)
    requires Inv(s) && (a.Advance? || a.WriteScans?)
    ensures Inv(Apply(s, a))
  {
    hide OneInFlight;
    var u := Apply(s, a);
    forall k | 0 <= k < |u.log| ensures Passed(u, u.log[k]) {
      assert Passed(s, s.log[k]);
    }
    forall t | t in u.ticks ensures TickOk(u.ticks[t], u.clock) {
      assert TickOk(s.ticks[t], s.clock);
    }
  }

  lemma {:induction false} Always(s: System, acts: seq<Action>)
    requires Initial(s)
    ensures Inv(Run(s, acts))
  {
    hide Apply, OneInFlight;
    if acts != [] {
      var a := acts[|acts| - 1];
      Always(s, acts[..|acts| - 1]);
      var u := Run(s, acts[..|acts| - 1]);
      if a.TickClaim? {
        ClaimKeeps(u, a);
      } else if a.TickLook? {
        LookKeeps(u, a);
      } else if a.TickInsert? {
        InsertKeeps(u, a);
      } else if a.TickFault? || a.TickDies? || a.TickStart? {
        TickRunKeeps(u, a);
      } else if a.Advance? || a.WriteScans? {
        OutsideKeeps(u, a);
      } else {
        SiteKeeps(u, a);
      }
    }
  }


  /** In every interleaving of ticks, reschedules and edits, each due instant of
      a site is claimed at most once: claims of a site strictly increase. */
  lemma {:induction false} DueInstantOnce(s: System, acts: seq<Action>)
    requires Initial(s)
    ensures var u := Run(s, acts);
            && (forall j, k :: 0 <= j < k < |u.log| && u.log[j].site == u.log[k].site ==>
                  u.log[j].instant < u.log[k].instant)
            && (forall j, k :: 0 <= j < k < |u.log| ==> u.log[j] != u.log[k])
            && OneInFlight(u.scans)
  {
    Always(s, acts);
  }

  /** A tick that has gone through its list accounts for every due site. */
  lemma {:induction false} TickAccounts(s: System, acts: seq<Action>, t: nat)
    requires Initial(s) && t in Run(s, acts).ticks
    ensures var x := Run(s, acts).ticks[t];
            && Handled(x.stats) == x.pos <= |x.plan|
            && (x.pos == |x.plan| ==>
                  |x.plan| == x.stats.enqueued + x.stats.skippedInFlight + x.stats.skippedNoBaseline + x.stats.lostClaim
                      + x.stats.failed)
  {
    Always(s, acts);
    assert TickOk(Run(s, acts).ticks[t], Run(s, acts).clock);
  }

  /** The insert commits: its row is new and the index has room for it. */
  predicate Commits(s: System, t: Tick, id: ScanId) {
    && t.phase.Inserting? && t.pos < |t.plan| && id !in s.scans
    && OneInFlight(FailScan(s.scans, t.phase.stale)[id := Scan(t.plan[t.pos].site, Pending, s.clock, None)])
  }

  /** The dispatcher supersedes by row id alone: a scan that completed after it
      was judged stale is failed again exactly when the tick that picked it can
      commit its insert. */
  lemma CompletedScanLost(s: System, a: Action, id: ScanId)
    requires a.TickInsert? && id in s.scans && s.scans[id].status == Completed
    ensures InsertTick(s, a).scans[id].status != Completed <==>
            (a.t in s.ticks && s.ticks[a.t].phase == Inserting(Some(id)) && Commits(s, s.ticks[a.t], a.id))
  {
    hide OneInFlight;
    assert id in FailScan(s.scans, Some(id));
  }

  lemma {:induction false} Snoc(s: System, acts: seq<Action>, a: Action, u: System)
    requires Run(s, acts) == u
    ensures Run(s, acts + [a]) == Apply(u, a)
  {
    assert (acts + [a])[..|acts|] == acts;
  }

  // A due site whose scan has been pending for longer than the stale bound.
  const DUE := 2 * STALE_INFLIGHT
  const SITE := Site(true, 60, Some(DUE), true)
  const NEXT_SITE := SITE.(nextScanAt := Some(DUE + 60 * MINUTE))
  const STUCK := Scan(0, Pending, 0, None)
  const STARTED := STUCK.(status := Running, startedAt := Some(DUE))
  const DONE := STARTED.(status := Completed)
  const PLAN := [Entry(0, 60, DUE)]
  const MORNING := System(DUE, map[0 := SITE], map[0 := STUCK], map[], [])
  const PICKED :=
    System(DUE, map[0 := NEXT_SITE], map[0 := STUCK], map[0 := Tick(DUE, PLAN, 0, Inserting(Some(0)), NONE)],
           [Claimed(0, DUE)])

  const LISTED := MORNING.(ticks := map[0 := Tick(DUE, PLAN, 0, Claiming, NONE)])
  const TAKEN :=
    System(DUE, map[0 := NEXT_SITE], map[0 := STUCK], map[0 := Tick(DUE, PLAN, 0, Looking, NONE)], [Claimed(0, DUE)])

  lemma MorningSteps()
    ensures Apply(MORNING, TickStart(0, PLAN)) == LISTED
    ensures Apply(LISTED, TickClaim(0)) == TAKEN
    ensures Apply(TAKEN, TickLook(0, Some(0))) == PICKED
  {
    assert IsPlan(MORNING.sites, DUE, PLAN);
  }

  lemma {:induction false} StuckScanPicked() returns (acts: seq<Action>)
    ensures acts == [TickStart(0, PLAN), TickClaim(0), TickLook(0, Some(0))]
    ensures Run(MORNING, acts) == PICKED
  {
    assert Run(MORNING, []) == MORNING;
    MorningSteps();
    hide Run, Apply;
    acts := [] + [TickStart(0, PLAN)];
    Snoc(MORNING, [], TickStart(0, PLAN), MORNING);
    Snoc(MORNING, acts, TickClaim(0), LISTED);
    acts := acts + [TickClaim(0)];
    Snoc(MORNING, acts, TickLook(0, Some(0)), TAKEN);
    acts := acts + [TickLook(0, Some(0))];
  }

  lemma InsertOverDone()
    ensures Apply(PICKED.(scans := map[0 := DONE]), TickInsert(0, 1, true)).scans
         == map[0 := DONE.(status := Failed), 1 := Scan(0, Pending, DUE, None)]
  {
    assert OneInFlight(map[0 := DONE.(status := Failed), 1 := Scan(0, Pending, DUE, None)]);
    hide OneInFlight;
    assert FailScan(map[0 := DONE], Some(0))[1 := Scan(0, Pending, DUE, None)]
        == map[0 := DONE.(status := Failed), 1 := Scan(0, Pending, DUE, None)];
  }

  lemma WriteCommits(s: System, scans: Scans)
    requires OneInFlight(scans)
    ensures Apply(s, WriteScans(scans)) == s.(scans := scans)
  {
  }

  /** Such a loss happens: a worker takes the scan up and completes it between
      the tick's look and its insert. */
  lemma {:induction false} CompletedScanLostRun() returns (acts: seq<Action>)
    ensures Initial(MORNING)
    ensures acts == [TickStart(0, PLAN), TickClaim(0), TickLook(0, Some(0)), WriteScans(map[0 := STARTED]),
                     WriteScans(map[0 := DONE])]
    ensures Run(MORNING, acts).scans == map[0 := DONE]
    ensures Run(MORNING, acts + [TickInsert(0, 1, true)]).scans
            == map[0 := DONE.(status := Failed), 1 := Scan(0, Pending, DUE, None)]
  {
    var started, done := map[0 := STARTED], map[0 := DONE];
    WriteCommits(PICKED, started);
    WriteCommits(PICKED.(scans := started), done);
    InsertOverDone();
    hide Run, Apply;
    acts := StuckScanPicked();
    Snoc(MORNING, acts, WriteScans(started), PICKED);
    acts := acts + [WriteScans(started)];
    Snoc(MORNING, acts, WriteScans(done), PICKED.(scans := started));
    acts := acts + [WriteScans(done)];
    Snoc(MORNING, acts, TickInsert(0, 1, true), PICKED.(scans := done));
  }

  // ----- one tick with nothing interfering -----

  /** The claim's row predicate: the site still has the instant the list saw. */
  predicate Wins(sites: map<SiteId, Site>, e: Entry) {
    e.site in sites && sites[e.site].nextScanAt == Some(e.seen)
  }

  function Claim(sites: map<SiteId, Site>, e: Entry, now: int): map<SiteId, Site> {
    if Wins(sites, e) then sites[e.site := sites[e.site].(nextScanAt := Some(now + e.interval * MINUTE))] else sites
  }

  function ClaimAll(sites: map<SiteId, Site>, plan: seq<Entry>, now: int): map<SiteId, Site> {
    if plan == [] then sites else Claim(ClaimAll(sites, plan[..|plan| - 1], now), plan[|plan| - 1], now)
  }

  lemma ClaimWrites(sites: map<SiteId, Site>, e: Entry, now: int)
    requires Wins(sites, e)
    ensures e.site in sites
            && Claim(sites, e, now) == sites[e.site := sites[e.site].(nextScanAt := Some(now + e.interval * MINUTE))]
  {
  }

  predicate DistinctSites(plan: seq<Entry>) {
    forall j, k :: 0 <= j < k < |plan| ==> plan[j].site != plan[k].site
  }

  /** A list of distinct sites decides each site by its own entry alone, as the
      rows stood before the tick. */
  lemma {:induction false} ClaimAllAt(sites: map<SiteId, Site>, plan: seq<Entry>, now: int, site: SiteId)
    requires DistinctSites(plan)
    ensures site in ClaimAll(sites, plan, now) <==> site in sites
    ensures site in sites && (forall k :: 0 <= k < |plan| ==> plan[k].site != site) ==>
            ClaimAll(sites, plan, now)[site] == sites[site]
    ensures forall k :: 0 <= k < |plan| && plan[k].site == site && site in sites ==>
              ClaimAll(sites, plan, now)[site] == Claim(sites, plan[k], now)[site]
  {
    if plan != [] {
      var n := |plan| - 1;
      ClaimAllAt(sites, plan[..n], now, site);
      forall k | 0 <= k < n ensures plan[..n][k] == plan[k] {}
    }
  }

  /** The entry a tick handles, with the row as it stood before the tick. */
  predicate MustServe(sites: map<SiteId, Site>, e: Entry, faulty: set<SiteId>) {
    Wins(sites, e) && sites[e.site].baselineReady && e.site !in faulty
  }

  lemma {:induction false} MustServeLater(sites: map<SiteId, Site>, plan: seq<Entry>, k: nat, now: int,
                                          faulty: set<SiteId>)
    requires DistinctSites(plan) && k < |plan|
    ensures ClaimAll(sites, plan[..k + 1], now) == Claim(ClaimAll(sites, plan[..k], now), plan[k], now)
    ensures MustServe(sites, plan[k], faulty) <==> MustServe(ClaimAll(sites, plan[..k], now), plan[k], faulty)
    ensures MustServe(sites, plan[k], faulty) ==>
              Wins(ClaimAll(sites, plan[..k], now), plan[k])
                  && ClaimAll(sites, plan[..k], now)[plan[k].site].baselineReady && plan[k].site !in faulty
  {
    ClaimAllAt(sites, plan[..k], now, plan[k].site);
    assert plan[..k + 1][..k] == plan[..k];
  }

  predicate Served(scans: Scans, site: SiteId) {
    exists id :: id in scans && scans[id].site == site && InFlight(scans[id])
  }

  lemma FreeSlot(scans: Scans, site: SiteId, added: ScanId, now: int)
    requires OneInFlight(scans) && added !in scans && forall id :: id in scans && scans[id].site == site ==>
             !InFlight(scans[id])
    ensures OneInFlight(scans[added := Scan(site, Pending, now, None)])
  {
  }

  lemma FailedFits(scans: Scans, id: ScanId)
    requires OneInFlight(scans) && id in scans
    ensures OneInFlight(scans[id := scans[id].(status := Failed)])
  {
  }

  lemma ServedStays(scans: Scans, stale: Option<ScanId>, added: ScanId, site: SiteId, now: int)
    requires OneInFlight(scans) && IsCurrent(scans, site, stale) && forall id :: id in scans ==> id < added
    ensures var after := FailScan(scans, stale)[added := Scan(site, Pending, now, None)];
            OneInFlight(after) && Served(after, site) && forall other :: Served(scans, other) ==> Served(after, other)
  {
    var after := FailScan(scans, stale)[added := Scan(site, Pending, now, None)];
    assert after[added].site == site && InFlight(after[added]);
    forall other | Served(scans, other) ensures Served(after, other) {
      var id :| id in scans && scans[id].site == other && InFlight(scans[id]);
      if other != site {
        assert after[id] == scans[id];
      }
    }
  }

  /** The in-flight scan of a site; the index leaves no choice. */
  ghost function CurrentOf(scans: Scans, site: SiteId): (current: Option<ScanId>)
    ensures IsCurrent(scans, site, current)
  {
    if exists id :: id in scans && scans[id].site == site && InFlight(scans[id])
    then var id :| id in scans && scans[id].site == site && InFlight(scans[id]); Some(id)
    else None
  }

  lemma CurrentUnique(scans: Scans, site: SiteId, current: Option<ScanId>)
    requires OneInFlight(scans) && IsCurrent(scans, site, current)
    ensures current == CurrentOf(scans, site)
  {
  }

  datatype Tables = Tables(sites: map<SiteId, Site>, scans: Scans, next: ScanId, stats: Stats)

  /** The work on one claimed site, nothing interfering. */
  ghost function WorkOn(x: Tables, site: SiteId, now: int, published: bool, faulty: bool): Tables
    requires site in x.sites
  {
    if faulty then x.(stats := x.stats.(failed := x.stats.failed + 1))
    else if !x.sites[site].baselineReady then x.(stats := x.stats.(skippedNoBaseline := x.stats.skippedNoBaseline + 1))
    else
      var current := CurrentOf(x.scans, site);
      if current.Some? && !IsStale(x.scans[current.value], now)
          then x.(stats := x.stats.(skippedInFlight := x.stats.skippedInFlight + 1))
      else
        var stats := if current.Some? then x.stats.(recoveredStale := x.stats.recoveredStale + 1) else x.stats;
        Tables(x.sites, FailScan(x.scans, current)[x.next := Scan(site, Pending, now, None)], x.next + 1,
               if published then stats.(enqueued := stats.enqueued + 1) else stats.(failed := stats.failed + 1))
  }

  ghost function DispatchOne(x: Tables, e: Entry, now: int, published: set<SiteId>, faulty: set<SiteId>): Tables {
    if Wins(x.sites, e) then WorkOn(x.(sites := Claim(x.sites, e, now)), e.site, now, e.site in published,
                                    e.site in faulty)
    else x.(stats := x.stats.(lostClaim := x.stats.lostClaim + 1))
  }

  ghost function DispatchAll(x: Tables, plan: seq<Entry>, now: int, published: set<SiteId>,
                             faulty: set<SiteId>): Tables {
    if plan == [] then x
    else DispatchOne(DispatchAll(x, plan[..|plan| - 1], now, published, faulty), plan[|plan| - 1], now, published,
                     faulty)
  }

  predicate Sound(scans: Scans, next: ScanId) { OneInFlight(scans) && forall id :: id in scans ==> id < next }

  lemma WorkOnOk(x: Tables, site: SiteId, now: int, published: bool, faulty: bool)
    requires Sound(x.scans, x.next) && site in x.sites
    ensures var y := WorkOn(x, site, now, published, faulty);
            && Sound(y.scans, y.next) && y.sites == x.sites && Handled(y.stats) == Handled(x.stats) + 1
            && (forall other :: Served(x.scans, other) ==> Served(y.scans, other))
            && (x.sites[site].baselineReady && !faulty ==> Served(y.scans, site))
  {
    ServedStays(x.scans, CurrentOf(x.scans, site), x.next, site, now);
  }

  /** A whole tick over a list of distinct sites: every entry is accounted for,
      each site is claimed once at most, the index holds, and a site that was
      won, has a ready baseline and met no fault ends up with a scan in flight. */
  lemma {:induction false} DispatchAllOk(x: Tables, plan: seq<Entry>, now: int, published: set<SiteId>,
                                         faulty: set<SiteId>)
    requires Sound(x.scans, x.next) && DistinctSites(plan)
    ensures var y := DispatchAll(x, plan, now, published, faulty);
            && Sound(y.scans, y.next) && y.sites == ClaimAll(x.sites, plan, now)
            && Handled(y.stats) == Handled(x.stats) + |plan|
            && (forall k :: 0 <= k < |plan| && MustServe(x.sites, plan[k], faulty) ==> Served(y.scans, plan[k].site))
  {
    hide Sound, Served, WorkOn, Claim, Wins;
    if plan != [] {
      var n := |plan| - 1;
      DispatchAllOk(x, plan[..n], now, published, faulty);
      DispatchLast(x, plan, now, published, faulty);
    }
  }

  lemma {:induction false} DispatchLast(x: Tables, plan: seq<Entry>, now: int, published: set<SiteId>,
                                        faulty: set<SiteId>)
    requires DistinctSites(plan) && plan != []
    requires var n := |plan| - 1;
             var y := DispatchAll(x, plan[..n], now, published, faulty);
             && Sound(y.scans, y.next) && y.sites == ClaimAll(x.sites, plan[..n], now)
             && Handled(y.stats) == Handled(x.stats) + n
    ensures var n := |plan| - 1;
            var y := DispatchAll(x, plan[..n], now, published, faulty);
            var z := DispatchAll(x, plan, now, published, faulty);
            && Sound(z.scans, z.next) && z.sites == ClaimAll(x.sites, plan, now)
            && Handled(z.stats) == Handled(x.stats) + |plan|
            && (forall other :: Served(y.scans, other) ==> Served(z.scans, other))
            && (MustServe(x.sites, plan[n], faulty) ==> Served(z.scans, plan[n].site))
  {
    hide Sound, Served, WorkOn, DistinctSites, DispatchAll, MustServe;
    var n := |plan| - 1;
    assert plan[..n + 1] == plan;
    var y := DispatchAll(x, plan[..n], now, published, faulty);
    DispatchSnoc(x, plan, now, published, faulty);
    MustServeLater(x.sites, plan, n, now, faulty);
    if Wins(y.sites, plan[n]) {
      var claimed := y.(sites := Claim(y.sites, plan[n], now));
      WorkOnOk(claimed, plan[n].site, now, plan[n].site in published, plan[n].site in faulty);
    }
  }

  lemma {:induction false} DispatchSnoc(x: Tables, plan: seq<Entry>, now: int, published: set<SiteId>,
                                        faulty: set<SiteId>)
    requires plan != []
    ensures DispatchAll(x, plan, now, published, faulty)
         == DispatchOne(DispatchAll(x, plan[..|plan| - 1], now, published, faulty), plan[|plan| - 1], now, published,
                        faulty)
  {
  }

  // ----- the tables as the code writes them -----

  datatype ScanNow = NoBaseline | InProgress | Started(id: ScanId) | QueueDown(id: ScanId)

  class ScanTables {
    var sites: map<SiteId, Site>
    var scans: Scans
    var next: ScanId

    ghost predicate Valid()
      reads this
    {
      Sound(scans, next)
    }

    constructor ()
      ensures Valid()
    {
      sites, scans, next := map[], map[], 0;
    }

    method FindInFlight(site: SiteId) returns (id: Option<ScanId>)
      ensures IsCurrent(scans, site, id)
    {
      if i :| i in scans && scans[i].site == site && InFlight(scans[i]) {
        id := Some(i);
      } else {
        id := None;
      }
    }

    /** Scan-now. seen is the in-flight scan as it was read some time ago, with
        its staleness; the tables may have moved on since. A call that loses
        leaves them exactly as they were; one whose publish fails leaves its own
        row failed, so that it blocks nobody. */
    method TriggerScanNow(site: SiteId, seen: Option<ScanId>, seenStale: bool, now: int, published: bool)
      returns (res: ScanNow)
      requires Valid()
      modifies this`scans, this`next
      ensures Valid()
      ensures res == NoBaseline <==> site !in sites || !sites[site].baselineReady
      ensures (res.Started? || res.QueueDown?) <==>
              && site in sites && sites[site].baselineReady
              && (seen != None ==>
                    seenStale && seen.value in old(scans) && old(scans)[seen.value].status in {Pending, Running})
              && (forall id ::
                    id in old(scans) && old(scans)[id].site == site && old(scans)[id].status in {Pending, Running} ==>
                      seen == Some(id))
      ensures res.NoBaseline? || res.InProgress? ==> scans == old(scans)
      ensures (res.Started? ==> published) && (res.QueueDown? ==> !published)
      ensures res.Started? || res.QueueDown? ==>
                && res.id !in old(scans)
                && scans == (if seen == None then old(scans)
                             else old(scans)[seen.value := old(scans)[seen.value].(status := Failed)])
                            [res.id := Scan(site, if published then Pending else Failed, now, None)]
    {
      if site !in sites || !sites[site].baselineReady {
        return NoBaseline;
      }
      hide OneInFlight;
      var before := scans;
      if seen.Some? {
        if !seenStale {
          return InProgress;
        }
        if seen.value !in scans || !InFlight(scans[seen.value]) {
          return InProgress;
        }
        FailedFits(scans, seen.value);
        scans := scans[seen.value := scans[seen.value].(status := Failed)];
      }
      if id :| id in scans && scans[id].site == site && InFlight(scans[id]) {
        scans := before;
        return InProgress;
      }
      forall id | id in before && before[id].site == site && InFlight(before[id]) ensures seen == Some(id) {
        assert !(id in scans && scans[id].site == site && InFlight(scans[id]));
      }
      FreeSlot(scans, site, next, now);
      scans := scans[next := Scan(site, Pending, now, None)];
      if published {
        res := Started(next);
      } else {
        FailedFits(scans, next);
        scans := scans[next := scans[next].(status := Failed)];
        res := QueueDown(next);
      }
      next := next + 1;
    }

    /** One whole tick over a list that was read earlier: the schedule may have
        moved on for some of its sites. */
    method DispatchDueScans(plan: seq<Entry>, now: int, published: set<SiteId>, faulty: set<SiteId>)
      returns (stats: Stats)
      requires Valid() && DistinctSites(plan)
      modifies this
      ensures Valid()
      ensures Tables(sites, scans, next, stats)
              == DispatchAll(Tables(old(sites), old(scans), old(next), NONE), plan, now, published, faulty)
    {
      stats := NONE;
      ghost var start := Tables(sites, scans, next, NONE);
      for k := 0 to |plan|
        invariant Valid()
        invariant Tables(sites, scans, next, stats) == DispatchAll(start, plan[..k], now, published, faulty)
      {
        hide Wins, Claim, WorkOn, DispatchAll, Sound;
        var e := plan[k];
        assert plan[..k + 1][..k] == plan[..k];
        DispatchSnoc(start, plan[..k + 1], now, published, faulty);
        if !Wins(sites, e) {
          stats := stats.(lostClaim := stats.lostClaim + 1);
          continue;
        }
        ClaimWrites(sites, e, now);
        sites := sites[e.site := sites[e.site].(nextScanAt := Some(now + e.interval * MINUTE))];
        stats := ProcessSite(e.site, now, e.site in published, e.site in faulty, stats);
      }
      assert plan[..|plan|] == plan;
    }

    /** The work on one claimed site. */
    method ProcessSite(site: SiteId, now: int, published: bool, faulty: bool, before: Stats) returns (stats: Stats)
      requires Valid() && site in sites
      modifies this`scans, this`next
      ensures Valid()
      ensures Tables(sites, scans, next, stats)
              == WorkOn(Tables(sites, old(scans), old(next), before), site, now, published, faulty)
    {
      WorkOnOk(Tables(sites, scans, next, before), site, now, published, faulty);
      if faulty {
        return before.(failed := before.failed + 1);
      }
      if !sites[site].baselineReady {
        return before.(skippedNoBaseline := before.skippedNoBaseline + 1);
      }
      var inFlight := FindInFlight(site);
      CurrentUnique(scans, site, inFlight);
      stats := before;
      if inFlight.Some? {
        if !IsStale(scans[inFlight.value], now) {
          return before.(skippedInFlight := before.skippedInFlight + 1);
        }
        scans := scans[inFlight.value := scans[inFlight.value].(status := Failed)];
        stats := stats.(recoveredStale := stats.recoveredStale + 1);
      }
      scans := scans[next := Scan(site, Pending, now, None)];
      next := next + 1;
      stats := if published then stats.(enqueued := stats.enqueued + 1) else stats.(failed := stats.failed + 1);
    }
  }
}
