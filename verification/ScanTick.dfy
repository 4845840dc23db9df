/** What a dispatcher tick does to every site of its list, and to no other. */
module ScanTick {
  import opened Prelude
  import opened ScanDispatch

  predicate Flies(x: Scan) { x.status == Pending || x.status == Running }

  /** Started, or else created, within the last ten minutes. */
  predicate Young(x: Scan, now: int) {
    now - 600_000_000 <= match x.startedAt case Some(at) => at case None => x.createdAt
  }

  predicate FliesFor(scans: Scans, site: SiteId, id: ScanId) {
    id in scans && scans[id].site == site && Flies(scans[id])
  }

  datatype Fate = Lost | Faulty | NotReady | Busy | Fresh | Superseding

  /** What happens to an entry: its instant was moved, its work raised, there is no
      baseline, a young scan is left alone, or a new one starts, in the place of a
      stale one or without. */
  ghost function FateOf(sites: map<SiteId, Site>, scans: Scans, e: Entry, now: int, faulty: set<SiteId>): Fate {
    if !(e.site in sites && sites[e.site].nextScanAt == Some(e.seen)) then Lost
    else if e.site in faulty then Faulty
    else if !sites[e.site].baselineReady then NotReady
    else if exists id :: FliesFor(scans, e.site, id) && Young(scans[id], now) then Busy
    else if exists id :: FliesFor(scans, e.site, id) then Superseding
    else Fresh
  }

  predicate Starts(f: Fate) { f == Fresh || f == Superseding }

  function Tallied(s: Stats, f: Fate, published: bool): Stats {
    match f
    case Lost => s.(lostClaim := s.lostClaim + 1)
    case Faulty => s.(failed := s.failed + 1)
    case NotReady => s.(skippedNoBaseline := s.skippedNoBaseline + 1)
    case Busy => s.(skippedInFlight := s.skippedInFlight + 1)
    case _ =>
      var r := s.(recoveredStale := s.recoveredStale + if f == Superseding then 1 else 0);
      if published then r.(enqueued := r.enqueued + 1) else r.(failed := r.failed + 1)
  }

  function Begun(site: SiteId, now: int): Scan { Scan(site, Pending, now, None) }

  /** One entry: the schedule, the scans and the counters. */
  lemma OneExactly(x: Tables, e: Entry, now: int, published: set<SiteId>, faulty: set<SiteId>)
    requires Sound(x.scans, x.next)
    ensures var y, f := DispatchOne(x, e, now, published, faulty), FateOf(x.sites, x.scans, e, now, faulty);
            && Sound(y.scans, y.next)
            && y.sites == (if f == Lost then x.sites
                           else x.sites[e.site := x.sites[e.site].(nextScanAt := Some(now + e.interval * 60_000_000))])
            && (!Starts(f) ==> y.scans == x.scans && y.next == x.next)
            && (f == Fresh ==> y.scans == x.scans[x.next := Begun(e.site, now)] && y.next == x.next + 1)
            && (f == Superseding ==>
                  && y.next == x.next + 1
                  && exists id :: FliesFor(x.scans, e.site, id)
                       && y.scans == x.scans[id := x.scans[id].(status := Failed)][x.next := Begun(e.site, now)])
            && y.stats == Tallied(x.stats, f, e.site in published)
  {
    if Wins(x.sites, e) {
      var claimed := x.(sites := Claim(x.sites, e, now));
      WorkOnOk(claimed, e.site, now, e.site in published, e.site in faulty);
      var current := CurrentOf(x.scans, e.site);
      forall id: ScanId | FliesFor(x.scans, e.site, id) ensures current == Some(id) {
        CurrentUnique(x.scans, e.site, Some(id));
      }
    }
  }

  /** The scans of a site are the same in both tables. */
  predicate SameFor(a: Scans, b: Scans, site: SiteId) {
    && (forall id :: id in a && a[id].site == site ==> id in b && b[id] == a[id])
    && (forall id :: id in b && b[id].site == site ==> id in a && a[id] == b[id])
  }

  lemma SameFate(sites: map<SiteId, Site>, a: Scans, others: map<SiteId, Site>, b: Scans, e: Entry, now: int,
                 faulty: set<SiteId>)
    requires SameFor(a, b, e.site) && (e.site in sites <==> e.site in others)
    requires e.site in sites ==> sites[e.site] == others[e.site]
    ensures FateOf(sites, a, e, now, faulty) == FateOf(others, b, e, now, faulty)
  {
    assert forall id :: FliesFor(a, e.site, id) <==> FliesFor(b, e.site, id);
  }

  ghost function Fates(x: Tables, plan: seq<Entry>, now: int, faulty: set<SiteId>): seq<Fate> {
    seq(|plan|, k requires 0 <= k < |plan| => FateOf(x.sites, x.scans, plan[k], now, faulty))
  }

  function TalliedAll(s: Stats, plan: seq<Entry>, fates: seq<Fate>, published: set<SiteId>): Stats
    requires |fates| == |plan|
  {
    if plan == [] then s
    else
      var n := |plan| - 1;
      Tallied(TalliedAll(s, plan[..n], fates[..n], published), fates[n], plan[n].site in published)
  }

  /** No scan is lost or moved to another site. */
  predicate Keeps(a: Scans, b: Scans) { forall id :: id in a ==> id in b && b[id].site == a[id].site }

  /** The site of entry k after the tick. */
  ghost predicate EntryDone(x: Tables, y: Tables, e: Entry, f: Fate, now: int) {
    && (e.site in y.sites <==> e.site in x.sites)
    && (e.site in x.sites ==>
          y.sites[e.site]
          == if f == Lost then x.sites[e.site]
             else x.sites[e.site].(nextScanAt := Some(now + e.interval * 60_000_000)))
    && (!Starts(f) ==> SameFor(x.scans, y.scans, e.site))
    && (Starts(f) ==>
          && (exists id :: id !in x.scans && id in y.scans && y.scans[id] == Begun(e.site, now)
                && forall j :: j in y.scans && j !in x.scans && y.scans[j].site == e.site ==> j == id)
          && forall id :: id in x.scans && x.scans[id].site == e.site ==>
               id in y.scans
               && y.scans[id] == if Flies(x.scans[id]) then x.scans[id].(status := Failed) else x.scans[id])
  }

  ghost predicate Others(x: Tables, y: Tables, plan: seq<Entry>) {
    forall site :: (forall k :: 0 <= k < |plan| ==> plan[k].site != site) ==>
        && (site in y.sites <==> site in x.sites) && (site in x.sites ==> y.sites[site] == x.sites[site])
        && SameFor(x.scans, y.scans, site)
  }

  lemma FreshDone(x: Tables, y: Tables, e: Entry, now: int)
    requires Sound(x.scans, x.next) && forall id :: !FliesFor(x.scans, e.site, id)
    requires y.scans == x.scans[x.next := Begun(e.site, now)] && e.site in x.sites
    requires y.sites == x.sites[e.site := x.sites[e.site].(nextScanAt := Some(now + e.interval * 60_000_000))]
    ensures EntryDone(x, y, e, Fresh, now) && Keeps(x.scans, y.scans)
    ensures forall site :: site != e.site ==> SameFor(x.scans, y.scans, site)
  {
    assert x.next !in x.scans && y.scans[x.next] == Begun(e.site, now);
    forall id | id in x.scans && x.scans[id].site == e.site ensures !Flies(x.scans[id]) {
      assert !FliesFor(x.scans, e.site, id);
    }
  }

  lemma SupersedingDone(x: Tables, y: Tables, e: Entry, now: int, id: ScanId)
    requires Sound(x.scans, x.next) && FliesFor(x.scans, e.site, id) && e.site in x.sites
    requires y.scans == x.scans[id := x.scans[id].(status := Failed)][x.next := Begun(e.site, now)]
    requires y.sites == x.sites[e.site := x.sites[e.site].(nextScanAt := Some(now + e.interval * 60_000_000))]
    ensures EntryDone(x, y, e, Superseding, now) && Keeps(x.scans, y.scans)
    ensures forall site :: site != e.site ==> SameFor(x.scans, y.scans, site)
  {
    assert x.next !in x.scans && y.scans[x.next] == Begun(e.site, now);
    forall j | j in x.scans && x.scans[j].site == e.site && Flies(x.scans[j]) ensures j == id {
      assert Clash(x.scans[id], x.scans[j]);
    }
  }

  lemma OneDone(x: Tables, e: Entry, now: int, published: set<SiteId>, faulty: set<SiteId>)
    requires Sound(x.scans, x.next)
    ensures var y, f := DispatchOne(x, e, now, published, faulty), FateOf(x.sites, x.scans, e, now, faulty);
            StepDone(x, y, e, f, now)
  {
    OneExactly(x, e, now, published, faulty);
    var y, f := DispatchOne(x, e, now, published, faulty), FateOf(x.sites, x.scans, e, now, faulty);
    hide DispatchOne, Sound, Young, Flies, Begun;
    if f == Superseding {
      var id :| FliesFor(x.scans, e.site, id)
                && y.scans == x.scans[id := x.scans[id].(status := Failed)][x.next := Begun(e.site, now)];
      hide EntryDone, SameFor, Keeps;
      SupersedingDone(x, y, e, now, id);
    } else if f == Fresh {
      hide EntryDone, SameFor, Keeps;
      FreshDone(x, y, e, now);
    }
  }

  /** What the entries of a list have done. */
  ghost predicate TickDone(x: Tables, y: Tables, plan: seq<Entry>, now: int, faulty: set<SiteId>) {
    && (forall k :: 0 <= k < |plan| ==>
          EntryDone(x, y, plan[k], FateOf(x.sites, x.scans, plan[k], now, faulty), now))
    && Others(x, y, plan) && Keeps(x.scans, y.scans)
  }

  /** A whole tick over distinct sites: each entry's fate is decided by the tables
      as they were before the tick, happens to its site alone, and is tallied. */
  lemma {:induction false} TickExactly(x: Tables, plan: seq<Entry>, now: int, published: set<SiteId>,
                                       faulty: set<SiteId>)
    requires Sound(x.scans, x.next) && DistinctSites(plan)
    ensures var y := DispatchAll(x, plan, now, published, faulty);
            && TickDone(x, y, plan, now, faulty) && Sound(y.scans, y.next)
            && y.stats == TalliedAll(x.stats, plan, Fates(x, plan, now, faulty), published)
  {
    if plan == [] {
      hide Sound, FateOf;
    } else {
      hide Sound, DispatchOne, DispatchAll, FateOf, EntryDone, Others, Keeps, Tallied, TickDone, SameFor;
      var n := |plan| - 1;
      TickExactly(x, plan[..n], now, published, faulty);
      var y := DispatchAll(x, plan[..n], now, published, faulty);
      DispatchSnoc(x, plan, now, published, faulty);
      OneExactly(y, plan[n], now, published, faulty);
      OneDone(y, plan[n], now, published, faulty);
      assert Fates(x, plan, now, faulty)[..n] == Fates(x, plan[..n], now, faulty);
      TickMore(x, y, DispatchAll(x, plan, now, published, faulty), plan, n, now, faulty);
    }
  }

  /** The step from y to z was that of one entry. */
  ghost predicate StepDone(y: Tables, z: Tables, e: Entry, f: Fate, now: int) {
    && EntryDone(y, z, e, f, now) && Keeps(y.scans, z.scans)
    && forall site :: site != e.site ==>
         && (site in z.sites <==> site in y.sites) && (site in y.sites ==> z.sites[site] == y.sites[site])
         && SameFor(y.scans, z.scans, site)
  }

  /** The entries before it do not touch the site of the next one. */
  lemma NextUntouched(x: Tables, y: Tables, plan: seq<Entry>, n: nat, now: int, faulty: set<SiteId>)
    requires |plan| == n + 1 && DistinctSites(plan) && Others(x, y, plan[..n])
    ensures plan[n].site in y.sites <==> plan[n].site in x.sites
    ensures plan[n].site in x.sites ==> y.sites[plan[n].site] == x.sites[plan[n].site]
    ensures SameFor(x.scans, y.scans, plan[n].site)
    ensures FateOf(x.sites, x.scans, plan[n], now, faulty) == FateOf(y.sites, y.scans, plan[n], now, faulty)
  {
    hide FateOf, SameFor;
    assert forall k :: 0 <= k < n ==> plan[..n][k] == plan[k] && plan[k].site != plan[n].site;
    SameFate(x.sites, x.scans, y.sites, y.scans, plan[n], now, faulty);
  }

  lemma TickMore(x: Tables, y: Tables, z: Tables, plan: seq<Entry>, n: nat, now: int, faulty: set<SiteId>)
    requires |plan| == n + 1 && DistinctSites(plan) && TickDone(x, y, plan[..n], now, faulty)
    requires StepDone(y, z, plan[n], FateOf(y.sites, y.scans, plan[n], now, faulty), now)
    ensures FateOf(x.sites, x.scans, plan[n], now, faulty) == FateOf(y.sites, y.scans, plan[n], now, faulty)
    ensures TickDone(x, z, plan, now, faulty)
  {
    hide FateOf, EntryDone, Keeps, Others, SameFor;
    NextUntouched(x, y, plan, n, now, faulty);
    OthersMore(x, y, z, plan, n, FateOf(y.sites, y.scans, plan[n], now, faulty), now);
    KeepsTrans(x.scans, y.scans, z.scans);
    LastDone(x, y, z, plan[n], FateOf(x.sites, x.scans, plan[n], now, faulty), now);
    forall k | 0 <= k < n ensures EntryDone(x, z, plan[k], FateOf(x.sites, x.scans, plan[k], now, faulty), now) {
      assert plan[..n][k] == plan[k];
      KeptDone(x, y, z, plan[k], FateOf(x.sites, x.scans, plan[k], now, faulty), now);
    }
  }

  lemma OthersMore(x: Tables, y: Tables, z: Tables, plan: seq<Entry>, n: nat, f: Fate, now: int)
    requires |plan| == n + 1 && Others(x, y, plan[..n]) && StepDone(y, z, plan[n], f, now)
    ensures Others(x, z, plan)
  {
    hide EntryDone, Keeps, SameFor;
    forall site | forall k :: 0 <= k <= n ==> plan[k].site != site
      ensures && (site in z.sites <==> site in x.sites) && (site in x.sites ==> z.sites[site] == x.sites[site])
              && SameFor(x.scans, z.scans, site)
    {
      assert plan[n].site != site && forall k :: 0 <= k < n ==> plan[..n][k].site != site;
      SameTrans(x.scans, y.scans, z.scans, site);
    }
  }

  lemma KeepsTrans(a: Scans, b: Scans, c: Scans)
    requires Keeps(a, b) && Keeps(b, c)
    ensures Keeps(a, c)
  {
  }

  lemma SameTrans(a: Scans, b: Scans, c: Scans, site: SiteId)
    requires SameFor(a, b, site) && SameFor(b, c, site)
    ensures SameFor(a, c, site)
  {
  }

  lemma KeptDone(x: Tables, y: Tables, z: Tables, e: Entry, f: Fate, now: int)
    requires EntryDone(x, y, e, f, now) && SameFor(y.scans, z.scans, e.site)
    requires (e.site in z.sites <==> e.site in y.sites) && (e.site in y.sites ==> z.sites[e.site] == y.sites[e.site])
    requires Keeps(x.scans, y.scans) && Keeps(y.scans, z.scans)
    ensures EntryDone(x, z, e, f, now)
  {
    if Starts(f) {
      var id :| id !in x.scans && id in y.scans && y.scans[id] == Begun(e.site, now)
                && forall j :: j in y.scans && j !in x.scans && y.scans[j].site == e.site ==> j == id;
      assert z.scans[id] == Begun(e.site, now);
    }
  }

  lemma LastDone(x: Tables, y: Tables, z: Tables, e: Entry, f: Fate, now: int)
    requires EntryDone(y, z, e, f, now) && SameFor(x.scans, y.scans, e.site)
    requires (e.site in y.sites <==> e.site in x.sites) && (e.site in x.sites ==> y.sites[e.site] == x.sites[e.site])
    requires Keeps(x.scans, y.scans) && Keeps(y.scans, z.scans)
    ensures EntryDone(x, z, e, f, now)
  {
    if Starts(f) {
      var id :| id !in y.scans && id in z.scans && z.scans[id] == Begun(e.site, now)
                && forall j :: j in z.scans && j !in y.scans && z.scans[j].site == e.site ==> j == id;
      assert id !in x.scans;
    }
  }

  // ----- the steps of interleaved ticks -----

  /** A tick that looks at the scans of a site it has claimed leaves a young scan
      alone, goes on to supersede only a stale one, and starts afresh only if the
      site has none. */
  lemma LookExactly(s: System, a: Action)
    requires a.TickLook? && a.t in s.ticks && s.ticks[a.t].phase == Looking && s.ticks[a.t].pos < |s.ticks[a.t].plan|
    requires OneInFlight(s.scans)
    ensures var t, u := s.ticks[a.t], Apply(s, a).ticks[a.t];
            var site := t.plan[t.pos].site;
            var ready := site in s.sites && s.sites[site].baselineReady;
            && (!ready ==> u == NextSite(t, t.stats.(skippedNoBaseline := t.stats.skippedNoBaseline + 1)))
            && (ready && a.current == None && (forall id :: !FliesFor(s.scans, site, id)) ==>
                  u == t.(phase := Inserting(None)))
            && (ready && a.current != None && FliesFor(s.scans, site, a.current.value) ==>
                  u == if Young(s.scans[a.current.value], s.clock)
                       then NextSite(t, t.stats.(skippedInFlight := t.stats.skippedInFlight + 1))
                       else t.(phase := Inserting(a.current)))
            && Apply(s, a) == s.(ticks := s.ticks[a.t := u])
  {
    if a.current == None {
      assert forall id :: id in s.scans ==> (FliesFor(s.scans, s.ticks[a.t].plan[s.ticks[a.t].pos].site, id) <==>
          s.scans[id].site == s.ticks[a.t].plan[s.ticks[a.t].pos].site && InFlight(s.scans[id]));
    }
  }

  /** Only sites that scan automatically and are due are ever listed, fifty at most. */
  lemma ListedAreDue(sites: map<SiteId, Site>, now: int, plan: seq<Entry>)
    requires IsPlan(sites, now, plan)
    ensures |plan| <= 50 && DistinctSites(plan)
    ensures forall k :: 0 <= k < |plan| ==>
              && plan[k].site in sites && sites[plan[k].site].auto
              && sites[plan[k].site].nextScanAt == Some(plan[k].seen)
              && plan[k].seen <= now && 5 <= plan[k].interval <= 1440
  {
    assert forall k :: 0 <= k < |plan| ==> Due(sites[plan[k].site], now);
  }

  /** A site whose automatic scans are switched off is not claimed, also by a tick
      that had listed it before. */
  lemma OffLosesClaim(s: System, site: SiteId, minutes: int, rearm: bool, stamp: int, t: nat)
    requires Prompt(s, stamp) && t in s.ticks && s.ticks[t].phase == Claiming && s.ticks[t].pos < |s.ticks[t].plan|
    requires s.ticks[t].plan[s.ticks[t].pos].site == site
    ensures var off := Apply(s, Edit(site, false, minutes, rearm, stamp));
            && site in off.sites && off.sites[site].nextScanAt == None && !off.sites[site].auto
            && Apply(off, TickClaim(t)).log == s.log && Apply(off, TickClaim(t)).sites == off.sites
            && forall plan: seq<Entry> :: IsPlan(off.sites, off.clock, plan) ==>
                 forall k :: 0 <= k < |plan| ==> plan[k].site != site
  {
    var off := Apply(s, Edit(site, false, minutes, rearm, stamp));
    forall plan: seq<Entry> | IsPlan(off.sites, off.clock, plan)
      ensures forall k :: 0 <= k < |plan| ==> plan[k].site != site
    {
      ListedAreDue(off.sites, off.clock, plan);
    }
  }

  /** A tick takes a site exactly if the site still has the instant that was listed. */
  lemma ClaimExactly(s: System, a: Action)
    requires a.TickClaim? && a.t in s.ticks && s.ticks[a.t].phase == Claiming && s.ticks[a.t].pos < |s.ticks[a.t].plan|
    ensures var t := s.ticks[a.t];
            var e := t.plan[t.pos];
            Apply(s, a)
            == if e.site in s.sites && s.sites[e.site].nextScanAt == Some(e.seen)
               then s.(sites := s.sites[e.site := s.sites[e.site].(nextScanAt := Some(t.now
                                                                                      + e.interval * 60_000_000))],
                       ticks := s.ticks[a.t := t.(phase := Looking)], log := s.log + [Claimed(e.site, e.seen)])
               else s.(ticks := s.ticks[a.t := NextSite(t, t.stats.(lostClaim := t.stats.lostClaim + 1))])
  {
  }

  /** Its insert fails the stale scan it had found and starts a new one, unless the
      index rejects the commit, which counts as a failure and changes no scan. */
  lemma InsertExactly(s: System, a: Action)
    requires a.TickInsert? && a.t in s.ticks && s.ticks[a.t].phase.Inserting? && s.ticks[a.t].pos < |s.ticks[a.t].plan|
    requires a.id !in s.scans
    ensures var t, u := s.ticks[a.t], Apply(s, a);
            var site, stale := t.plan[t.pos].site, t.phase.stale;
            var failed := if stale != None && stale.value in s.scans
                          then s.scans[stale.value := s.scans[stale.value].(status := ScanStatus.Failed)] else s.scans;
            var after := failed[a.id := Begun(site, s.clock)];
            if OneInFlight(after)
            then var f := if stale == None then Fresh else Superseding;
                 u == s.(scans := after, ticks := s.ticks[a.t := NextSite(t, Tallied(t.stats, f, a.published))])
            else u == s.(ticks := s.ticks[a.t := NextSite(t, t.stats.(failed := t.stats.failed + 1))])
  {
  }

  /** Rescheduling puts the next scan one clamped interval after its clock. */
  lemma RescheduleExactly(s: System, site: SiteId, minutes: int, stamp: int)
    requires Prompt(s, stamp) && site in s.sites
    ensures Apply(s, Reschedule(site, minutes, stamp))
            == s.(sites := s.sites[site := s.sites[site].(nextScanAt := Some(stamp + Max(5, Min(1440, minutes))
                                                                                     * 60_000_000))])
  {
  }
}
