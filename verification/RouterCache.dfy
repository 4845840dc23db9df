/** The cache of built routers: coroutines look a signature up, build outside
    the lock when it is missing, and store what they built, in every order. */
module RouterCache {
  import opened Prelude

  const MAX_ROUTERS := 32

  type Sig = string
  type Router = nat

  datatype Entry = Entry(sig: Sig, router: Router)

  // Oldest entry first.
  type Cache = seq<Entry>

  /** Where a signature is, or the length of the cache. */
  function Pos(c: Cache, sig: Sig): (i: nat)
    ensures i <= |c| && (i < |c| ==> c[i].sig == sig)
  {
    if c == [] || c[0].sig == sig then 0 else 1 + Pos(c[1..], sig)
  }

  lemma {:induction false} PosAtMost(c: Cache, sig: Sig, k: nat)
    requires k < |c| && c[k].sig == sig
    ensures Pos(c, sig) <= k
  {
    if c[0].sig != sig {
      PosAtMost(c[1..], sig, k - 1);
    }
  }

  predicate Resident(c: Cache, sig: Sig) { Pos(c, sig) < |c| }

  lemma NotAt(c: Cache, sig: Sig, k: nat)
    requires !Resident(c, sig) && k < |c|
    ensures c[k].sig != sig
  {
    if c[k].sig == sig {
      PosAtMost(c, sig, k);
    }
  }

  function RouterOf(c: Cache, sig: Sig): Router
    requires Resident(c, sig)
  {
    c[Pos(c, sig)].router
  }

  function MovedToEnd(c: Cache, sig: Sig): Cache
    requires Resident(c, sig)
  {
    c[..Pos(c, sig)] + c[Pos(c, sig) + 1..] + [c[Pos(c, sig)]]
  }

  function Added(c: Cache, sig: Sig, router: Router): Cache {
    if |c| + 1 > MAX_ROUTERS then (c + [Entry(sig, router)])[|c| + 1 - MAX_ROUTERS..] else c + [Entry(sig, router)]
  }

  // ----- coroutines -----

  datatype Event = Returned(sig: Sig, router: Router) | Cleared

  // building maps a coroutine to the signature it is building; made counts the
  // routers ever built, and names the next one. log is history.
  datatype System = System(cache: Cache, building: map<nat, Sig>, made: nat, log: seq<Event>)

  datatype Action = Lookup(co: nat, sig: Sig) | Store(co: nat) | BuildFails(co: nat) | Clear

  function ApplyLookup(s: System, co: nat, sig: Sig): System {
    if co in s.building then s
    else if Resident(s.cache, sig)
        then s.(cache := MovedToEnd(s.cache, sig), log := s.log + [Returned(sig, RouterOf(s.cache, sig))])
    else s.(building := s.building[co := sig])
  }

  function ApplyStore(s: System, co: nat): System {
    if co !in s.building then s
    else
      var sig := s.building[co];
      var u := s.(building := s.building - {co}, made := s.made + 1);
      if Resident(s.cache, sig)
          then u.(cache := MovedToEnd(s.cache, sig), log := s.log + [Returned(sig, RouterOf(s.cache, sig))])
      else u.(cache := Added(s.cache, sig, s.made), log := s.log + [Returned(sig, s.made)])
  }

  function Apply(s: System, a: Action): System {
    match a
    case Lookup(co, sig) => ApplyLookup(s, co, sig)
    case Store(co) => ApplyStore(s, co)
    case BuildFails(co) => s.(building := s.building - {co})
    case Clear => s.(cache := [], log := s.log + [Cleared])
  }

  function Run(s: System, acts: seq<Action>): System {
    if acts == [] then s else Apply(Run(s, acts[..|acts| - 1]), acts[|acts| - 1])
  }

  const START := System([], map[], 0, [])

  // ----- what the cache should hold, from the history alone -----

  /** The signatures handed out since the last clear, in order. */
  function Touches(log: seq<Event>): seq<Sig> {
    if log == [] then []
    else
      match log[|log| - 1]
      case Cleared => []
      case Returned(sig, _) => Touches(log[..|log| - 1]) + [sig]
  }

  /** When a signature was last handed out; -1 if never. */
  function LastTouch(t: seq<Sig>, sig: Sig): (i: int)
    ensures -1 <= i < |t|
  {
    if t == [] then -1 else if t[|t| - 1] == sig then |t| - 1 else LastTouch(t[..|t| - 1], sig)
  }

  lemma {:induction false} LastTouchIsLast(t: seq<Sig>, sig: Sig)
    ensures LastTouch(t, sig) >= 0 ==> t[LastTouch(t, sig)] == sig
    ensures forall k :: LastTouch(t, sig) < k < |t| ==> t[k] != sig
  {
    if t != [] && t[|t| - 1] != sig {
      LastTouchIsLast(t[..|t| - 1], sig);
    }
  }

  /** The cached signatures, oldest first, strictly by their last touch. */
  predicate ByLastTouch(c: Cache, t: seq<Sig>) {
    && (forall i :: 0 <= i < |c| ==> LastTouch(t, c[i].sig) >= 0)
    && (forall i, j :: 0 <= i < j < |c| ==> LastTouch(t, c[i].sig) < LastTouch(t, c[j].sig))
  }

  /** A signature is only missing when the cache is full of later ones. */
  ghost predicate NoneMissed(c: Cache, t: seq<Sig>) {
    forall sig :: LastTouch(t, sig) >= 0 && !Resident(c, sig) ==>
        |c| == MAX_ROUTERS && LastTouch(t, sig) < LastTouch(t, c[0].sig)
  }

  /** c holds, oldest first, the signatures of t touched last, up to the limit. */
  ghost predicate MostRecent(c: Cache, t: seq<Sig>) { |c| <= MAX_ROUTERS && ByLastTouch(c, t) && NoneMissed(c, t) }

  // The i-th newest signature.
  function Back(c: Cache, i: nat): Sig
    requires 1 <= i <= |c|
  {
    c[|c| - i].sig
  }

  lemma {:induction false} NotNewer(c: Cache, d: Cache, t: seq<Sig>, n: nat)
    requires MostRecent(c, t) && MostRecent(d, t) && 1 <= n <= |c| && n <= |d|
    requires forall i :: 1 <= i < n ==> Back(c, i) == Back(d, i)
    ensures LastTouch(t, Back(d, n)) <= LastTouch(t, Back(c, n))
  {
    hide LastTouch;
    var sig := Back(d, n);
    assert LastTouch(t, c[0].sig) <= LastTouch(t, c[|c| - n].sig);
    if Resident(c, sig) {
      var p := Pos(c, sig);
      if p > |c| - n {
        SamePlace(c, d, t, |c| - p, n);
      } else {
        assert LastTouch(t, c[p].sig) <= LastTouch(t, c[|c| - n].sig);
      }
    }
  }

  // A signature of d cannot sit further up in c.
  lemma SamePlace(c: Cache, d: Cache, t: seq<Sig>, i: nat, n: nat)
    requires ByLastTouch(d, t) && 1 <= i <= |c| && i < n <= |d| && Back(c, i) == Back(d, i)
    ensures Back(c, i) != Back(d, n)
  {
    hide LastTouch;
    assert LastTouch(t, d[|d| - n].sig) < LastTouch(t, d[|d| - i].sig);
  }

  lemma {:induction false} SameTail(c: Cache, d: Cache, t: seq<Sig>, n: nat)
    requires MostRecent(c, t) && MostRecent(d, t) && n <= |c| && n <= |d|
    ensures forall i :: 1 <= i <= n ==> Back(c, i) == Back(d, i)
  {
    hide LastTouch, MostRecent;
    if n > 0 {
      SameTail(c, d, t, n - 1);
      NotNewer(c, d, t, n);
      NotNewer(d, c, t, n);
      LastTouchIsLast(t, Back(c, n));
      LastTouchIsLast(t, Back(d, n));
      assert LastTouch(t, Back(c, n)) >= 0 by {
        assert ByLastTouch(c, t) by { Unfold(c, t); }
      }
    }
  }

  lemma Unfold(c: Cache, t: seq<Sig>)
    requires MostRecent(c, t)
    ensures ByLastTouch(c, t)
  {
  }

  lemma NotLonger(c: Cache, d: Cache, t: seq<Sig>)
    requires MostRecent(c, t) && MostRecent(d, t)
    ensures |d| <= |c|
  {
    hide LastTouch;
    if |d| > |c| {
      SameTail(c, d, t, |c|);
      var sig := Back(d, |c| + 1);
      assert LastTouch(t, d[|d| - |c| - 1].sig) >= 0;
      if Resident(c, sig) {
        SamePlace(c, d, t, |c| - Pos(c, sig), |c| + 1);
      }
    }
  }

  /** The touches alone decide which signatures are cached, and in which order. */
  lemma {:induction false} MostRecentUnique(c: Cache, d: Cache, t: seq<Sig>)
    requires MostRecent(c, t) && MostRecent(d, t)
    ensures |c| == |d| && forall i :: 0 <= i < |c| ==> c[i].sig == d[i].sig
  {
    hide MostRecent;
    NotLonger(c, d, t);
    NotLonger(d, c, t);
    SameTail(c, d, t, |c|);
    forall i | 0 <= i < |c| ensures c[i].sig == d[i].sig {
      assert Back(c, |c| - i) == Back(d, |c| - i);
    }
  }

  // ----- the cache agrees with its history -----

  lemma {:induction false} TouchOne(t: seq<Sig>, sig: Sig, other: Sig)
    ensures LastTouch(t + [sig], other) == if other == sig then |t| else LastTouch(t, other)
  {
    assert (t + [sig])[..|t|] == t;
  }

  lemma {:induction false} MovedAt(c: Cache, sig: Sig, i: nat)
    requires Resident(c, sig) && i < |c|
    ensures |MovedToEnd(c, sig)| == |c|
    ensures MovedToEnd(c, sig)[i] == if i < Pos(c, sig) then c[i] else if i < |c| - 1 then c[i + 1] else c[Pos(c, sig)]
  {
  }

  lemma AddedAt(c: Cache, sig: Sig, router: Router, i: nat)
    requires |c| <= MAX_ROUTERS && i < |Added(c, sig, router)|
    ensures |Added(c, sig, router)| == Min(|c| + 1, MAX_ROUTERS)
    ensures Added(c, sig, router)[i]
         == if i == |Added(c, sig, router)| - 1 then Entry(sig, router) else c[i + |c| + 1 - |Added(c, sig, router)|]
  {
  }

  lemma {:induction false} HitRank(c: Cache, t: seq<Sig>, sig: Sig, i: nat)
    requires ByLastTouch(c, t) && Resident(c, sig) && i < |c|
    ensures |MovedToEnd(c, sig)| == |c|
    ensures LastTouch(t + [sig], MovedToEnd(c, sig)[i].sig)
         == if i < Pos(c, sig) then LastTouch(t, c[i].sig) else if i < |c| - 1 then LastTouch(t, c[i + 1].sig) else |t|
  {
    hide LastTouch;
    var d, p := MovedToEnd(c, sig), Pos(c, sig);
    MovedAt(c, sig, i);
    TouchOne(t, sig, d[i].sig);
    var k := if i < p then i else if i < |c| - 1 then i + 1 else p;
    if k < p {
      assert LastTouch(t, c[k].sig) < LastTouch(t, c[p].sig);
    } else if k > p {
      assert LastTouch(t, c[p].sig) < LastTouch(t, c[k].sig);
    }
  }

  lemma HitOrder(c: Cache, t: seq<Sig>, sig: Sig)
    requires ByLastTouch(c, t) && Resident(c, sig)
    ensures ByLastTouch(MovedToEnd(c, sig), t + [sig]) && |MovedToEnd(c, sig)| == |c|
  {
    hide LastTouch, MovedToEnd;
    var d := MovedToEnd(c, sig);
    HitRank(c, t, sig, 0);
    forall i | 0 <= i < |d| ensures LastTouch(t + [sig], d[i].sig) >= 0 {
      HitRank(c, t, sig, i);
    }
    forall i, j | 0 <= i < j < |d| ensures LastTouch(t + [sig], d[i].sig) < LastTouch(t + [sig], d[j].sig) {
      HitRank(c, t, sig, i);
      HitRank(c, t, sig, j);
    }
  }

  lemma {:induction false} HitKeeps(c: Cache, t: seq<Sig>, sig: Sig)
    requires MostRecent(c, t) && Resident(c, sig)
    ensures MostRecent(MovedToEnd(c, sig), t + [sig])
  {
    hide LastTouch;
    var d, u := MovedToEnd(c, sig), t + [sig];
    HitOrder(c, t, sig);
    forall other | LastTouch(u, other) >= 0 && !Resident(d, other)
      ensures |d| == MAX_ROUTERS && LastTouch(u, other) < LastTouch(u, d[0].sig)
    {
      TouchOne(t, sig, other);
      MovedSame(c, sig, other);
      MovedSame(c, sig, sig);
      MovedAt(c, sig, 0);
      TouchOne(t, sig, d[0].sig);
      if Pos(c, sig) == 0 {
        assert LastTouch(t, c[0].sig) < LastTouch(t, c[1].sig);
      }
    }
  }

  /** Moving an entry to the end keeps the set of signatures. */
  lemma MovedSame(c: Cache, sig: Sig, other: Sig)
    requires Resident(c, sig)
    ensures Resident(MovedToEnd(c, sig), other) <==> Resident(c, other)
  {
    var p, d := Pos(c, sig), MovedToEnd(c, sig);
    if Resident(c, other) {
      var q := Pos(c, other);
      var k := if q < p then q else if q > p then q - 1 else |d| - 1;
      MovedAt(c, sig, k);
      PosAtMost(d, other, k);
    }
    if Resident(d, other) {
      var r := Pos(d, other);
      MovedAt(c, sig, r);
      PosAtMost(c, other, if r < p then r else if r < |c| - 1 then r + 1 else p);
    }
  }

  lemma AddOrder(c: Cache, t: seq<Sig>, sig: Sig, router: Router)
    requires |c| <= MAX_ROUTERS && ByLastTouch(c, t) && !Resident(c, sig)
    ensures ByLastTouch(Added(c, sig, router), t + [sig])
  {
    hide LastTouch, Added;
    var d := Added(c, sig, router);
    var off := |c| + 1 - |d|;
    forall i | 0 <= i < |d|
      ensures 0 <= off && LastTouch(t + [sig], d[i].sig) == if i == |d| - 1 then |t| else LastTouch(t, c[i + off].sig)
    {
      AddedAt(c, sig, router, i);
      TouchOne(t, sig, d[i].sig);
      if i < |d| - 1 {
        NotAt(c, sig, i + off);
      }
    }
  }

  lemma {:induction false} AddKeeps(c: Cache, t: seq<Sig>, sig: Sig, router: Router)
    requires MostRecent(c, t) && !Resident(c, sig)
    ensures MostRecent(Added(c, sig, router), t + [sig])
  {
    hide LastTouch;
    var d, u := Added(c, sig, router), t + [sig];
    AddOrder(c, t, sig, router);
    forall other | LastTouch(u, other) >= 0 && !Resident(d, other)
      ensures |d| == MAX_ROUTERS && LastTouch(u, other) < LastTouch(u, d[0].sig)
    {
      AddMissed(c, t, sig, router, other);
    }
  }

  lemma {:induction false} AddMissed(c: Cache, t: seq<Sig>, sig: Sig, router: Router, other: Sig)
    requires MostRecent(c, t) && !Resident(c, sig)
    requires LastTouch(t + [sig], other) >= 0 && !Resident(Added(c, sig, router), other)
    ensures |Added(c, sig, router)| == MAX_ROUTERS
            && LastTouch(t + [sig], other) < LastTouch(t + [sig], Added(c, sig, router)[0].sig)
  {
    hide LastTouch;
    var d := Added(c, sig, router);
    var off := |c| + 1 - |d|;
    AddedAt(c, sig, router, |d| - 1);
    TouchOne(t, sig, other);
    if other == sig {
      PosAtMost(d, sig, |d| - 1);
    }
    AddedAt(c, sig, router, 0);
    TouchOne(t, sig, d[0].sig);
    assert c[off].sig == d[0].sig;
    NotAt(c, sig, off);
    assert LastTouch(t, c[0].sig) <= LastTouch(t, c[off].sig);
    if Resident(c, other) {
      var q := Pos(c, other);
      if q >= off {
        AddedAt(c, sig, router, q - off);
        PosAtMost(d, other, q - off);
      }
      assert LastTouch(t, c[q].sig) < LastTouch(t, c[off].sig);
    }
  }

  lemma {:induction false} StepAgrees(s: System, a: Action)
    requires MostRecent(s.cache, Touches(s.log))
    ensures MostRecent(Apply(s, a).cache, Touches(Apply(s, a).log))
  {
    hide MostRecent;
    var u := Apply(s, a);
    if a.Clear? {
      NothingCached();
      assert Touches(u.log) == [];
    } else if u.log != s.log {
      var sig := if a.Lookup? then a.sig else s.building[a.co];
      assert u.log[..|u.log| - 1] == s.log && Touches(u.log) == Touches(s.log) + [sig];
      if Resident(s.cache, sig) {
        HitKeeps(s.cache, Touches(s.log), sig);
      } else {
        AddKeeps(s.cache, Touches(s.log), sig, s.made);
      }
    }
  }

  /** After any interleaving of lookups, stores, failed builds and clears the
      cache holds, in order, exactly the 32 most recently handed out distinct
      signatures since the last clear (fewer when fewer were). */
  lemma {:induction false} CacheAgrees(acts: seq<Action>)
    ensures MostRecent(Run(START, acts).cache, Touches(Run(START, acts).log))
    ensures |Run(START, acts).cache| <= 32
    ensures var s := Run(START, acts);
            forall sig :: LastTouch(Touches(s.log), sig) >= 0 && !Resident(s.cache, sig) ==> |s.cache| == 32
  {
    FullOrAll(Run(START, acts).cache, Touches(Run(START, acts).log));
    hide Apply, MostRecent;
    if acts == [] {
      NothingCached();
    } else {
      CacheAgrees(acts[..|acts| - 1]);
      StepAgrees(Run(START, acts[..|acts| - 1]), acts[|acts| - 1]);
    }
  }

  lemma FullOrAll(c: Cache, t: seq<Sig>)
    ensures MostRecent(c, t) ==>
              |c| <= 32 && forall sig :: LastTouch(t, sig) >= 0 && !Resident(c, sig) ==> |c| == 32
  {
    hide LastTouch, Resident;
  }

  lemma {:induction false} NothingCached()
    ensures MostRecent([], Touches([]))
  {
  }

  // ----- one signature, one router -----

  predicate Distinct(c: Cache) { forall i, j :: 0 <= i < j < |c| ==> c[i].sig != c[j].sig }

  lemma {:induction false} AlwaysDistinct(acts: seq<Action>)
    ensures |Run(START, acts).cache| <= MAX_ROUTERS && Distinct(Run(START, acts).cache)
  {
    CacheAgrees(acts);
  }

  lemma {:induction false} OnlyAt(c: Cache, sig: Sig, k: nat)
    requires Distinct(c) && k < |c| && c[k].sig == sig
    ensures Resident(c, sig) && Pos(c, sig) == k
  {
    PosAtMost(c, sig, k);
  }

  lemma MovedRouter(c: Cache, sig: Sig, other: Sig)
    requires Distinct(c) && Resident(c, sig) && Resident(c, other)
    ensures Resident(MovedToEnd(c, sig), other) && RouterOf(MovedToEnd(c, sig), other) == RouterOf(c, other)
  {
    MovedSame(c, sig, other);
    var p, d := Pos(c, sig), MovedToEnd(c, sig);
    var r := Pos(d, other);
    MovedAt(c, sig, r);
    OnlyAt(c, other, if r < p then r else if r < |c| - 1 then r + 1 else p);
  }

  lemma AddedRouter(c: Cache, sig: Sig, router: Router, other: Sig)
    requires |c| <= MAX_ROUTERS && Distinct(c) && !Resident(c, sig) && Resident(Added(c, sig, router), other)
    ensures other == sig ==> RouterOf(Added(c, sig, router), other) == router
    ensures other != sig ==> Resident(c, other) && RouterOf(Added(c, sig, router), other) == RouterOf(c, other)
  {
    var d := Added(c, sig, router);
    var r := Pos(d, other);
    AddedAt(c, sig, router, r);
    if r < |d| - 1 {
      OnlyAt(c, other, r + |c| + 1 - |d|);
    }
  }

  // What a step hands out for sig is the router that is resident for it.
  predicate Agrees(s: System, u: System, sig: Sig, router: Router) {
    && (Resident(u.cache, sig) ==> RouterOf(u.cache, sig) == router)
    && |s.log| <= |u.log|
    && (forall k :: |s.log| <= k < |u.log| && u.log[k].Returned? && u.log[k].sig == sig ==> u.log[k].router == router)
  }

  lemma StepSameRouter(s: System, a: Action, sig: Sig)
    requires |s.cache| <= MAX_ROUTERS && Distinct(s.cache) && Resident(s.cache, sig)
    ensures Agrees(s, Apply(s, a), sig, RouterOf(s.cache, sig))
  {
    var u := Apply(s, a);
    if (a.Lookup? || a.Store?) && u.log != s.log {
      var touched := if a.Lookup? then a.sig else s.building[a.co];
      if Resident(s.cache, touched) {
        MovedRouter(s.cache, touched, sig);
      } else if Resident(u.cache, sig) {
        AddedRouter(s.cache, touched, s.made, sig);
      }
    }
  }

  /** As long as a signature stays cached, everyone who asks for it gets the same
      router, also those who were building it themselves at the time. */
  lemma {:induction false} OneRouter(acts: seq<Action>, more: seq<Action>, sig: Sig)
    requires forall k :: 0 <= k <= |more| ==> Resident(Run(START, acts + more[..k]).cache, sig)
    ensures Agrees(Run(START, acts), Run(START, acts + more), sig, RouterOf(Run(START, acts + more[..0]).cache, sig))
  {
    hide Apply, Resident, Distinct;
    assert acts + more[..0] == acts;
    if more == [] {
      assert acts + more == acts;
    } else {
      var n := |more| - 1;
      forall k | 0 <= k <= n ensures Resident(Run(START, acts + more[..n][..k]).cache, sig) {
        assert more[..n][..k] == more[..k];
      }
      OneRouter(acts, more[..n], sig);
      assert more[..n][..0] == more[..0];
      assert more[..n + 1] == more && (acts + more)[..|acts + more| - 1] == acts + more[..n];
      AlwaysDistinct(acts + more[..n]);
      StepSameRouter(Run(START, acts + more[..n]), more[n], sig);
      StepLog(Run(START, acts + more[..n]), more[n]);
    }
  }

  lemma StepLog(s: System, a: Action)
    ensures |s.log| <= |Apply(s, a).log| && forall k :: 0 <= k < |s.log| ==> Apply(s, a).log[k] == s.log[k]
  {
  }

  /** A lookup of a signature that is not cached starts a build, and the store
      behind it caches the router just built as the newest, unless another got
      there first; a hit is handed out as it is. */
  lemma StepsExactly(s: System, co: nat, sig: Sig)
    requires |s.cache| <= MAX_ROUTERS && Distinct(s.cache)
    ensures co !in s.building && !Resident(s.cache, sig) ==>
              Apply(s, Lookup(co, sig)) == s.(building := s.building[co := sig])
    ensures co !in s.building && Resident(s.cache, sig) ==>
              Apply(s, Lookup(co, sig)).log == s.log + [Returned(sig, RouterOf(s.cache, sig))]
    ensures co in s.building && s.building[co] == sig ==>
              var u := Apply(s, Store(co));
              && u.building == s.building - {co} && u.cache != [] && u.cache[|u.cache| - 1].sig == sig
              && u.log == s.log + [Returned(sig, u.cache[|u.cache| - 1].router)]
              && (!Resident(s.cache, sig) ==> u.cache[|u.cache| - 1].router == s.made)
              && (Resident(s.cache, sig) ==> u.cache[|u.cache| - 1].router == RouterOf(s.cache, sig))
  {
  }

  // ----- a router is only handed out for its own signature -----

  /** Every cached router was handed out for its signature, every one handed out
      was built before, and no two signatures ever got the same one. */
  ghost predicate Owned(s: System) {
    && (forall i :: 0 <= i < |s.cache| ==>
          s.cache[i].router < s.made && HandedOut(s.log, s.cache[i].sig, s.cache[i].router))
    && (forall k :: 0 <= k < |s.log| && s.log[k].Returned? ==> s.log[k].router < s.made)
    && (forall j, k :: 0 <= j < k < |s.log| && SameRouter(s.log[j], s.log[k]) ==> s.log[j].sig == s.log[k].sig)
  }

  predicate SameRouter(a: Event, b: Event) { a.Returned? && b.Returned? && a.router == b.router }

  predicate HandedOut(log: seq<Event>, sig: Sig, router: Router) {
    exists k :: 0 <= k < |log| && log[k] == Returned(sig, router)
  }

  lemma HandedOutLater(log: seq<Event>, e: Event, sig: Sig, router: Router)
    ensures HandedOut(log, sig, router) ==> HandedOut(log + [e], sig, router)
    ensures e == Returned(sig, router) ==> HandedOut(log + [e], sig, router)
  {
    if k :| 0 <= k < |log| && log[k] == Returned(sig, router) {
      assert (log + [e])[k] == log[k];
    }
    assert (log + [e])[|log|] == e;
  }

  lemma OwnedHit(s: System, u: System, sig: Sig)
    requires Owned(s) && Resident(s.cache, sig) && u.made >= s.made
    requires u.cache == MovedToEnd(s.cache, sig) && u.log == s.log + [Returned(sig, RouterOf(s.cache, sig))]
    ensures Owned(u)
  {
    var e := Returned(sig, RouterOf(s.cache, sig));
    var p := Pos(s.cache, sig);
    forall i | 0 <= i < |u.cache|
      ensures u.cache[i].router < u.made && HandedOut(u.log, u.cache[i].sig, u.cache[i].router)
    {
      var j := if i < p then i else if i < |s.cache| - 1 then i + 1 else p;
      assert u.cache[i] == s.cache[j];
      HandedOutLater(s.log, e, s.cache[j].sig, s.cache[j].router);
    }
    var k :| 0 <= k < |s.log| && s.log[k] == e;
  }

  lemma OwnedStore(s: System, u: System, sig: Sig)
    requires Owned(s) && u.made == s.made + 1
    requires u.cache == Added(s.cache, sig, s.made) && u.log == s.log + [Returned(sig, s.made)]
    ensures Owned(u)
  {
    forall i | 0 <= i < |u.cache|
      ensures u.cache[i].router < u.made && HandedOut(u.log, u.cache[i].sig, u.cache[i].router)
    {
      var j := i + |s.cache| + 1 - |u.cache|;
      assert u.cache[i] == (s.cache + [Entry(sig, s.made)])[j];
      HandedOutLater(s.log, Returned(sig, s.made), u.cache[i].sig, u.cache[i].router);
    }
  }

  lemma OwnedStep(s: System, a: Action)
    requires Owned(s)
    ensures Owned(Apply(s, a))
  {
    var u := Apply(s, a);
    if (a.Lookup? || a.Store?) && u.log != s.log {
      var sig := if a.Lookup? then a.sig else s.building[a.co];
      if Resident(s.cache, sig) {
        OwnedHit(s, u, sig);
      } else {
        OwnedStore(s, u, sig);
      }
    }
  }

  /** In every run a router is only ever handed out for the one signature it was
      built for. */
  lemma {:induction false} OneSignature(acts: seq<Action>)
    ensures Owned(Run(START, acts))
  {
    hide Apply;
    if acts != [] {
      OneSignature(acts[..|acts| - 1]);
      hide Owned;
      OwnedStep(Run(START, acts[..|acts| - 1]), acts[|acts| - 1]);
    }
  }

  // ----- the cache as the code writes it -----

  class OrderedCache {
    var entries: Cache

    constructor ()
      ensures entries == []
    {
      entries := [];
    }

    /** The first locked section: a hit becomes the newest entry. */
    method Get(sig: Sig) returns (found: Option<Router>)
      modifies this
      ensures found.Some? <==> Resident(old(entries), sig)
      ensures found.Some? ==> found.value == RouterOf(old(entries), sig) && entries == MovedToEnd(old(entries), sig)
      ensures found.None? ==> entries == old(entries)
    {
      var i := Pos(entries, sig);
      if i == |entries| {
        return None;
      }
      found := Some(entries[i].router);
      entries := entries[..i] + entries[i + 1..] + [entries[i]];
    }

    /** The second one: somebody else's router wins over the one just built. */
    method Put(sig: Sig, built: Router) returns (router: Router)
      requires |entries| <= MAX_ROUTERS
      modifies this
      ensures Resident(old(entries), sig) ==>
              router == RouterOf(old(entries), sig) && entries == MovedToEnd(old(entries), sig)
      ensures !Resident(old(entries), sig) ==> router == built && entries == Added(old(entries), sig, built)
      ensures |entries| <= MAX_ROUTERS
    {
      var existing := Get(sig);
      if existing.Some? {
        return existing.value;
      }
      entries := entries + [Entry(sig, built)];
      ghost var all := entries;
      while |entries| > MAX_ROUTERS
        invariant |entries| <= |all| && entries == all[|all| - |entries|..]
        invariant |entries| >= MAX_ROUTERS || entries == all
        decreases |entries|
      {
        entries := entries[1..];
      }
      router := built;
    }
  }
}
