/** Refresh-token rotation with reuse detection and an absolute session
    ceiling: logins, refreshes and logouts of any number of clients, each a few
    transactions, interleaved in every order. */
module TokenRotation {
  import opened Prelude

  type Id = nat
  type User = nat

  datatype Config = Config(refreshTtl: int, maxSessionTtl: int)

  // sessionStart is None on rows older than the column.
  datatype Token = Token(user: User, expiresAt: int, createdAt: int, sessionStart: Option<int>,
                         revokedAt: Option<int>, replacedBy: Option<Id>)

  type Tokens = map<Id, Token>

  function SessionStart(t: Token): int {
    if t.sessionStart.Some? then t.sessionStart.value else t.createdAt
  }

  predicate Live(t: Token) { t.revokedAt.None? }

  function CappedExpiry(c: Config, now: int, start: int): int {
    Min(now + c.refreshTtl, start + c.maxSessionTtl)
  }

  // What a refresh decides from the row it read.
  datatype Verdict = Rejected | Reuse | MayRotate(start: int, expiry: int)

  function Judge(c: Config, t: Token, active: bool, now: int): Verdict {
    if t.replacedBy.Some? then Reuse
    else if t.revokedAt.Some? then Rejected
    else if t.expiresAt < now then Rejected
    else if !active then Rejected
    else
      var expiry := CappedExpiry(c, now, SessionStart(t));
      if expiry <= now then Rejected else MayRotate(SessionStart(t), expiry)
  }

  function RevokeFamily(tokens: Tokens, user: User, now: int): Tokens {
    map id | id in tokens ::
      if tokens[id].user == user && Live(tokens[id]) then tokens[id].(revokedAt := Some(now)) else tokens[id]
  }

  predicate Claimable(tokens: Tokens, id: Id) {
    id in tokens && tokens[id].revokedAt.None? && tokens[id].replacedBy.None?
  }

  // A request between its transactions.
  datatype Request =
    | Sweeping(user: User)
    | Rotating(token: Id, now: int, start: int, expiry: int)
    | LoggingOut(token: Id)

  datatype Event = Refreshed(from: Id, to: Id, now: int) | Swept(user: User)

  datatype System = System(clock: int, tokens: Tokens, next: Id, active: set<User>, requests: map<nat, Request>,
                           log: seq<Event>)

  datatype Action =
    | Tick(to: int)
    | Login(user: User)
    | SetActive(user: User, on: bool)
    | Read(req: nat, token: Id, now: int)
    | Rotate(req: nat, reload: bool)
    | Sweep(req: nat, now: int)
    | RevokeAll(user: User, now: int)
    | LogoutRead(req: nat, token: Id)
    | LogoutWrite(req: nat, now: int)
    | Dies(req: nat)

  function Done(s: System, req: nat): map<nat, Request> { s.requests - {req} }

  function ApplyRead(c: Config, s: System, a: Action): System
    requires a.Read?
  {
    if a.req in s.requests || a.token !in s.tokens || a.now > s.clock then s
    else
      var t := s.tokens[a.token];
      match Judge(c, t, t.user in s.active, a.now)
      case Rejected => s
      case Reuse => s.(requests := s.requests[a.req := Sweeping(t.user)])
      case MayRotate(start, expiry) => s.(requests := s.requests[a.req := Rotating(a.token, a.now, start, expiry)])
  }

  /** The successor is committed only if the presented token is still unrevoked
      and unrotated. The loser rolls back, which expires the row it holds: it
      goes on to its sweep only if the row can be read once more (reload), and
      otherwise ends in an error. */
  function ApplyRotate(s: System, a: Action): System
    requires a.Rotate?
  {
    if a.req !in s.requests || !s.requests[a.req].Rotating? then s
    else
      var r := s.requests[a.req];
      if Claimable(s.tokens, r.token) then
        var t := s.tokens[r.token];
        var successor := Token(t.user, r.expiry, s.clock, Some(r.start), None, None);
        s.(tokens := s.tokens[s.next := successor][r.token := t.(revokedAt := Some(r.now), replacedBy := Some(s.next))],
           next := s.next + 1, requests := Done(s, a.req), log := s.log + [Refreshed(r.token, s.next, r.now)])
      else if r.token in s.tokens then
        s.(next := s.next + 1,
           requests := if a.reload then s.requests[a.req := Sweeping(s.tokens[r.token].user)] else Done(s, a.req))
      else s
  }

  function Apply(c: Config, s: System, a: Action): System {
    match a
    case Tick(to) => if to >= s.clock then s.(clock := to) else s
    case Login(user) =>
      s.(tokens := s.tokens[s.next := Token(user, CappedExpiry(c, s.clock, s.clock), s.clock, Some(s.clock), None,
                                            None)],
         next := s.next + 1)
    case SetActive(user, on) => s.(active := if on then s.active + {user} else s.active - {user})
    case Read(_, _, _) => ApplyRead(c, s, a)
    case Rotate(_, _) => ApplyRotate(s, a)
    case Sweep(req, now) =>
      if req in s.requests && s.requests[req].Sweeping? then
        s.(tokens := RevokeFamily(s.tokens, s.requests[req].user, now), requests := Done(s, req),
           log := s.log + [Swept(s.requests[req].user)])
      else s
    case RevokeAll(user, now) => s.(tokens := RevokeFamily(s.tokens, user, now))
    case LogoutRead(req, token) =>
      if req !in s.requests && token in s.tokens && Live(s.tokens[token])
      then s.(requests := s.requests[req := LoggingOut(token)]) else s
    case LogoutWrite(req, now) =>
      if req in s.requests && s.requests[req].LoggingOut? && s.requests[req].token in s.tokens then
        var id := s.requests[req].token;
        s.(tokens := s.tokens[id := s.tokens[id].(revokedAt := Some(now))], requests := Done(s, req))
      else s
    case Dies(req) => s.(requests := Done(s, req))
  }

  function Run(c: Config, s: System, acts: seq<Action>): System {
    if acts == [] then s else Apply(c, Run(c, s, acts[..|acts| - 1]), acts[|acts| - 1])
  }

  // ----- what every interleaving keeps -----

  /** The link from a rotated token to its successor. */
  predicate GoodLink(tokens: Tokens, id: Id, n: Id)
    requires id in tokens
  {
    && n in tokens && id < n
    && tokens[n].user == tokens[id].user
    && tokens[n].sessionStart == Some(SessionStart(tokens[id]))
    && tokens[id].revokedAt.Some?
  }

  predicate SameSuccessor(t: Token, u: Token) { t.replacedBy.Some? && t.replacedBy == u.replacedBy }

  predicate ChainInv(tokens: Tokens, next: Id) {
    && (forall id :: id in tokens ==> id < next)
    && (forall id :: id in tokens && tokens[id].replacedBy.Some? ==> GoodLink(tokens, id, tokens[id].replacedBy.value))
    && (forall i, j :: i in tokens && j in tokens && SameSuccessor(tokens[i], tokens[j]) ==> i == j)
  }

  /** A database before the first step: rows of any age, rotated or not. */
  predicate Initial(s: System) {
    ChainInv(s.tokens, s.next) && s.requests == map[] && s.log == []
  }

  predicate NoneRotated(s: System) { forall id :: id in s.tokens ==> s.tokens[id].replacedBy.None? }

  /** Tokens from base on were issued by the code. */
  predicate CeilingInv(c: Config, s: System, base: Id) {
    && (forall id :: id in s.tokens && id >= base ==>
          s.tokens[id].sessionStart.Some? && s.tokens[id].expiresAt <= SessionStart(s.tokens[id]) + c.maxSessionTtl)
    && (forall r :: r in s.requests && s.requests[r].Rotating? ==> GoodRequest(c, s.tokens, s.requests[r]))
    && (forall k :: 0 <= k < |s.log| && s.log[k].Refreshed? ==>
          s.log[k].from in s.tokens && s.log[k].now < SessionStart(s.tokens[s.log[k].from]) + c.maxSessionTtl)
  }

  predicate GoodRequest(c: Config, tokens: Tokens, r: Request)
    requires r.Rotating?
  {
    && r.token in tokens && r.start == SessionStart(tokens[r.token])
    && r.now < r.expiry <= r.start + c.maxSessionTtl
  }

  predicate Inv(c: Config, s: System, base: Id) {
    base <= s.next && ChainInv(s.tokens, s.next) && CeilingInv(c, s, base)
  }

  /** Signing a user out touches that user's live tokens and no other. */
  lemma RevokedExactly(tokens: Tokens, user: User, now: int)
    ensures var after := RevokeFamily(tokens, user, now);
            && after.Keys == tokens.Keys
            && (forall id :: id in tokens ==>
                  && (tokens[id].user != user || tokens[id].revokedAt.Some? ==> after[id] == tokens[id])
                  && (tokens[id].user == user && tokens[id].revokedAt.None? ==>
                        after[id] == tokens[id].(revokedAt := Some(now))))
  {
  }

  /** An expiry is the earlier of two: one refresh period from now, and the end of
      the session. A session without a recorded start began with its row. */
  lemma ExpiryExactly(c: Config, now: int, t: Token)
    ensures var e := CappedExpiry(c, now, SessionStart(t));
            var start := match t.sessionStart case Some(at) => at case None => t.createdAt;
            && e <= now + c.refreshTtl && e <= start + c.maxSessionTtl
            && (e == now + c.refreshTtl || e == start + c.maxSessionTtl)
  {
  }

  lemma RevokeKeeps(c: Config, s: System, base: Id, user: User, now: int)
    requires Inv(c, s, base)
    ensures Inv(c, s.(tokens := RevokeFamily(s.tokens, user, now)), base)
  {
    var tokens := RevokeFamily(s.tokens, user, now);
    forall id | id in tokens && tokens[id].replacedBy.Some? ensures GoodLink(tokens, id, tokens[id].replacedBy.value) {
      assert GoodLink(s.tokens, id, s.tokens[id].replacedBy.value);
    }
    forall r | r in s.requests && s.requests[r].Rotating? ensures GoodRequest(c, tokens, s.requests[r]) {
      assert GoodRequest(c, s.tokens, s.requests[r]);
    }
  }

  /** One rotation: the presented token is revoked and linked to a new successor. */
  lemma LinkKeeps(tokens: Tokens, next: Id, id: Id, at: int, successor: Token)
    requires ChainInv(tokens, next) && Claimable(tokens, id)
    requires successor.user == tokens[id].user && successor.sessionStart == Some(SessionStart(tokens[id]))
    requires successor.replacedBy.None?
    ensures ChainInv(tokens[next := successor][id := tokens[id].(revokedAt := Some(at), replacedBy := Some(next))],
                     next + 1)
  {
    var t := tokens[next := successor][id := tokens[id].(revokedAt := Some(at), replacedBy := Some(next))];
    forall k | k in tokens && tokens[k].replacedBy.Some? ensures tokens[k].replacedBy.value < next {
      assert GoodLink(tokens, k, tokens[k].replacedBy.value);
    }
    forall k | k in t && t[k].replacedBy.Some? ensures GoodLink(t, k, t[k].replacedBy.value) {
      if k != id {
        assert GoodLink(tokens, k, tokens[k].replacedBy.value);
      }
    }
    forall i, j | i in t && j in t && SameSuccessor(t[i], t[j]) ensures i == j {
      if i != id && j != id {
        assert SameSuccessor(tokens[i], tokens[j]);
      }
    }
  }

  lemma RotateKeeps(c: Config, s: System, base: Id, a: Action)
    requires Inv(c, s, base) && a.Rotate?
    ensures Inv(c, ApplyRotate(s, a), base)
  {
    if a.req in s.requests && s.requests[a.req].Rotating? {
      var r := s.requests[a.req];
      assert GoodRequest(c, s.tokens, r);
      var t := ApplyRotate(s, a);
      if Claimable(s.tokens, r.token) {
        LinkKeeps(s.tokens, s.next, r.token, r.now, t.tokens[s.next]);
      }
      hide ChainInv;
      forall q | q in t.requests && t.requests[q].Rotating? ensures GoodRequest(c, t.tokens, t.requests[q]) {
        assert GoodRequest(c, s.tokens, s.requests[q]);
      }
    }
  }

  lemma ReadKeeps(c: Config, s: System, base: Id, a: Action)
    requires Inv(c, s, base) && a.Read?
    ensures Inv(c, ApplyRead(c, s, a), base)
  {
    hide ChainInv;
    var t := ApplyRead(c, s, a);
    forall q | q in t.requests && t.requests[q].Rotating? ensures GoodRequest(c, t.tokens, t.requests[q]) {
      if q in s.requests && s.requests[q] == t.requests[q] {
        assert GoodRequest(c, s.tokens, s.requests[q]);
      }
    }
  }

  lemma LoginKeeps(c: Config, s: System, base: Id, user: User)
    requires Inv(c, s, base)
    ensures Inv(c, Apply(c, s, Login(user)), base)
  {
    var t := Apply(c, s, Login(user));
    forall id | id in t.tokens && t.tokens[id].replacedBy.Some?
      ensures GoodLink(t.tokens, id, t.tokens[id].replacedBy.value)
    {
      assert GoodLink(s.tokens, id, s.tokens[id].replacedBy.value);
    }
    forall q | q in t.requests && t.requests[q].Rotating? ensures GoodRequest(c, t.tokens, t.requests[q]) {
      assert GoodRequest(c, s.tokens, s.requests[q]);
    }
  }

  lemma RevokedOneKeeps(tokens: Tokens, next: Id, id: Id, now: int)
    requires ChainInv(tokens, next) && id in tokens
    ensures ChainInv(tokens[id := tokens[id].(revokedAt := Some(now))], next)
  {
    var t := tokens[id := tokens[id].(revokedAt := Some(now))];
    forall i | i in t && t[i].replacedBy.Some? ensures GoodLink(t, i, t[i].replacedBy.value) {
      assert GoodLink(tokens, i, tokens[i].replacedBy.value);
    }
  }

  lemma LogoutKeeps(c: Config, s: System, base: Id, a: Action)
    requires Inv(c, s, base) && (a.LogoutRead? || a.LogoutWrite?)
    ensures Inv(c, Apply(c, s, a), base)
  {
    hide ApplyRead, ApplyRotate, RevokeFamily, ChainInv;
    var t := Apply(c, s, a);
    if t.tokens != s.tokens {
      RevokedOneKeeps(s.tokens, s.next, s.requests[a.req].token, a.now);
    }
    forall q | q in t.requests && t.requests[q].Rotating? ensures GoodRequest(c, t.tokens, t.requests[q]) {
      assert GoodRequest(c, s.tokens, s.requests[q]);
    }
  }

  lemma OthersKeep(c: Config, s: System, base: Id, a: Action)
    requires Inv(c, s, base) && (a.Tick? || a.SetActive? || a.Dies?)
    ensures Inv(c, Apply(c, s, a), base)
  {
    hide ChainInv, GoodRequest;
  }

  lemma Step(c: Config, s: System, base: Id, a: Action)
    requires Inv(c, s, base)
    ensures Inv(c, Apply(c, s, a), base)
  {
    if a.Rotate? {
      RotateKeeps(c, s, base, a);
    } else if a.RevokeAll? {
      RevokeKeeps(c, s, base, a.user, a.now);
    } else if a.Sweep? {
      if a.req in s.requests && s.requests[a.req].Sweeping? {
        RevokeKeeps(c, s, base, s.requests[a.req].user, a.now);
      }
    } else if a.Read? {
      ReadKeeps(c, s, base, a);
    } else if a.Login? {
      LoginKeeps(c, s, base, a.user);
    } else if a.LogoutRead? || a.LogoutWrite? {
      LogoutKeeps(c, s, base, a);
    } else {
      OthersKeep(c, s, base, a);
    }
  }

  lemma {:induction false} Always(c: Config, s: System, acts: seq<Action>)
    requires Initial(s)
    ensures Inv(c, Run(c, s, acts), s.next)
  {
    hide Apply;
    if acts != [] {
      Always(c, s, acts[..|acts| - 1]);
      Step(c, Run(c, s, acts[..|acts| - 1]), s.next, acts[|acts| - 1]);
    }
  }

  // ----- chains -----

  /** b is k rotations after a. */
  predicate Follows(tokens: Tokens, a: Id, b: Id, k: nat)
    decreases k
  {
    a in tokens &&
    if k == 0 then a == b else tokens[a].replacedBy.Some? && Follows(tokens, tokens[a].replacedBy.value, b, k - 1)
  }

  lemma {:induction false} ChainLaws(tokens: Tokens, next: Id, a: Id, b: Id, k: nat)
    requires ChainInv(tokens, next) && Follows(tokens, a, b, k)
    ensures b in tokens && tokens[b].user == tokens[a].user && SessionStart(tokens[b]) == SessionStart(tokens[a])
    ensures k > 0 ==> a < b && !Live(tokens[a])
    decreases k
  {
    if k > 0 {
      assert GoodLink(tokens, a, tokens[a].replacedBy.value);
      ChainLaws(tokens, next, tokens[a].replacedBy.value, b, k - 1);
    }
  }

  lemma {:induction false} OneLive(tokens: Tokens, next: Id, root: Id, a: Id, b: Id, j: nat, k: nat)
    requires ChainInv(tokens, next) && Follows(tokens, root, a, j) && Follows(tokens, root, b, k)
    requires a in tokens && b in tokens && Live(tokens[a]) && Live(tokens[b])
    ensures a == b
    decreases j
  {
    if j > 0 && k > 0 {
      OneLive(tokens, next, tokens[root].replacedBy.value, a, b, j - 1, k - 1);
    }
  }

  /** In every interleaving: links are injective, point forward to a committed
      row of the same user and session start, a rotated token is revoked, no
      chain returns to itself, and a session has at most one live token. */
  lemma {:induction false} RotationChains(c: Config, s: System, acts: seq<Action>, root: Id, a: Id, b: Id, j: nat,
                                          k: nat)
    requires Initial(s)
    ensures var t := Run(c, s, acts).tokens;
            && ChainInv(t, Run(c, s, acts).next)
            && (Follows(t, root, root, k) ==> k == 0)
            && (Follows(t, root, a, j) && Follows(t, root, b, k) && a in t && b in t && Live(t[a]) && Live(t[b]) ==>
                  a == b)
            && (Follows(t, root, a, j) ==>
                  a in t && t[a].user == t[root].user && SessionStart(t[a]) == SessionStart(t[root]))
  {
    Always(c, s, acts);
    var t, next := Run(c, s, acts).tokens, Run(c, s, acts).next;
    if Follows(t, root, root, k) {
      ChainLaws(t, next, root, root, k);
    }
    if Follows(t, root, a, j) {
      ChainLaws(t, next, root, a, j);
      if Follows(t, root, b, k) && a in t && b in t && Live(t[a]) && Live(t[b]) {
        OneLive(t, next, root, a, b, j, k);
      }
    }
  }

  /** Every token the code issues, however far down its chain, expires by its
      chain's start plus the ceiling, and no refresh decided at or after that
      instant ever succeeds. */
  lemma {:induction false} SessionCeiling(c: Config, s: System, acts: seq<Action>, root: Id, id: Id, k: nat)
    requires Initial(s) && Follows(Run(c, s, acts).tokens, root, id, k)
    ensures var t := Run(c, s, acts);
            var limit := SessionStart(t.tokens[root]) + c.maxSessionTtl;
            && id in t.tokens
            && (id >= s.next || (k > 0 && NoneRotated(s)) ==> t.tokens[id].expiresAt <= limit)
            && (forall e :: 0 <= e < |t.log| && t.log[e].Refreshed? && t.log[e].from == id ==> t.log[e].now < limit)
  {
    Always(c, s, acts);
    var t := Run(c, s, acts);
    ChainLaws(t.tokens, t.next, root, id, k);
    if k > 0 && NoneRotated(s) {
      SuccessorIssued(c, s, acts, root, id, k);
    }
  }

  lemma {:induction false} LinksIssued(c: Config, s: System, acts: seq<Action>)
    requires Initial(s) && NoneRotated(s)
    ensures forall id :: id in Run(c, s, acts).tokens && Run(c, s, acts).tokens[id].replacedBy.Some? ==>
              Run(c, s, acts).tokens[id].replacedBy.value >= s.next
  {
    if acts != [] {
      LinksIssued(c, s, acts[..|acts| - 1]);
      Always(c, s, acts[..|acts| - 1]);
    }
  }

  lemma {:induction false} LastLink(tokens: Tokens, a: Id, b: Id, k: nat) returns (p: Id)
    requires Follows(tokens, a, b, k) && k > 0
    ensures p in tokens && tokens[p].replacedBy == Some(b)
    decreases k
  {
    if k == 1 {
      p := a;
    } else {
      p := LastLink(tokens, tokens[a].replacedBy.value, b, k - 1);
    }
  }

  lemma {:induction false} SuccessorIssued(c: Config, s: System, acts: seq<Action>, root: Id, id: Id, k: nat)
    requires Initial(s) && NoneRotated(s) && Follows(Run(c, s, acts).tokens, root, id, k) && k > 0
    ensures id >= s.next
  {
    LinksIssued(c, s, acts);
    var p := LastLink(Run(c, s, acts).tokens, root, id, k);
  }

  // ----- reuse -----

  predicate NoneLive(s: System, user: User) {
    forall id :: id in s.tokens && s.tokens[id].user == user ==> !Live(s.tokens[id])
  }

  /** Without a login, a signed-out user stays signed out. */
  lemma {:induction false} SignedOutStays(c: Config, s: System, user: User, acts: seq<Action>)
    requires NoneLive(s, user) && forall k :: 0 <= k < |acts| ==> acts[k] != Login(user)
    ensures NoneLive(Run(c, s, acts), user)
  {
    if acts != [] {
      SignedOutStays(c, s, user, acts[..|acts| - 1]);
    }
  }

  /** The step notices a token used twice: it reads one that was already rotated,
      or it loses the race for one and can still read its row. */
  predicate Detects(s: System, a: Action) {
    if a.Read? then
      && a.req !in s.requests && a.token in s.tokens && a.now <= s.clock
      && s.tokens[a.token].replacedBy.Some?
    else
      && a.Rotate? && a.reload && a.req in s.requests && s.requests[a.req].Rotating?
      && s.requests[a.req].token in s.tokens && !Claimable(s.tokens, s.requests[a.req].token)
  }

  /** The user the token was issued to. */
  function Presenter(s: System, a: Action): User
    requires Detects(s, a)
  {
    s.tokens[if a.Read? then a.token else s.requests[a.req].token].user
  }

  lemma DetectionSweeps(c: Config, s: System, a: Action)
    requires Detects(s, a)
    ensures a.req in Apply(c, s, a).requests && Apply(c, s, a).requests[a.req] == Sweeping(Presenter(s, a))
  {
  }

  /** A lost race leaves no successor, and starts the sweep exactly if the row
      could be read again after the rollback. */
  lemma LostRaceStartsSweep(c: Config, s: System, a: Action)
    requires a.Rotate? && a.req in s.requests && s.requests[a.req].Rotating? && s.requests[a.req].token in s.tokens
    ensures var t := Apply(c, s, a);
            && (Claimable(s.tokens, s.requests[a.req].token) ==> a.req !in t.requests)
            && (!Claimable(s.tokens, s.requests[a.req].token) ==>
                  && t.tokens == s.tokens
                  && (a.req in t.requests && t.requests[a.req] == Sweeping(s.tokens[s.requests[a.req].token].user) <==>
                        a.reload)
                  && (a.req !in t.requests <==> !a.reload))
  {
  }

  lemma {:induction false} Snoc(c: Config, s: System, acts: seq<Action>, a: Action, u: System)
    requires Run(c, s, acts) == u
    ensures Run(c, s, acts + [a]) == Apply(c, u, a)
  {
    assert (acts + [a])[..|acts|] == acts;
  }

  const HOUR := Config(3600, 36000)
  const NOBODY := System(0, map[], 0, {0}, map[], [])
  const SESSION := Token(0, 3600, 0, Some(0), None, None)

  /** Otherwise the winner keeps its session: two refreshes of one cookie, the
      loser ends in an error, and nobody is left to revoke the successor. */
  lemma {:induction false} LostRaceLeavesWinner() returns (acts: seq<Action>)
    ensures Initial(NOBODY) && acts == [Login(0), Read(0, 0, 0), Read(1, 0, 0), Rotate(0, true), Rotate(1, false)]
    ensures Run(HOUR, NOBODY, acts).tokens
            == map[0 := SESSION.(revokedAt := Some(0), replacedBy := Some(1)), 1 := SESSION]
    ensures Run(HOUR, NOBODY, acts).requests == map[]
  {
    assert Run(HOUR, NOBODY, []) == NOBODY;
    hide Run;
    var waiting := Rotating(0, 0, 0, 3600);
    acts := [] + [Login(0)];
    Snoc(HOUR, NOBODY, [], Login(0), NOBODY);
    var s := System(0, map[0 := SESSION], 1, {0}, map[], []);
    Snoc(HOUR, NOBODY, acts, Read(0, 0, 0), s);
    acts := acts + [Read(0, 0, 0)];
    Snoc(HOUR, NOBODY, acts, Read(1, 0, 0), s.(requests := map[0 := waiting]));
    acts := acts + [Read(1, 0, 0)];
    Snoc(HOUR, NOBODY, acts, Rotate(0, true), s.(requests := map[0 := waiting, 1 := waiting]));
    acts := acts + [Rotate(0, true)];
    var rotated := map[0 := SESSION.(revokedAt := Some(0), replacedBy := Some(1)), 1 := SESSION];
    Snoc(HOUR, NOBODY, acts, Rotate(1, false), System(0, rotated, 2, {0}, map[1 := waiting], [Refreshed(0, 1, 0)]));
    acts := acts + [Rotate(1, false)];
  }

  lemma {:induction false} SweepWaits(c: Config, s: System, req: nat, acts: seq<Action>)
    requires req in s.requests && s.requests[req].Sweeping?
    requires forall k :: 0 <= k < |acts| ==> !(acts[k].Sweep? && acts[k].req == req) && acts[k] != Dies(req)
    ensures req in Run(c, s, acts).requests && Run(c, s, acts).requests[req] == s.requests[req]
  {
    if acts != [] {
      SweepWaits(c, s, req, acts[..|acts| - 1]);
    }
  }

  lemma SweptNone(c: Config, s: System, req: nat, user: User, now: int)
    requires req in s.requests && s.requests[req] == Sweeping(user)
    ensures NoneLive(Apply(c, s, Sweep(req, now)), user)
  {
  }

  lemma {:induction false} RunConcat(c: Config, s: System, acts: seq<Action>, more: seq<Action>)
    ensures Run(c, s, acts + more) == Run(c, Run(c, s, acts), more)
  {
    hide Apply;
    if more == [] {
      assert acts + more == acts;
    } else {
      RunConcat(c, s, acts, more[..|more| - 1]);
      assert (acts + more)[..|acts + more| - 1] == acts + more[..|more| - 1];
    }
  }

  /** From the presented token to the signed-out user: once its second use is
      noticed, whatever happens before and after the sweep that this starts, the
      user has no live token until the next login. */
  lemma {:induction false} ReuseSignsOut(c: Config, s: System, a: Action, before: seq<Action>, now: int,
                                         after: seq<Action>)
    requires Detects(s, a)
    requires forall k :: 0 <= k < |before| ==> !(before[k].Sweep? && before[k].req == a.req) && before[k] != Dies(a.req)
    requires forall k :: 0 <= k < |after| ==> after[k] != Login(Presenter(s, a))
    ensures NoneLive(Run(c, s, [a] + before + [Sweep(a.req, now)] + after), Presenter(s, a))
  {
    var user := Presenter(s, a);
    DetectionSweeps(c, s, a);
    hide Apply, Detects, Presenter, NoneLive;
    assert Run(c, s, [] + [a]) == Apply(c, s, a) by { Snoc(c, s, [], a, s); }
    var noticed := Run(c, s, [a]);
    SweepWaits(c, noticed, a.req, before);
    RunConcat(c, s, [a], before);
    var waiting := Run(c, s, [a] + before);
    SweptNone(c, waiting, a.req, user, now);
    Snoc(c, s, [a] + before, Sweep(a.req, now), waiting);
    SignedOutStays(c, Apply(c, waiting, Sweep(a.req, now)), user, after);
    RunConcat(c, s, [a] + before + [Sweep(a.req, now)], after);
  }

  // ----- the endpoints -----

  datatype RefreshError = NoCookie | Invalid | Detected | Expired

  class TokenStore {
    const config: Config
    var tokens: Tokens
    var next: Id

    ghost predicate Valid()
      reads this
    {
      ChainInv(tokens, next)
    }

    constructor (config: Config)
      ensures Valid() && this.config == config && tokens == map[]
    {
      this.config := config;
      tokens, next := map[], 0;
    }

    /** A login opens a session: its start is now, its expiry capped. */
    method Issue(user: User, now: int) returns (id: Id)
      requires Valid()
      modifies this
      ensures Valid() && id !in old(tokens)
      ensures tokens == old(tokens)[id := Token(user, CappedExpiry(config, now, now), now, Some(now), None, None)]
    {
      id := next;
      tokens := tokens[id := Token(user, CappedExpiry(config, now, now), now, Some(now), None, None)];
      next := next + 1;
    }

    /** Signs the user out everywhere, one unrevoked token after the other. */
    method Revoke(user: User, now: int)
      requires Valid()
      modifies this`tokens
      ensures Valid() && tokens == RevokeFamily(old(tokens), user, now)
    {
      var left := set id | id in tokens && tokens[id].user == user && tokens[id].revokedAt.None?;
      ghost var family := left;
      while left != {}
        invariant left <= family <= tokens.Keys == old(tokens).Keys
        invariant forall id :: id in tokens && id in family - left ==>
                  tokens[id] == old(tokens)[id].(revokedAt := Some(now))
        invariant forall id :: id in tokens && id !in family - left ==> tokens[id] == old(tokens)[id]
        decreases left
      {
        var id :| id in left;
        tokens := tokens[id := tokens[id].(revokedAt := Some(now))];
        left := left - {id};
      }
      assert tokens == RevokeFamily(old(tokens), user, now);
      RevokeKeeps(config, System(0, old(tokens), next, {}, map[], []), next, user, now);
    }

    /** The rotating transaction: insert the successor, then claim the presented
        token; a lost claim rolls the insert back and, if the row can be read
        once more, revokes the family. */
    method Rotate(id: Id, now: int, start: int, expiry: int, later: int, reload: bool) returns (successor: Option<Id>)
      requires Valid() && id in tokens && start == SessionStart(tokens[id])
      modifies this
      ensures Valid()
      ensures successor.Some? <==> Claimable(old(tokens), id)
      ensures successor.Some? ==>
                var t := old(tokens)[id];
                && successor.value !in old(tokens)
                && tokens == old(tokens)[successor.value := Token(t.user, expiry, later, Some(start), None, None)]
                                        [id := t.(revokedAt := Some(now), replacedBy := successor)]
      ensures successor.None? ==>
                tokens == if reload then RevokeFamily(old(tokens), old(tokens)[id].user, later) else old(tokens)
    {
      var before := tokens;
      var user := tokens[id].user;
      var minted := next;
      tokens := tokens[minted := Token(user, expiry, later, Some(start), None, None)];
      next := next + 1;
      if tokens[id].revokedAt.None? && tokens[id].replacedBy.None? {
        tokens := tokens[id := tokens[id].(revokedAt := Some(now), replacedBy := Some(minted))];
        successor := Some(minted);
        forall i | i in tokens && tokens[i].replacedBy.Some? ensures GoodLink(tokens, i, tokens[i].replacedBy.value) {
          if i != id {
            assert GoodLink(before, i, before[i].replacedBy.value);
          }
        }
      } else {
        tokens := before;
        successor := None;
        if reload {
          Revoke(user, later);
        }
      }
    }

    /** The refresh endpoint when nothing interferes. */
    method Refresh(cookie: Option<Id>, active: bool, now: int, later: int) returns (res: Result<Id, RefreshError>)
      requires Valid()
      modifies this
      ensures Valid()
      ensures cookie.None? ==> res == Err(NoCookie)
      ensures cookie.Some? && cookie.value !in old(tokens) ==> res == Err(Invalid)
      ensures cookie.Some? && cookie.value in old(tokens) ==>
                var t := old(tokens)[cookie.value];
                (res.Ok? <==>
                   && active && t.revokedAt == None && t.replacedBy == None && now <= t.expiresAt
                   && config.refreshTtl > 0 && now < SessionStart(t) + config.maxSessionTtl)
      ensures cookie.Some? && cookie.value in old(tokens) ==>
                (res == Err(Detected) <==> old(tokens)[cookie.value].replacedBy.Some?)
      ensures cookie.Some? && cookie.value in old(tokens) ==>
                var t := old(tokens)[cookie.value];
                (res == Err(Expired) <==> t.replacedBy.None? && Live(t)
                                          && (t.expiresAt < now
                                                || (active && (config.refreshTtl <= 0
                                                                 || SessionStart(t) + config.maxSessionTtl <= now))))
      ensures res == Err(Detected) ==> tokens == RevokeFamily(old(tokens), old(tokens)[cookie.value].user, now)
      ensures res.Err? && res != Err(Detected) ==> tokens == old(tokens)
      ensures res.Ok? ==>
                && res.value in tokens && cookie.Some? && cookie.value in old(tokens) && cookie.value in tokens
                && Live(tokens[res.value]) && !Live(tokens[cookie.value])
                && tokens[cookie.value].replacedBy == Some(res.value)
                && SessionStart(tokens[res.value]) == SessionStart(old(tokens)[cookie.value])
                && now < tokens[res.value].expiresAt == CappedExpiry(config, now, SessionStart(tokens[res.value]))
                && tokens[res.value].user == old(tokens)[cookie.value].user
                && tokens[cookie.value].revokedAt == Some(now)
                && tokens.Keys == old(tokens).Keys + {res.value}
                && (forall id :: id in old(tokens) && id != cookie.value ==> tokens[id] == old(tokens)[id])
    {
      if cookie.None? {
        return Err(NoCookie);
      }
      var id := cookie.value;
      if id !in tokens {
        return Err(Invalid);
      }
      var record := tokens[id];
      if record.replacedBy.Some? {
        Revoke(record.user, now);
        return Err(Detected);
      }
      if record.revokedAt.Some? {
        return Err(Invalid);
      }
      if record.expiresAt < now {
        return Err(Expired);
      }
      if !active {
        return Err(Invalid);
      }
      var start := if record.sessionStart.Some? then record.sessionStart.value else record.createdAt;
      var expiry := CappedExpiry(config, now, start);
      if expiry <= now {
        return Err(Expired);
      }
      var successor := Rotate(id, now, start, expiry, later, true);
      res := Ok(successor.value);
    }

    /** Logout revokes the one presented token, if it was still live. */
    method Logout(cookie: Option<Id>, now: int)
      requires Valid()
      modifies this`tokens
      ensures Valid()
      ensures tokens == if cookie.Some? && cookie.value in old(tokens) && Live(old(tokens)[cookie.value])
                        then old(tokens)[cookie.value := old(tokens)[cookie.value].(revokedAt := Some(now))]
                        else old(tokens)
    {
      if cookie.Some? && cookie.value in tokens && tokens[cookie.value].revokedAt.None? {
        tokens := tokens[cookie.value := tokens[cookie.value].(revokedAt := Some(now))];
        forall i | i in tokens && tokens[i].replacedBy.Some? ensures GoodLink(tokens, i, tokens[i].replacedBy.value) {
          assert GoodLink(old(tokens), i, old(tokens)[i].replacedBy.value);
        }
      }
    }
  }
}
