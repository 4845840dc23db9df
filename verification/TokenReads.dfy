/** What every successful refresh was decided on. */
module TokenReads {
  import opened Prelude
  import opened TokenRotation

  /** Step i reads the token when it may be refreshed: it is neither revoked nor
      rotated nor expired, its user is active, and the session goes on. */
  ghost predicate ReadsFit(c: Config, s: System, acts: seq<Action>, i: nat, token: Id, now: int) {
    && i < |acts| && acts[i].Read? && acts[i].token == token && acts[i].now == now
    && Fit(c, Run(c, s, acts[..i]), token, now)
  }

  predicate Fit(c: Config, s: System, token: Id, now: int) {
    && token in s.tokens && now <= s.clock
    && var t := s.tokens[token];
       && t.revokedAt == None && t.replacedBy == None && now <= t.expiresAt && t.user in s.active
       && c.refreshTtl > 0 && now < SessionStart(t) + c.maxSessionTtl
  }

  ghost predicate WasRead(c: Config, s: System, acts: seq<Action>, token: Id, now: int) {
    exists i :: ReadsFit(c, s, acts, i, token, now)
  }

  lemma {:induction false} ReadLater(c: Config, s: System, acts: seq<Action>, a: Action, token: Id, now: int)
    requires WasRead(c, s, acts, token, now)
    ensures WasRead(c, s, acts + [a], token, now)
  {
    var i: nat :| ReadsFit(c, s, acts, i, token, now);
    assert (acts + [a])[..i] == acts[..i];
    assert ReadsFit(c, s, acts + [a], i, token, now);
  }

  /** A step opens a rotating request exactly as such a read, and logs a refresh
      exactly as the rotating step of one. */
  lemma ReadOpens(c: Config, s: System, a: Action, q: nat)
    requires q in Apply(c, s, a).requests && Apply(c, s, a).requests[q].Rotating?
    requires !(q in s.requests && s.requests[q] == Apply(c, s, a).requests[q])
    ensures a.Read? && a.req == q && Fit(c, s, a.token, a.now)
    ensures Apply(c, s, a).requests[q].token == a.token && Apply(c, s, a).requests[q].now == a.now
  {
    hide RevokeFamily;
  }

  lemma RotateLogs(c: Config, s: System, a: Action)
    ensures s.log <= Apply(c, s, a).log
    ensures forall k :: |s.log| <= k < |Apply(c, s, a).log| && Apply(c, s, a).log[k].Refreshed? ==>
              && a.Rotate? && a.req in s.requests && s.requests[a.req].Rotating?
              && Apply(c, s, a).log[k].from == s.requests[a.req].token
              && Apply(c, s, a).log[k].now == s.requests[a.req].now
  {
    hide RevokeFamily;
  }

  /** What a read decides: to rotate exactly a fit token, to sweep exactly for one
      that was already rotated, and otherwise nothing. */
  lemma ReadExactly(c: Config, s: System, a: Action)
    requires a.Read? && a.req !in s.requests && a.token in s.tokens && a.now <= s.clock
    ensures var t, after := s.tokens[a.token], Apply(c, s, a);
            && (Fit(c, s, a.token, a.now) <==> a.req in after.requests && after.requests[a.req].Rotating?)
            && (t.replacedBy != None <==> a.req in after.requests && after.requests[a.req].Sweeping?)
            && (Fit(c, s, a.token, a.now) ==>
                  && after.requests[a.req].token == a.token && after.requests[a.req].start == SessionStart(t)
                  && after.requests[a.req].expiry == CappedExpiry(c, a.now, SessionStart(t)))
            && (!Fit(c, s, a.token, a.now) && t.replacedBy == None ==> after == s)
  {
  }

  ghost predicate AllRead(c: Config, s: System, acts: seq<Action>) {
    var t := Run(c, s, acts);
    && (forall q :: q in t.requests && t.requests[q].Rotating? ==>
          WasRead(c, s, acts, t.requests[q].token, t.requests[q].now))
    && (forall k :: 0 <= k < |t.log| && t.log[k].Refreshed? ==> WasRead(c, s, acts, t.log[k].from, t.log[k].now))
  }

  /** In every run a refresh that succeeds was decided by a read of its token at
      which the user was active and the token fit to be refreshed. */
  lemma {:induction false} RefreshedWasFit(c: Config, s: System, acts: seq<Action>)
    requires s.requests == map[] && s.log == []
    ensures AllRead(c, s, acts)
  {
    if acts != [] {
      var before, a := acts[..|acts| - 1], acts[|acts| - 1];
      RefreshedWasFit(c, s, before);
      var u, t := Run(c, s, before), Run(c, s, acts);
      assert acts == before + [a];
      hide Apply, Fit, WasRead, Run;
      assert t == Apply(c, u, a) by { Snoc(c, s, before, a, u); }
      forall q | q in t.requests && t.requests[q].Rotating?
        ensures WasRead(c, s, acts, t.requests[q].token, t.requests[q].now)
      {
        if q in u.requests && u.requests[q] == t.requests[q] {
          ReadLater(c, s, before, a, t.requests[q].token, t.requests[q].now);
        } else {
          ReadOpens(c, u, a, q);
          JustRead(c, s, before, a, u);
        }
      }
      RotateLogs(c, u, a);
      forall k | 0 <= k < |t.log| && t.log[k].Refreshed? ensures WasRead(c, s, acts, t.log[k].from, t.log[k].now) {
        assert k < |u.log| ==> t.log[k] == u.log[k];
        ReadLater(c, s, before, a, t.log[k].from, t.log[k].now);
      }
    }
  }

  lemma {:induction false} JustRead(c: Config, s: System, before: seq<Action>, a: Action, u: System)
    requires u == Run(c, s, before) && a.Read? && Fit(c, u, a.token, a.now)
    ensures WasRead(c, s, before + [a], a.token, a.now)
  {
    assert (before + [a])[..|before|] == before;
    assert ReadsFit(c, s, before + [a], |before|, a.token, a.now);
  }

  /** A rotation that wins its token commits the successor the read decided on. */
  lemma RotateExactly(c: Config, s: System, a: Action)
    requires a.Rotate? && a.req in s.requests && s.requests[a.req].Rotating? && s.requests[a.req].token in s.tokens
    ensures var r, t, u := s.requests[a.req], s.tokens[s.requests[a.req].token], Apply(c, s, a);
            t.revokedAt == None && t.replacedBy == None ==>
              && u.tokens == s.tokens[s.next := Token(t.user, r.expiry, s.clock, Some(r.start), None, None)]
                                     [r.token := t.(revokedAt := Some(r.now), replacedBy := Some(s.next))]
              && u.next == s.next + 1 && u.requests == s.requests - {a.req}
              && u.log == s.log + [Refreshed(r.token, s.next, r.now)]
  {
  }

  /** The other writes: a login adds a live token with a fresh session, a logout
      revokes the presented token, a sweep the live tokens of its user. */
  lemma WritesExactly(c: Config, s: System, user: User, req: nat, now: int)
    ensures Apply(c, s, Login(user))
            == s.(tokens := s.tokens[s.next := Token(user, CappedExpiry(c, s.clock, s.clock), s.clock,
                                                     Some(s.clock), None, None)],
                  next := s.next + 1)
    ensures req in s.requests && s.requests[req].LoggingOut? && s.requests[req].token in s.tokens ==>
              var id := s.requests[req].token;
              Apply(c, s, LogoutWrite(req, now))
              == s.(tokens := s.tokens[id := s.tokens[id].(revokedAt := Some(now))], requests := s.requests - {req})
    ensures req in s.requests && s.requests[req].Sweeping? ==>
              var t := Apply(c, s, Sweep(req, now));
              && t.requests == s.requests - {req} && t.tokens.Keys == s.tokens.Keys
              && forall id :: id in s.tokens ==>
                   t.tokens[id] == if s.tokens[id].user == s.requests[req].user && s.tokens[id].revokedAt == None
                                   then s.tokens[id].(revokedAt := Some(now)) else s.tokens[id]
  {
  }
}
