/** What a session's row and a token's row hold after any history: when they were ended, used and last seen, and until when they are kept. */
module TokenRows {
  import opened Arith
  import opened Options
  import opened TokenModel

  // ---- sessions ---------------------------------------------------------------

  /** When the session was first revoked, by itself or with all of its user's. */
  function FirstEnd(events: seq<Event>, session: Id, user: Id): Option<int> {
    if events == [] then None
    else if events[0].request == RevokeSession(session) || events[0].request == RevokeAll(user) then Some(events[0].now)
    else FirstEnd(events[1..], session, user)
  }

  /** When a pair was last granted in the session. */
  function LastGrant(cfg: Config, db: Db, events: seq<Event>, session: Id, before: int): int
    decreases events
  {
    if events == [] then before
    else
      var (after, outcome) := Step(cfg, db, events[0].now, events[0].request);
      var seen := if outcome.Granted? && outcome.issued.session == session then events[0].now else before;
      LastGrant(cfg, after, events[1..], session, seen)
  }

  /** A sweep came more than the retention after both the session's creation and its expiry. */
  predicate SweptLate(cfg: Config, events: seq<Event>, created: int, expires: int) {
    events != [] &&
    ((events[0].request.Sweep? && Max(created, expires) + cfg.retention < events[0].now)
      || SweptLate(cfg, events[1..], created, expires))
  }

  lemma SessionAfter(cfg: Config, db: Db, now: int, r: Request, k: Id)
    requires k in db.sessions && k < db.next
    ensures var s, (after, outcome) := db.sessions[k], Step(cfg, db, now, r);
      && db.next <= after.next
      && (k in after.sessions <==> !(r.Sweep? && Max(s.created, s.expires) + cfg.retention < now))
      && (k in after.sessions ==> after.sessions[k] == s.(
        revoked := if s.revoked.None? && (r == RevokeSession(k) || r == RevokeAll(s.user)) then Some(now) else s.revoked,
        lastSeen := if outcome.Granted? && outcome.issued.session == k then now else s.lastSeen))
  {
  }

  lemma {:induction false} GoneForGood(cfg: Config, db: Db, events: seq<Event>, k: Id)
    requires k !in db.sessions && k < db.next
    ensures k !in Run(cfg, db, events).sessions
    decreases events
  {
    if events != [] {
      assert var after := Step(cfg, db, events[0].now, events[0].request).0; k !in after.sessions && k < after.next;
      hide Step;
      GoneForGood(cfg, Step(cfg, db, events[0].now, events[0].request).0, events[1..], k);
    }
  }

  /**
    After any history a session is stored unless a sweep came late enough, and then it is
    as it was but for the time it was first revoked and the time a pair was last granted in it.
  */
  lemma {:induction false} SessionTellsItsHistory(cfg: Config, db: Db, events: seq<Event>, k: Id)
    requires k in db.sessions && k < db.next
    ensures var s, end := db.sessions[k], Run(cfg, db, events);
      && (k in end.sessions <==> !SweptLate(cfg, events, s.created, s.expires))
      && (k in end.sessions ==> end.sessions[k] == s.(
        revoked := if s.revoked.Some? then s.revoked else FirstEnd(events, k, s.user),
        lastSeen := LastGrant(cfg, db, events, k, s.lastSeen)))
    decreases events
  {
    if events != [] {
      hide Step;
      SessionAfter(cfg, db, events[0].now, events[0].request, k);
      var after := Step(cfg, db, events[0].now, events[0].request).0;
      if k in after.sessions {
        SessionTellsItsHistory(cfg, after, events[1..], k);
      } else {
        GoneForGood(cfg, after, events[1..], k);
      }
    }
  }

  // ---- tokens -----------------------------------------------------------------

  /** The request revokes the token: with its family, its session or its user, or by a replay in its family that is kept. */
  predicate Revokes(cfg: Config, db: Db, now: int, r: Request, t: Token) {
    || r == RevokeFamily(t.family) || r == RevokeSession(t.session) || r == RevokeAll(t.user)
    || (r.Refresh? && Step(cfg, db, now, r).1 == Refused(TokenReused) && !cfg.rollbackOnRaise
      && r.raw in db.tokens && db.tokens[r.raw].family == t.family)
  }

  function FirstRevoked(cfg: Config, db: Db, events: seq<Event>, t: Token): Option<int>
    decreases events
  {
    if events == [] then None
    else if Revokes(cfg, db, events[0].now, events[0].request, t) then Some(events[0].now)
    else FirstRevoked(cfg, Step(cfg, db, events[0].now, events[0].request).0, events[1..], t)
  }

  function FirstUsed(cfg: Config, db: Db, events: seq<Event>, raw: Id): Option<int>
    decreases events
  {
    if events == [] then None
    else
      var r, (after, outcome) := events[0].request, Step(cfg, db, events[0].now, events[0].request);
      if r.Refresh? && r.raw == raw && outcome.Granted? then Some(events[0].now) else FirstUsed(cfg, after, events[1..], raw)
  }

  lemma TokenAfter(cfg: Config, db: Db, now: int, r: Request, k: Id)
    requires k in db.tokens && k < db.next
    ensures var t, (after, outcome) := db.tokens[k], Step(cfg, db, now, r);
      && db.next <= after.next
      && (k in after.tokens ==>
        after.tokens[k].(parent := None) == t.(parent := None,
          used := if t.used.None? && r.Refresh? && r.raw == k && outcome.Granted? then Some(now) else t.used,
          revoked := if t.revoked.None? && Revokes(cfg, db, now, r, t) then Some(now) else t.revoked))
  {
  }

  lemma {:induction false} TokenGoneForGood(cfg: Config, db: Db, events: seq<Event>, k: Id)
    requires k !in db.tokens && k < db.next
    ensures k !in Run(cfg, db, events).tokens
    decreases events
  {
    if events != [] {
      assert var after := Step(cfg, db, events[0].now, events[0].request).0; k !in after.tokens && k < after.next;
      hide Step;
      TokenGoneForGood(cfg, Step(cfg, db, events[0].now, events[0].request).0, events[1..], k);
    }
  }

  /** After any history a stored token is as it was but for its parent and the times it was first used and first revoked. */
  lemma {:induction false} TokenTellsItsHistory(cfg: Config, db: Db, events: seq<Event>, k: Id)
    requires k in db.tokens && k < db.next
    ensures var t, end := db.tokens[k], Run(cfg, db, events);
      k in end.tokens ==>
        end.tokens[k].(parent := None) == t.(parent := None,
          used := if t.used.Some? then t.used else FirstUsed(cfg, db, events, k),
          revoked := if t.revoked.Some? then t.revoked else FirstRevoked(cfg, db, events, t))
    decreases events
  {
    if events != [] {
      TokenAfter(cfg, db, events[0].now, events[0].request, k);
      var after := Step(cfg, db, events[0].now, events[0].request).0;
      hide Step, Revokes;
      if k in after.tokens {
        SameOwners(cfg, after, events[1..], db.tokens[k], after.tokens[k]);
        TokenTellsItsHistory(cfg, after, events[1..], k);
      } else {
        TokenGoneForGood(cfg, after, events[1..], k);
      }
    }
  }

  lemma {:induction false} SameOwners(cfg: Config, db: Db, events: seq<Event>, t: Token, u: Token)
    requires t.user == u.user && t.session == u.session && t.family == u.family
    ensures FirstRevoked(cfg, db, events, t) == FirstRevoked(cfg, db, events, u)
    decreases events
  {
    if events != [] { SameOwners(cfg, Step(cfg, db, events[0].now, events[0].request).0, events[1..], t, u); }
  }
}
