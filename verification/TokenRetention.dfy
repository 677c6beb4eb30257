/**
  What the retention sweep may take away. Erasing every sweep from a run leaves
  exactly the same credentials granted if and only if the retention setting is not
  negative; a token outlives its own expiry in the table if and only if the retention
  is at least the token lifetime. Also: however often a session is rotated, nothing it
  grants outlives the login by more than the two lifetimes.
*/
module TokenRetention {
  import opened Options
  import opened TokenModel
  import opened TokenFamilies

  // ---- erasing the sweeps -----------------------------------------------------

  function Erase(events: seq<Event>): seq<Event> {
    if events == [] then []
    else if events[0].request.Sweep? then Erase(events[1..])
    else [events[0]] + Erase(events[1..])
  }

  /** The session a token hangs on can no longer be used at `now`. */
  ghost predicate Lapsed(full: Db, key: Id, now: int)
    requires key in full.tokens
  {
    full.tokens[key].session in full.sessions && full.sessions[full.tokens[key].session].expires < now
  }

  /** A stored copy differs at most in the parent link. */
  ghost predicate SameToken(t: Token, u: Token) {
    t.(parent := None) == u.(parent := None)
  }

  ghost predicate TokenTracks(full: Db, swept: Db, key: Id, now: int)
    requires key in full.tokens
  {
    && (key in swept.tokens ==>
      SameToken(full.tokens[key].(revoked := None), swept.tokens[key].(revoked := None)))
    && (!Lapsed(full, key, now) ==>
      if key in swept.tokens then SameToken(full.tokens[key], swept.tokens[key]) else full.tokens[key].revoked.Some?)
  }

  /**
    `swept` went through sweeps that `full` did not: it agrees on everything that can
    still grant a pair, and what it lacks can grant nothing.
  */
  ghost predicate Tracks(full: Db, swept: Db, now: int) {
    && full.next == swept.next && full.users == swept.users
    && swept.tokens.Keys <= full.tokens.Keys && swept.sessions.Keys <= full.sessions.Keys
    && (forall k <- swept.sessions :: swept.sessions[k] == full.sessions[k])
    && (forall k <- full.sessions :: k !in swept.sessions ==> full.sessions[k].expires < now)
    && (forall k: Id {:trigger TokenTracks(full, swept, k, now)} :: k in full.tokens ==> TokenTracks(full, swept, k, now))
  }

  lemma TracksAges(full: Db, swept: Db, now: int, later: int)
    requires Tracks(full, swept, now) && now <= later
    ensures Tracks(full, swept, later)
  {
    forall k: Id | k in full.tokens ensures TokenTracks(full, swept, k, later) {
      assert TokenTracks(full, swept, k, now);
    }
  }

  lemma SweptTokenTracks(cfg: Config, full: Db, swept: Db, now: int, k: Id)
    requires Inv(cfg, full, now) && Tracks(full, swept, now) && cfg.retention >= 0 && k in full.tokens
    ensures TokenTracks(full, SweepRows(swept, now - cfg.retention), k, now)
  {
    assert TokenTracks(full, swept, k, now);
  }

  /** The sweep removes only what could grant nothing any more. */
  lemma SweepIsHarmless(cfg: Config, full: Db, swept: Db, now: int)
    requires Inv(cfg, full, now) && Tracks(full, swept, now) && cfg.retention >= 0
    ensures Tracks(full, SweepRows(swept, now - cfg.retention), now)
  {
    hide TokenTracks, Survives;
    forall k: Id | k in full.tokens ensures TokenTracks(full, SweepRows(swept, now - cfg.retention), k, now) {
      SweptTokenTracks(cfg, full, swept, now, k);
    }
  }

  lemma LoginTracks(cfg: Config, full: Db, swept: Db, now: int, user: Id, delay: nat)
    requires Inv(cfg, full, now) && Tracks(full, swept, now)
    ensures var (f, fi), (s, si) := StartSession(cfg, full, now, user, delay), StartSession(cfg, swept, now, user, delay);
      Tracks(f, s, now) && fi == si
  {
    var f, s := StartSession(cfg, full, now, user, delay).0, StartSession(cfg, swept, now, user, delay).0;
    forall k: Id | k in f.tokens ensures TokenTracks(f, s, k, now) {
      assert k in full.tokens ==> TokenTracks(full, swept, k, now);
    }
  }

  lemma RevokeFamilyTracks(full: Db, swept: Db, now: int, family: Id)
    requires Tracks(full, swept, now)
    ensures Tracks(RevokeFamilyRows(full, family, now), RevokeFamilyRows(swept, family, now), now)
  {
    var f, s := RevokeFamilyRows(full, family, now), RevokeFamilyRows(swept, family, now);
    forall k: Id | k in f.tokens ensures TokenTracks(f, s, k, now) {
      assert TokenTracks(full, swept, k, now);
    }
  }

  lemma RevokeSessionTracks(full: Db, swept: Db, now: int, session: Id)
    requires Tracks(full, swept, now)
    ensures Tracks(RevokeSessionRows(full, session, now), RevokeSessionRows(swept, session, now), now)
  {
    var f, s := RevokeSessionRows(full, session, now), RevokeSessionRows(swept, session, now);
    forall k: Id | k in f.tokens ensures TokenTracks(f, s, k, now) {
      assert TokenTracks(full, swept, k, now);
    }
  }

  lemma RevokeUserTracks(full: Db, swept: Db, now: int, user: Id)
    requires Tracks(full, swept, now)
    ensures Tracks(RevokeUserRows(full, user, now), RevokeUserRows(swept, user, now), now)
  {
    var f, s := RevokeUserRows(full, user, now), RevokeUserRows(swept, user, now);
    forall k: Id | k in f.tokens ensures TokenTracks(f, s, k, now) {
      assert TokenTracks(full, swept, k, now);
    }
  }

  /** Revoking a family whose session has lapsed, or that is revoked already, is invisible. */
  lemma RevokingTheEndedTracks(cfg: Config, full: Db, swept: Db, now: int, raw: Id, inFull: bool, inSwept: bool)
    requires Inv(cfg, full, now) && Tracks(full, swept, now) && raw in full.tokens
    requires Lapsed(full, raw, now) || (raw !in swept.tokens && !inSwept)
    ensures var family := full.tokens[raw].family;
      Tracks(if inFull then RevokeFamilyRows(full, family, now) else full,
        if inSwept then RevokeFamilyRows(swept, family, now) else swept, now)
  {
    hide Dated, Chained, Linked;
    var family := full.tokens[raw].family;
    var f := if inFull then RevokeFamilyRows(full, family, now) else full;
    var s := if inSwept then RevokeFamilyRows(swept, family, now) else swept;
    forall k: Id | k in f.tokens ensures TokenTracks(f, s, k, now) {
      assert TokenTracks(full, swept, k, now) && TokenTracks(full, swept, raw, now);
      assert full.tokens[k].family == family ==> Kin(full, k, raw);
    }
  }

  lemma RotateTracksLapsed(cfg: Config, full: Db, swept: Db, now: int, raw: Id, csrf: Option<Id>, delay: nat)
    requires Inv(cfg, full, now) && Tracks(full, swept, now) && raw in full.tokens
    requires Lapsed(full, raw, now) || raw !in swept.tokens
    ensures var (f, fo), (s, so) := Rotate(cfg, full, now, raw, csrf, delay), Rotate(cfg, swept, now, raw, csrf, delay);
      Tracks(f, s, now) && fo.Refused? && so.Refused?
  {
    hide Dated, Chained, Linked, Uniform;
    assert TokenTracks(full, swept, raw, now);
    RevokingTheEndedTracks(cfg, full, swept, now, raw, full.tokens[raw].used.Some?,
                           raw in swept.tokens && swept.tokens[raw].used.Some?);
  }

  lemma RotateTracksLive(cfg: Config, full: Db, swept: Db, now: int, raw: Id, csrf: Option<Id>, delay: nat)
    requires Inv(cfg, full, now) && Tracks(full, swept, now) && raw in full.tokens
    requires !Lapsed(full, raw, now) && raw in swept.tokens
    ensures var (f, fo), (s, so) := Rotate(cfg, full, now, raw, csrf, delay), Rotate(cfg, swept, now, raw, csrf, delay);
      Tracks(f, s, now) && fo == so
  {
    hide Dated, Chained, Uniform;
    assert TokenTracks(full, swept, raw, now);
    assert Objection(full, now, raw, csrf) == Objection(swept, now, raw, csrf);
    if full.tokens[raw].used.Some? {
      RevokeFamilyTracks(full, swept, now, full.tokens[raw].family);
    } else if Objection(full, now, raw, csrf).None? {
      var f, s := Rotate(cfg, full, now, raw, csrf, delay).0, Rotate(cfg, swept, now, raw, csrf, delay).0;
      forall k: Id | k in f.tokens ensures TokenTracks(f, s, k, now) {
        assert k in full.tokens ==> TokenTracks(full, swept, k, now);
      }
    }
  }

  /** A rotation is granted on both sides, identically, or refused on both. */
  lemma RefreshTracks(cfg: Config, full: Db, swept: Db, now: int, raw: Id, csrf: Option<Id>, delay: nat)
    requires Inv(cfg, full, now) && Tracks(full, swept, now)
    ensures var (f, fo), (s, so) := RefreshRequest(cfg, full, now, raw, csrf, delay), RefreshRequest(cfg, swept, now, raw, csrf, delay);
      Tracks(f, s, now) && (fo == so || (fo.Refused? && so.Refused?))
  {
    if raw in full.tokens {
      if Lapsed(full, raw, now) || raw !in swept.tokens {
        RotateTracksLapsed(cfg, full, swept, now, raw, csrf, delay);
      } else {
        RotateTracksLive(cfg, full, swept, now, raw, csrf, delay);
      }
    }
  }

  lemma StepTracks(cfg: Config, full: Db, swept: Db, now: int, request: Request)
    requires Inv(cfg, full, now) && Tracks(full, swept, now) && !request.Sweep?
    ensures var (f, fo), (s, so) := Step(cfg, full, now, request), Step(cfg, swept, now, request);
      Tracks(f, s, now) && (fo == so || (fo.Refused? && so.Refused?))
  {
    match request
    case Login(user, delay) => LoginTracks(cfg, full, swept, now, user, delay);
    case Refresh(raw, csrf, delay) => RefreshTracks(cfg, full, swept, now, raw, csrf, delay);
    case RevokeFamily(family) => RevokeFamilyTracks(full, swept, now, family);
    case RevokeSession(session) => RevokeSessionTracks(full, swept, now, session);
    case RevokeAll(user) => RevokeUserTracks(full, swept, now, user);
    case SetUser(user, status) =>
      var f, s := Step(cfg, full, now, request).0, Step(cfg, swept, now, request).0;
      forall k: Id | k in f.tokens ensures TokenTracks(f, s, k, now) {
        assert TokenTracks(full, swept, k, now);
      }
  }

  lemma {:induction false} SweepsCanBeErasedFrom(cfg: Config, full: Db, swept: Db, now: int, events: seq<Event>)
    requires Inv(cfg, full, now) && Tracks(full, swept, now) && Ordered(events, now) && cfg.retention >= 0
    ensures Grants(cfg, swept, events) == Grants(cfg, full, Erase(events))
    decreases events
  {
    hide Inv, Tracks;
    if events != [] {
      var e := events[0];
      InvAges(cfg, full, now, e.now);
      TracksAges(full, swept, now, e.now);
      var s := Step(cfg, swept, e.now, e.request).0;
      if e.request.Sweep? {
        SweepIsHarmless(cfg, full, swept, e.now);
        SweepsCanBeErasedFrom(cfg, full, s, e.now, events[1..]);
      } else {
        var f := Step(cfg, full, e.now, e.request).0;
        StepTracks(cfg, full, swept, e.now, e.request);
        StepKeepsInv(cfg, full, e.now, e.request);
        SweepsCanBeErasedFrom(cfg, f, s, e.now, events[1..]);
        assert Erase(events)[0] == e && Erase(events)[1..] == Erase(events[1..]);
      }
    }
  }

  ghost predicate SweepsErasable(cfg: Config) {
    forall users, start, events: seq<Event> :: Ordered(events, start) ==>
      Grants(cfg, Empty(users), events) == Grants(cfg, Empty(users), Erase(events))
  }

  function LoggedIn(cfg: Config): Db {
    StartSession(cfg, Empty(map[0 := User(true, false, false)]), 0, 0, 0).0
  }

  /** At the last instant of its life the first token rotates, unless it has just been swept. */
  lemma SweptOnItsLastInstant(cfg: Config)
    requires cfg.retention < 0
    ensures var d1, ttl, refresh := LoggedIn(cfg), cfg.refreshTtl, Refresh(2, None, 0);
      && Step(cfg, d1, ttl, refresh).1.Granted?
      && Step(cfg, Step(cfg, d1, ttl, Sweep).0, ttl, refresh).1.Refused?
  {
    assert Objection(LoggedIn(cfg), cfg.refreshTtl, 2, None).None?;
    assert 2 !in Step(cfg, LoggedIn(cfg), cfg.refreshTtl, Sweep).0.tokens;
  }

  lemma GrantsUnfold(cfg: Config, db: Db, events: seq<Event>)
    ensures Grants(cfg, db, events) ==
      if events == [] then []
      else
        var (after, outcome) := Step(cfg, db, events[0].now, events[0].request);
        (if events[0].request.Sweep? then [] else [if outcome.Granted? then Some(outcome.issued) else None])
        + Grants(cfg, after, events[1..])
  {
    hide Step;
    if events != [] && events[0].request.Sweep? {
      var rest := Grants(cfg, Step(cfg, db, events[0].now, events[0].request).0, events[1..]);
      assert [] + rest == rest;
    }
  }

  /** A login, a sweep at the token's last valid instant, and a rotation at that instant. */
  lemma NegativeRetentionDropsLiveToken(cfg: Config)
    requires cfg.retention < 0
    ensures !SweepsErasable(cfg)
  {
    hide Step, Grants;
    var d0, ttl := Empty(map[0 := User(true, false, false)]), cfg.refreshTtl;
    var login, sweep, refresh := Event(0, Login(0, 0)), Event(ttl, Sweep), Event(ttl, Refresh(2, None, 0));
    var events, erased := [login, sweep, refresh], [login, refresh];
    assert events[1..] == [sweep, refresh] && [sweep, refresh][1..] == [refresh] == erased[1..] && [refresh][1..] == [];
    assert Ordered([refresh], ttl) && Ordered([sweep, refresh], 0) && Ordered(events, 0);
    assert Erase([refresh]) == [refresh] && Erase([sweep, refresh]) == [refresh];
    assert Erase(events) == erased;
    SweptOnItsLastInstant(cfg);
    var d1 := LoggedIn(cfg);
    LoginIsGranted(cfg, d0);
    var d2 := Step(cfg, d1, ttl, Sweep).0;
    GrantsUnfold(cfg, d0, events);
    GrantsUnfold(cfg, d0, erased);
    GrantsUnfold(cfg, d1, [sweep, refresh]);
    GrantsUnfold(cfg, d1, [refresh]);
    GrantsUnfold(cfg, d2, [refresh]);
    assert Grants(cfg, d0, events)[1].None? && Grants(cfg, d0, erased)[1].Some?;
  }

  lemma LoginIsGranted(cfg: Config, d0: Db)
    requires d0 == Empty(map[0 := User(true, false, false)])
    ensures Step(cfg, d0, 0, Login(0, 0)).0 == LoggedIn(cfg) && Step(cfg, d0, 0, Login(0, 0)).1.Granted?
  {
  }

  /** The sweeps of every run can be erased without changing what is granted iff retention is not negative. */
  lemma SweepsErasableExactly(cfg: Config)
    ensures SweepsErasable(cfg) <==> cfg.retention >= 0
  {
    if cfg.retention < 0 {
      NegativeRetentionDropsLiveToken(cfg);
    } else {
      forall users, start, events: seq<Event> | Ordered(events, start)
        ensures Grants(cfg, Empty(users), events) == Grants(cfg, Empty(users), Erase(events))
      {
        SweepsCanBeErasedFrom(cfg, Empty(users), Empty(users), start, events);
      }
    }
  }

  // ---- how long a token stays recognisable ------------------------------------

  /** Once issued, a token is missing only if the clock is past its issue time plus the retention. */
  lemma {:induction false} TokenStaysRecognisable(cfg: Config, db: Db, now: int, events: seq<Event>, key: Id)
    requires Inv(cfg, db, now) && Ordered(events, now) && key in db.tokens
    ensures var end := Run(cfg, db, events);
      if key in end.tokens
      then end.tokens[key].created == db.tokens[key].created && end.tokens[key].expires == db.tokens[key].expires
      else db.tokens[key].created + cfg.retention < LastTime(events, now)
    decreases events
  {
    if events != [] {
      var e := events[0];
      var after := Step(cfg, db, e.now, e.request).0;
      InvAges(cfg, db, now, e.now);
      StepKeepsInv(cfg, db, e.now, e.request);
      if key in after.tokens {
        StepKeepsTokenDates(cfg, db, e.now, e.request, key);
        TokenStaysRecognisable(cfg, after, e.now, events[1..], key);
      } else {
        StepKeepsTokenDates(cfg, db, e.now, e.request, key);
        TimeMovesOn(events[1..], e.now);
        assert key < after.next;
        GoneForGood(cfg, after, events[1..], key);
      }
    }
  }

  lemma StepKeepsTokenDates(cfg: Config, db: Db, now: int, request: Request, key: Id)
    requires Inv(cfg, db, now) && key in db.tokens
    ensures var after := Step(cfg, db, now, request).0;
      if key in after.tokens
      then after.tokens[key].created == db.tokens[key].created && after.tokens[key].expires == db.tokens[key].expires
      else db.tokens[key].created + cfg.retention < now
  {
  }

  lemma {:induction false} TimeMovesOn(events: seq<Event>, now: int)
    requires Ordered(events, now)
    ensures now <= LastTime(events, now)
    decreases events
  {
    if events != [] { TimeMovesOn(events[1..], events[0].now); }
  }

  lemma StepReissuesNothing(cfg: Config, db: Db, now: int, request: Request, key: Id)
    requires key !in db.tokens && key < db.next
    ensures var after := Step(cfg, db, now, request).0; key !in after.tokens && key < after.next
  {
  }

  lemma {:induction false} GoneForGood(cfg: Config, db: Db, events: seq<Event>, key: Id)
    requires key !in db.tokens && key < db.next
    ensures key !in Run(cfg, db, events).tokens
    decreases events
  {
    hide Step;
    if events != [] {
      StepReissuesNothing(cfg, db, events[0].now, events[0].request, key);
      GoneForGood(cfg, Step(cfg, db, events[0].now, events[0].request).0, events[1..], key);
    }
  }

  /**
    In every run, a stored token is found missing only when the clock is past its
    expiry by more than `slack`.
  */
  ghost predicate KeptBeyondExpiry(cfg: Config, slack: int) {
    forall users, start, before, events, key: Id :: Ordered(before, start) && Ordered(events, LastTime(before, start)) ==>
      var db := Run(cfg, Empty(users), before);
      key in db.tokens && key !in Run(cfg, db, events).tokens ==>
      db.tokens[key].expires + slack < LastTime(events, LastTime(before, start))
  }

  /** A login, a revocation of its family, and a sweep at the first instant that takes the token. */
  lemma RevokedTokenGoesEarly(cfg: Config, slack: int)
    requires cfg.retention < cfg.refreshTtl + slack && 0 <= cfg.refreshTtl + slack
    ensures !KeptBeyondExpiry(cfg, slack)
  {
    var at := if cfg.retention < 0 then 0 else cfg.retention + 1;
    var users: map<Id, User> := map[];
    var login, revoke, sweep := Event(0, Login(0, 0)), Event(0, RevokeFamily(1)), Event(at, Sweep);
    var before, events := [login], [revoke, sweep];
    assert before[1..] == [] && events[1..] == [sweep] && [sweep][1..] == [];
    assert Ordered([], 0) && LastTime([], 0) == 0;
    assert Ordered(before, 0) && LastTime(before, 0) == 0;
    assert Ordered([sweep], 0) && Ordered(events, 0) && LastTime([sweep], 0) == at && LastTime(events, 0) == at;
    var d1 := Step(cfg, Empty(users), 0, login.request).0;
    var d2 := Step(cfg, d1, 0, revoke.request).0;
    var d3 := Step(cfg, d2, at, sweep.request).0;
    assert Run(cfg, Empty(users), before) == Run(cfg, d1, []) == d1;
    assert Run(cfg, d1, events) == Run(cfg, d2, [sweep]) == Run(cfg, d3, []) == d3;
    assert d2.tokens[2].revoked.Some? && !Survives(d2, 2, at - cfg.retention);
    assert 2 in d1.tokens && 2 !in d3.tokens;
  }

  /**
    How far past its expiry a token is kept, exactly. With `slack` 0: never deleted
    before its expiry iff the retention is at least the lifetime. With `slack` the
    retention itself: a full grace period after expiry only for a zero lifetime
    (or a retention so negative that the claim is empty).
  */
  lemma KeptBeyondExpiryExactly(cfg: Config, slack: int)
    ensures KeptBeyondExpiry(cfg, slack) <==> cfg.refreshTtl + slack <= cfg.retention || cfg.refreshTtl + slack < 0
  {
    if cfg.retention < cfg.refreshTtl + slack && 0 <= cfg.refreshTtl + slack {
      RevokedTokenGoesEarly(cfg, slack);
    } else {
      forall users, start, before, events, key: Id | Ordered(before, start) && Ordered(events, LastTime(before, start))
        ensures var db := Run(cfg, Empty(users), before);
          key in db.tokens && key !in Run(cfg, db, events).tokens ==>
          db.tokens[key].expires + slack < LastTime(events, LastTime(before, start))
      {
        var db, now := Run(cfg, Empty(users), before), LastTime(before, start);
        RunKeepsInv(cfg, Empty(users), start, before);
        if key in db.tokens {
          TokenStaysRecognisable(cfg, db, now, events, key);
          TimeMovesOn(events, now);
        }
      }
    }
  }

  // ---- the lifetime of a login ------------------------------------------------

  /** What each event of a run was granted. */
  function Outcomes(cfg: Config, db: Db, events: seq<Event>): (outcomes: seq<Option<Issued>>)
    ensures |outcomes| == |events|
    decreases events
  {
    if events == [] then []
    else
      var (after, outcome) := Step(cfg, db, events[0].now, events[0].request);
      [if outcome.Granted? then Some(outcome.issued) else None] + Outcomes(cfg, after, events[1..])
  }

  /** The session row, while it is stored, still carries the deadline set at login. */
  ghost predicate Deadline(db: Db, session: Id, deadline: int) {
    session < db.next && (session in db.sessions ==> db.sessions[session].expires == deadline)
  }

  /** How long after its checks the request mints the access token. */
  function MintDelay(request: Request): nat {
    match request
    case Login(_, delay) => delay
    case Refresh(_, _, delay) => delay
    case _ => 0
  }

  lemma {:induction false} NothingAfterDeadline(cfg: Config, db: Db, events: seq<Event>, session: Id, deadline: int, i: nat)
    requires Deadline(db, session, deadline) && i < |events|
    ensures var granted := Outcomes(cfg, db, events)[i];
      granted.Some? && granted.value.session == session ==>
        && events[i].now <= deadline
        && granted.value.accessExpires <= deadline + MintDelay(events[i].request) + cfg.accessTtl
    decreases events
  {
    var e := events[0];
    var after := Step(cfg, db, e.now, e.request).0;
    assert Deadline(after, session, deadline);
    if i > 0 {
      NothingAfterDeadline(cfg, after, events[1..], session, deadline, i - 1);
      assert events[1..][i - 1] == events[i];
    }
  }

  /**
    However often a session is rotated, and whatever is swept or revoked meanwhile,
    nothing is granted in it later than login + refresh lifetime, and no access token
    of it expires later than that + access lifetime + the time between the checks and
    the minting of that token.
  */
  lemma LoginBoundsItsSession(cfg: Config, db: Db, now: int, user: Id, delay: nat, events: seq<Event>, i: nat)
    requires Ordered(events, now) && i < |events|
    ensures var (after, issued) := StartSession(cfg, db, now, user, delay);
      var granted := Outcomes(cfg, after, events)[i];
      granted.Some? && granted.value.session == issued.session ==>
        && events[i].now <= now + cfg.refreshTtl
        && granted.value.accessExpires <= now + cfg.refreshTtl + MintDelay(events[i].request) + cfg.accessTtl
  {
    var (after, issued) := StartSession(cfg, db, now, user, delay);
    NothingAfterDeadline(cfg, after, events, issued.session, now + cfg.refreshTtl, i);
  }
}
