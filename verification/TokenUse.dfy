/**
  Exactly when an issued pair can be exchanged, told from the history since it was
  issued alone; and which refusal is given.
*/
module TokenUse {
  import opened Options
  import opened TokenModel
  import opened TokenFamilies

  // ---- a pair's life ----------------------------------------------------------

  /** The stored rows, if there are any, are those of the pair and of its session. */
  ghost predicate IsRowOf(db: Db, i: Issued, deadline: int) {
    && i.refreshToken < db.next && i.session < db.next
    && (i.session in db.sessions ==> db.sessions[i.session].expires == deadline)
    && (i.refreshToken in db.tokens ==>
      var t := db.tokens[i.refreshToken];
      t.user == i.user && t.session == i.session && t.family == i.family && t.csrf == i.csrfToken)
  }

  /** The pair can still be exchanged until its session's deadline. */
  ghost predicate Open(db: Db, i: Issued, deadline: int) {
    && IsRowOf(db, i, deadline) && i.refreshToken in db.tokens && i.session in db.sessions
    && var t, s := db.tokens[i.refreshToken], db.sessions[i.session];
    t.used.None? && t.revoked.None? && deadline <= t.expires && s.revoked.None? && s.expires == deadline && s.user == i.user
  }

  /** It never will be again. */
  ghost predicate Closed(db: Db, i: Issued) {
    || i.refreshToken !in db.tokens || db.tokens[i.refreshToken].used.Some? || db.tokens[i.refreshToken].revoked.Some?
    || i.session !in db.sessions || db.sessions[i.session].revoked.Some?
  }

  /** The request takes the pair out of use: its exchange, a kept replay in its family, or a revocation that covers it. */
  predicate Closes(cfg: Config, db: Db, now: int, request: Request, i: Issued) {
    match request
    case Refresh(raw, _, _) =>
      var outcome := Step(cfg, db, now, request).1;
      || (raw == i.refreshToken && outcome.Granted?)
      || (outcome == Refused(TokenReused) && !cfg.rollbackOnRaise && raw in db.tokens && db.tokens[raw].family == i.family)
    case RevokeFamily(family) => family == i.family
    case RevokeSession(session) => session == i.session
    case RevokeAll(user) => user == i.user
    case _ => false
  }

  predicate StillOpen(cfg: Config, db: Db, events: seq<Event>, i: Issued)
    decreases events
  {
    events == [] ||
    (!Closes(cfg, db, events[0].now, events[0].request, i)
      && StillOpen(cfg, Step(cfg, db, events[0].now, events[0].request).0, events[1..], i))
  }

  lemma StepKeepsRow(cfg: Config, db: Db, now: int, request: Request, i: Issued, deadline: int)
    requires IsRowOf(db, i, deadline)
    ensures IsRowOf(Step(cfg, db, now, request).0, i, deadline)
  {
  }

  lemma StepKeepsClosed(cfg: Config, db: Db, now: int, request: Request, i: Issued, deadline: int)
    requires IsRowOf(db, i, deadline) && Closed(db, i)
    ensures Closed(Step(cfg, db, now, request).0, i)
  {
  }

  lemma StepCloses(cfg: Config, db: Db, now: int, request: Request, i: Issued, deadline: int)
    requires IsRowOf(db, i, deadline) && Closes(cfg, db, now, request, i)
    ensures Closed(Step(cfg, db, now, request).0, i)
  {
  }

  lemma StepKeepsOpen(cfg: Config, db: Db, now: int, request: Request, i: Issued, deadline: int)
    requires cfg.retention >= 0 && Open(db, i, deadline) && now <= deadline && !Closes(cfg, db, now, request, i)
    ensures Open(Step(cfg, db, now, request).0, i, deadline)
  {
  }

  lemma {:induction false} OpenUntilClosed(cfg: Config, db: Db, now: int, events: seq<Event>, i: Issued, deadline: int, later: int)
    requires cfg.retention >= 0 && Open(db, i, deadline)
    requires Ordered(events, now) && LastTime(events, now) <= later
    ensures var end := Run(cfg, db, events);
      IsRowOf(end, i, deadline) && if StillOpen(cfg, db, events, i) then later <= deadline ==> Open(end, i, deadline) else Closed(end, i)
    decreases events
  {
    if events != [] {
      hide Step, Closes, IsRowOf, Closed;
      var e := events[0];
      var after := Step(cfg, db, e.now, e.request).0;
      StepKeepsRow(cfg, db, e.now, e.request, i, deadline);
      InOrder(events, now, later);
      if Closes(cfg, db, e.now, e.request, i) {
        StepCloses(cfg, db, e.now, e.request, i, deadline);
        ClosedForGood(cfg, after, events[1..], i, deadline);
      } else if e.now <= deadline {
        StepKeepsOpen(cfg, db, e.now, e.request, i, deadline);
        OpenUntilClosed(cfg, after, e.now, events[1..], i, deadline, later);
      } else {
        RowOrClosed(cfg, after, events[1..], i, deadline);
      }
    }
  }

  lemma {:induction false} ClosedForGood(cfg: Config, db: Db, events: seq<Event>, i: Issued, deadline: int)
    requires IsRowOf(db, i, deadline) && Closed(db, i)
    ensures IsRowOf(Run(cfg, db, events), i, deadline) && Closed(Run(cfg, db, events), i)
    decreases events
  {
    if events != [] {
      hide Step, IsRowOf, Closed;
      StepKeepsRow(cfg, db, events[0].now, events[0].request, i, deadline);
      StepKeepsClosed(cfg, db, events[0].now, events[0].request, i, deadline);
      ClosedForGood(cfg, Step(cfg, db, events[0].now, events[0].request).0, events[1..], i, deadline);
    }
  }

  lemma {:induction false} RowOrClosed(cfg: Config, db: Db, events: seq<Event>, i: Issued, deadline: int)
    requires IsRowOf(db, i, deadline)
    ensures IsRowOf(Run(cfg, db, events), i, deadline) && (!StillOpen(cfg, db, events, i) ==> Closed(Run(cfg, db, events), i))
    decreases events
  {
    if events != [] {
      hide Step, Closes, IsRowOf, Closed;
      var e := events[0];
      var after := Step(cfg, db, e.now, e.request).0;
      StepKeepsRow(cfg, db, e.now, e.request, i, deadline);
      if Closes(cfg, db, e.now, e.request, i) {
        StepCloses(cfg, db, e.now, e.request, i, deadline);
        ClosedForGood(cfg, after, events[1..], i, deadline);
      } else {
        RowOrClosed(cfg, after, events[1..], i, deadline);
      }
    }
  }

  lemma {:induction false} InOrder(events: seq<Event>, now: int, later: int)
    requires Ordered(events, now) && LastTime(events, now) <= later && events != []
    ensures events[0].now <= later && Ordered(events[1..], events[0].now) && LastTime(events[1..], events[0].now) <= later
    decreases events
  {
    if |events| > 1 { InOrder(events[1..], events[0].now, later); }
  }

  // ---- when it can be exchanged -----------------------------------------------

  /** The account is in good standing. */
  predicate MayUse(users: map<Id, User>, user: Id) {
    user in users && users[user].active && !users[user].deleted && !users[user].banned
  }

  /** Both tokens were drawn in between, and are different. */
  predicate Drawn(before: Db, after: Db, i: Issued) {
    && before.next <= i.refreshToken < after.next && before.next <= i.csrfToken < after.next
    && i.refreshToken != i.csrfToken
  }

  lemma OpenIsExchanged(cfg: Config, db: Db, now: int, i: Issued, deadline: int, csrf: Option<Id>, delay: nat)
    requires Open(db, i, deadline) && now <= deadline <= now + cfg.refreshTtl
    ensures var (after, outcome) := Step(cfg, db, now, Refresh(i.refreshToken, csrf, delay));
      && (outcome.Granted? <==> MayUse(db.users, i.user) && (csrf == None || csrf == Some(i.csrfToken)))
      && (outcome.Granted? ==>
        var j := outcome.issued;
        && j.user == i.user && j.session == i.session && j.family == i.family && j.refreshToken != i.refreshToken
        && j.refreshExpires == now + cfg.refreshTtl && j.accessExpires == now + delay + cfg.accessTtl
        && Open(after, j, deadline) && Drawn(db, after, j))
      && (csrf.Some? && csrf != Some(i.csrfToken) ==> outcome == Refused(CsrfMismatch) && after == db)
  {
  }

  lemma LateIsRefused(cfg: Config, db: Db, now: int, i: Issued, deadline: int, csrf: Option<Id>, delay: nat)
    requires IsRowOf(db, i, deadline) && deadline < now
    ensures Step(cfg, db, now, Refresh(i.refreshToken, csrf, delay)).1.Refused?
  {
  }

  lemma ClosedIsRefused(cfg: Config, db: Db, now: int, i: Issued, deadline: int, csrf: Option<Id>, delay: nat)
    requires IsRowOf(db, i, deadline) && Closed(db, i)
    ensures Step(cfg, db, now, Refresh(i.refreshToken, csrf, delay)).1.Refused?
  {
  }

  lemma {:induction false} TimePasses(events: seq<Event>, now: int)
    requires Ordered(events, now)
    ensures now <= LastTime(events, now)
    decreases events
  {
    if events != [] { TimePasses(events[1..], events[0].now); }
  }

  /**
    An issued pair is exchanged at a later moment if and only if nothing since has taken
    it out of use, its session's deadline has not passed, its user is in good standing,
    and the CSRF token is left out or is the pair's own. The new pair is of the same
    session and open in turn; a wrong CSRF token is refused and changes nothing.
  */
  lemma PairIsExchangedExactly(cfg: Config, db: Db, now: int, i: Issued, deadline: int, events: seq<Event>, later: int,
    csrf: Option<Id>, delay: nat)
    requires cfg.retention >= 0 && Open(db, i, deadline) && Ordered(events, now) && LastTime(events, now) <= later
    requires deadline <= now + cfg.refreshTtl
    ensures var end := Run(cfg, db, events);
      var (after, outcome) := Step(cfg, end, later, Refresh(i.refreshToken, csrf, delay));
      && (outcome.Granted? <==>
        && StillOpen(cfg, db, events, i) && later <= deadline && MayUse(end.users, i.user)
        && (csrf == None || csrf == Some(i.csrfToken)))
      && (outcome.Granted? ==>
        var j := outcome.issued;
        && j.user == i.user && j.session == i.session && j.family == i.family && j.refreshToken != i.refreshToken
        && j.refreshExpires == later + cfg.refreshTtl && j.accessExpires == later + delay + cfg.accessTtl
        && Open(after, j, deadline) && Drawn(end, after, j))
      && (StillOpen(cfg, db, events, i) && later <= deadline && csrf.Some? && csrf != Some(i.csrfToken) ==>
        outcome == Refused(CsrfMismatch) && after == end)
  {
    hide Run, StillOpen, Ordered, LastTime;
    OpenUntilClosed(cfg, db, now, events, i, deadline, later);
    TimePasses(events, now);
    var end := Run(cfg, db, events);
    if StillOpen(cfg, db, events, i) && later <= deadline {
      OpenIsExchanged(cfg, end, later, i, deadline, csrf, delay);
    } else if StillOpen(cfg, db, events, i) {
      LateIsRefused(cfg, end, later, i, deadline, csrf, delay);
    } else {
      ClosedIsRefused(cfg, end, later, i, deadline, csrf, delay);
    }
  }

  /** A login gives such a pair, in a session and a family of its own. */
  lemma LoginOpensPair(cfg: Config, db: Db, now: int, user: Id, delay: nat)
    requires Linked(db)
    ensures var (after, i) := StartSession(cfg, db, now, user, delay);
      && Open(after, i, now + cfg.refreshTtl) && i.user == user && Drawn(db, after, i)
      && i.session !in db.sessions && (forall k <- db.tokens :: db.tokens[k].family != i.family)
      && i.refreshExpires == now + cfg.refreshTtl && i.accessExpires == now + delay + cfg.accessTtl
  {
  }

  /** Who is in good standing is what was last said of them. */
  function Standing(users: map<Id, User>, events: seq<Event>): map<Id, User>
    decreases events
  {
    if events == [] then users
    else
      var r := events[0].request;
      Standing(if r.SetUser? then users[r.user := r.status] else users, events[1..])
  }

  lemma {:induction false} UsersAreAsSet(cfg: Config, db: Db, events: seq<Event>)
    ensures Run(cfg, db, events).users == Standing(db.users, events)
    decreases events
  {
    if events != [] {
      UsersAfter(cfg, db, events[0].now, events[0].request);
      hide Step;
      UsersAreAsSet(cfg, Step(cfg, db, events[0].now, events[0].request).0, events[1..]);
    }
  }

  lemma UsersAfter(cfg: Config, db: Db, now: int, r: Request)
    ensures Step(cfg, db, now, r).0.users == if r.SetUser? then db.users[r.user := r.status] else db.users
  {
  }

  // ---- which refusal ----------------------------------------------------------

  /** The reason is true of the stored rows. */
  predicate Applies(db: Db, now: int, raw: Id, csrf: Option<Id>, reason: Refusal) {
    if reason.UnknownToken? then raw !in db.tokens
    else
      raw in db.tokens &&
      var t := db.tokens[raw];
      match reason
      case TokenReused => t.used.Some?
      case TokenRevoked => t.revoked.Some?
      case TokenExpired => t.expires < now
      case CsrfMismatch => csrf.Some? && csrf != Some(t.csrf)
      case SessionEnded => t.session in db.sessions ==> db.sessions[t.session].revoked.Some?
      case SessionExpired => t.session in db.sessions && db.sessions[t.session].expires < now
      case AccountInactive => t.user in db.users ==> !db.users[t.user].active || db.users[t.user].deleted
      case _ => t.user in db.users && db.users[t.user].banned
  }

  function Place(reason: Refusal): nat {
    match reason
    case UnknownToken => 0
    case TokenReused => 1
    case TokenRevoked => 2
    case TokenExpired => 3
    case CsrfMismatch => 4
    case SessionEnded => 5
    case SessionExpired => 6
    case AccountInactive => 7
    case AccountBanned => 8
  }

  /** A refusal gives the first reason that applies, and a request is granted exactly when none does. */
  lemma RefusalIsFirstThatApplies(cfg: Config, db: Db, now: int, raw: Id, csrf: Option<Id>, delay: nat)
    ensures match Step(cfg, db, now, Refresh(raw, csrf, delay)).1
      case Refused(reason) => Applies(db, now, raw, csrf, reason)
        && forall r :: Place(r) < Place(reason) ==> !Applies(db, now, raw, csrf, r)
      case Granted(_) => forall r :: !Applies(db, now, raw, csrf, r)
      case Done => false
  {
    var outcome := Step(cfg, db, now, Refresh(raw, csrf, delay)).1;
    forall r | outcome.Refused? && Place(r) < Place(outcome.reason) ensures !Applies(db, now, raw, csrf, r) {
      match r case _ =>
    }
    forall r | outcome.Granted? ensures !Applies(db, now, raw, csrf, r) {
      match r case _ =>
    }
  }
}
