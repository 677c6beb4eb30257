/**
  The auth service's `sessions` and `refresh_tokens` tables and the operations on
  them, as pure state transformers: login, rotation with reuse detection, the three
  revocation calls, and the retention sweep.

  A token row is keyed by its secret (the stored hash is taken as injective), ids
  are drawn from a counter (they are never repeated), and one operation reads the clock
  once for its rows and once more, `delay` later, for the access token it mints.
*/
module TokenModel {
  import opened Options

  type Id = nat

  datatype Config = Config(
    refreshTtl: nat,
    accessTtl: nat,
    /** Seconds; a plain integer setting, so nothing rules out a negative value. */
    retention: int,
    /** True when the caller's transaction is rolled back by a raised error. */
    rollbackOnRaise: bool)

  datatype Token = Token(
    user: Id, session: Id, family: Id, parent: Option<Id>, csrf: Id,
    created: int, expires: int, used: Option<int>, revoked: Option<int>)

  datatype Session = Session(user: Id, created: int, lastSeen: int, expires: int, revoked: Option<int>)

  datatype User = User(active: bool, deleted: bool, banned: bool)

  datatype Db = Db(tokens: map<Id, Token>, sessions: map<Id, Session>, users: map<Id, User>, next: Id)

  datatype Refusal =
    | UnknownToken | TokenReused | TokenRevoked | TokenExpired | CsrfMismatch
    | SessionEnded | SessionExpired | AccountInactive | AccountBanned

  datatype Issued = Issued(
    user: Id, session: Id, family: Id, refreshToken: Id, csrfToken: Id, refreshExpires: int, accessExpires: int)

  datatype Outcome = Granted(issued: Issued) | Refused(reason: Refusal) | Done

  datatype Request =
    | Login(user: Id, delay: nat)
    | Refresh(raw: Id, csrf: Option<Id>, delay: nat)
    | RevokeFamily(family: Id)
    | RevokeSession(session: Id)
    | RevokeAll(user: Id)
    | SetUser(user: Id, status: User)
    | Sweep

  // ---- issuing ----------------------------------------------------------------

  /** Inserts the next token of a family; the access token is minted a little later. */
  function IssuePair(cfg: Config, db: Db, now: int, user: Id, session: Id, family: Id, parent: Option<Id>, delay: nat): (Db, Issued) {
    var key, csrf := db.next, db.next + 1;
    var row := Token(user, session, family, parent, csrf, now, now + cfg.refreshTtl, None, None);
    (db.(tokens := db.tokens[key := row], next := db.next + 2),
     Issued(user, session, family, key, csrf, now + cfg.refreshTtl, now + delay + cfg.accessTtl))
  }

  /** A new session, and a new family for it. */
  function StartSession(cfg: Config, db: Db, now: int, user: Id, delay: nat): (Db, Issued) {
    var sid, family := db.next, db.next + 1;
    var row := Session(user, now, now, now + cfg.refreshTtl, None);
    IssuePair(cfg, db.(sessions := db.sessions[sid := row], next := db.next + 2), now, user, sid, family, None, delay)
  }

  // ---- revoking ---------------------------------------------------------------

  function Stamp(t: Token, now: int): Token {
    if t.revoked.None? then t.(revoked := Some(now)) else t
  }

  function RevokeFamilyRows(db: Db, family: Id, now: int): Db {
    db.(tokens := map k | k in db.tokens ::
      if db.tokens[k].family == family then Stamp(db.tokens[k], now) else db.tokens[k])
  }

  function StampSession(s: Session, now: int): Session {
    if s.revoked.None? then s.(revoked := Some(now)) else s
  }

  function RevokeSessionRows(db: Db, session: Id, now: int): Db {
    db.(sessions := map k | k in db.sessions ::
          if k == session then StampSession(db.sessions[k], now) else db.sessions[k],
        tokens := map k | k in db.tokens ::
          if db.tokens[k].session == session then Stamp(db.tokens[k], now) else db.tokens[k])
  }

  function RevokeUserRows(db: Db, user: Id, now: int): Db {
    db.(sessions := map k | k in db.sessions ::
          if db.sessions[k].user == user then StampSession(db.sessions[k], now) else db.sessions[k],
        tokens := map k | k in db.tokens ::
          if db.tokens[k].user == user then Stamp(db.tokens[k], now) else db.tokens[k])
  }

  // ---- rotation ---------------------------------------------------------------

  /** Why a stored token cannot be exchanged, in the order the checks are made; None when it can. */
  function Objection(db: Db, now: int, raw: Id, csrf: Option<Id>): Option<Refusal>
    requires raw in db.tokens
  {
    var t := db.tokens[raw];
    if t.used.Some? then Some(TokenReused)
    else if t.revoked.Some? then Some(TokenRevoked)
    else if t.expires < now then Some(TokenExpired)
    else if csrf.Some? && csrf.value != t.csrf then Some(CsrfMismatch)
    else if t.session !in db.sessions || db.sessions[t.session].revoked.Some? then Some(SessionEnded)
    else if db.sessions[t.session].expires < now then Some(SessionExpired)
    else if t.user !in db.users || !db.users[t.user].active || db.users[t.user].deleted then Some(AccountInactive)
    else if db.users[t.user].banned then Some(AccountBanned)
    else None
  }

  /** Consumes a token and issues its successor; a replay revokes the whole family. */
  function Rotate(cfg: Config, db: Db, now: int, raw: Id, csrf: Option<Id>, delay: nat): (Db, Outcome) {
    if raw !in db.tokens then (db, Refused(UnknownToken))
    else
      var t := db.tokens[raw];
      match Objection(db, now, raw, csrf)
      case Some(TokenReused) => (RevokeFamilyRows(db, t.family, now), Refused(TokenReused))
      case Some(reason) => (db, Refused(reason))
      case None =>
        var consumed := db.(
          tokens := db.tokens[raw := t.(used := Some(now))],
          sessions := db.sessions[t.session := db.sessions[t.session].(lastSeen := now)]);
        var (after, issued) := IssuePair(cfg, consumed, now, t.user, t.session, t.family, Some(raw), delay);
        (after, Granted(issued))
  }

  /** The rotation as one request: the effects of a refused one survive only without rollback. */
  function RefreshRequest(cfg: Config, db: Db, now: int, raw: Id, csrf: Option<Id>, delay: nat): (Db, Outcome) {
    var (after, outcome) := Rotate(cfg, db, now, raw, csrf, delay);
    if outcome.Refused? && cfg.rollbackOnRaise then (db, outcome) else (after, outcome)
  }

  // ---- retention --------------------------------------------------------------

  predicate TokenDue(t: Token, cutoff: int) {
    (t.expires < cutoff || t.revoked.Some?) && t.created < cutoff
  }

  predicate SessionDue(s: Session, cutoff: int) {
    s.expires < cutoff && s.created < cutoff
  }

  /** A token outlives the sweep when neither it nor (by cascade) its session is due. */
  predicate Survives(db: Db, key: Id, cutoff: int)
    requires key in db.tokens
  {
    var t := db.tokens[key];
    !TokenDue(t, cutoff) && !(t.session in db.sessions && SessionDue(db.sessions[t.session], cutoff))
  }

  function KeptParent(db: Db, parent: Option<Id>, cutoff: int): Option<Id> {
    if parent.Some? && parent.value in db.tokens && Survives(db, parent.value, cutoff) then parent else None
  }

  function SweepRows(db: Db, cutoff: int): Db {
    db.(tokens := map k | k in db.tokens && Survives(db, k, cutoff) ::
          db.tokens[k].(parent := KeptParent(db, db.tokens[k].parent, cutoff)),
        sessions := map k | k in db.sessions && !SessionDue(db.sessions[k], cutoff) :: db.sessions[k])
  }

  // ---- runs -------------------------------------------------------------------

  function Step(cfg: Config, db: Db, now: int, request: Request): (Db, Outcome) {
    match request
    case Login(user, delay) => var (after, issued) := StartSession(cfg, db, now, user, delay); (after, Granted(issued))
    case Refresh(raw, csrf, delay) => RefreshRequest(cfg, db, now, raw, csrf, delay)
    case RevokeFamily(family) => (RevokeFamilyRows(db, family, now), Done)
    case RevokeSession(session) => (RevokeSessionRows(db, session, now), Done)
    case RevokeAll(user) => (RevokeUserRows(db, user, now), Done)
    case SetUser(user, status) => (db.(users := db.users[user := status]), Done)
    case Sweep => (SweepRows(db, now - cfg.retention), Done)
  }

  datatype Event = Event(now: int, request: Request)

  /** The clock never runs backwards, starting from `now`. */
  predicate Ordered(events: seq<Event>, now: int) {
    events == [] || (now <= events[0].now && Ordered(events[1..], events[0].now))
  }

  function LastTime(events: seq<Event>, now: int): int {
    if events == [] then now else LastTime(events[1..], events[0].now)
  }

  function Run(cfg: Config, db: Db, events: seq<Event>): Db
    decreases events
  {
    if events == [] then db
    else Run(cfg, Step(cfg, db, events[0].now, events[0].request).0, events[1..])
  }

  /** Everything the callers other than the sweep were given, in order; a refusal grants nothing. */
  function Grants(cfg: Config, db: Db, events: seq<Event>): seq<Option<Issued>>
    decreases events
  {
    if events == [] then []
    else
      var (after, outcome) := Step(cfg, db, events[0].now, events[0].request);
      var rest := Grants(cfg, after, events[1..]);
      if events[0].request.Sweep? then rest
      else [if outcome.Granted? then Some(outcome.issued) else None] + rest
  }

  function Empty(users: map<Id, User>): Db {
    Db(map[], map[], users, 0)
  }
}
