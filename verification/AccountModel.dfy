/**
  Password sign-in with account lockout, and password reset. Accounts are keyed by their
  normalised e-mail address; a password matches when it is the one that was stored.
  A sign-in reads the clock twice: when it looks at the lock, and, after the slow
  password check, when it records a failure.
*/
module AccountModel {
  import opened Options

  type Id = nat

  datatype Config = Config(
    maxAttempts: int,
    lockout: int,
    resetTtl: int,
    /** True when the caller's transaction is rolled back by a raised error. */
    rollbackOnRaise: bool)

  datatype Account = Account(
    password: Option<Id>, active: bool, deleted: bool, banned: bool,
    failed: nat, lockedUntil: Option<int>, lastLogin: Option<int>)

  datatype ResetToken = ResetToken(email: Id, expires: int, used: Option<int>)

  datatype Db = Db(accounts: map<Id, Account>, resets: map<Id, ResetToken>, next: Id)

  datatype Refusal = Unknown | Locked | Banned | NoPassword | WrongPassword | Inactive | InvalidLink | UserNotFound

  datatype Outcome = SignedIn | PasswordSet | LinkSent(raw: Id) | Refused(reason: Refusal) | Done

  datatype Request =
    | SignIn(email: Id, password: Id, checked: int, recorded: int)
    | RequestReset(email: Id, now: int)
    | ResetPassword(raw: Id, password: Id, now: int)
    | SetStatus(email: Id, active: bool, deleted: bool, banned: bool, now: int)

  predicate IsLocked(a: Account, now: int) {
    a.lockedUntil.Some? && a.lockedUntil.value > now
  }

  /** Why a sign-in is turned away, in the order the checks are made; None when it is let in. */
  function Objection(db: Db, email: Id, password: Id, checked: int): Option<Refusal> {
    if email !in db.accounts || db.accounts[email].deleted then Some(Unknown)
    else
      var a := db.accounts[email];
      if IsLocked(a, checked) then Some(Locked)
      else if a.banned then Some(Banned)
      else if a.password.None? then Some(NoPassword)
      else if a.password.value != password then Some(WrongPassword)
      else if !a.active then Some(Inactive)
      else None
  }

  function RegisterFailure(cfg: Config, a: Account, now: int): Account {
    a.(failed := a.failed + 1,
       lockedUntil := if a.failed + 1 >= cfg.maxAttempts then Some(now + cfg.lockout) else a.lockedUntil)
  }

  function Authenticate(cfg: Config, db: Db, email: Id, password: Id, checked: int, recorded: int): (Db, Outcome) {
    match Objection(db, email, password, checked)
    case Some(WrongPassword) =>
      (if email in db.accounts
       then db.(accounts := db.accounts[email := RegisterFailure(cfg, db.accounts[email], recorded)]) else db,
       Refused(WrongPassword))
    case Some(reason) => (db, Refused(reason))
    case None =>
      (if email in db.accounts
       then db.(accounts := db.accounts[email :=
         db.accounts[email].(failed := 0, lockedUntil := None, lastLogin := Some(recorded))]) else db,
       SignedIn)
  }

  function Reset(cfg: Config, db: Db, raw: Id, password: Id, now: int): (Db, Outcome) {
    if raw !in db.resets || db.resets[raw].used.Some? || db.resets[raw].expires < now then (db, Refused(InvalidLink))
    else
      var email := db.resets[raw].email;
      if email !in db.accounts || db.accounts[email].deleted then (db, Refused(UserNotFound))
      else
        (db.(accounts := db.accounts[email :=
               db.accounts[email].(password := Some(password), failed := 0, lockedUntil := None)],
             resets := db.resets[raw := db.resets[raw].(used := Some(now))]),
         PasswordSet)
  }

  function Handle(cfg: Config, db: Db, request: Request): (Db, Outcome) {
    match request
    case SignIn(email, password, checked, recorded) => Authenticate(cfg, db, email, password, checked, recorded)
    case RequestReset(email, now) =>
      if email !in db.accounts || db.accounts[email].deleted || !db.accounts[email].active then (db, Done)
      else (db.(resets := db.resets[db.next := ResetToken(email, now + cfg.resetTtl, None)], next := db.next + 1), LinkSent(db.next))
    case ResetPassword(raw, password, now) => Reset(cfg, db, raw, password, now)
    case SetStatus(email, active, deleted, banned, _) =>
      (if email in db.accounts
       then db.(accounts := db.accounts[email := db.accounts[email].(active := active, deleted := deleted, banned := banned)])
       else db, Done)
  }

  /** One request: the effects of a refused one survive only without rollback. */
  function Step(cfg: Config, db: Db, request: Request): (Db, Outcome) {
    var (after, outcome) := Handle(cfg, db, request);
    if outcome.Refused? && cfg.rollbackOnRaise then (db, outcome) else (after, outcome)
  }

  function Begins(request: Request): int {
    if request.SignIn? then request.checked else request.now
  }

  function Ends(request: Request): int {
    if request.SignIn? then request.recorded else request.now
  }

  /** Requests one after another on a clock that never runs backwards. */
  predicate Ordered(requests: seq<Request>, now: int) {
    requests == [] || (now <= Begins(requests[0]) <= Ends(requests[0]) && Ordered(requests[1..], Ends(requests[0])))
  }

  function Run(cfg: Config, db: Db, requests: seq<Request>): Db
    decreases requests
  {
    if requests == [] then db else Run(cfg, Step(cfg, db, requests[0]).0, requests[1..])
  }
}
