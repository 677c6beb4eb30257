/**
  Exactly when a sign-in or a reset link works, told from the history since the account
  was last cleared or the link was sent.
*/
module AccountUse {
  import opened Arith
  import opened Options
  import opened AccountModel

  // ---- reset links ------------------------------------------------------------

  /** The link's row is as it was sent, but for its use. */
  ghost predicate IsLink(db: Db, raw: Id, email: Id, expires: int) {
    raw < db.next && raw in db.resets && db.resets[raw].email == email && db.resets[raw].expires == expires
  }

  predicate Uses(cfg: Config, db: Db, r: Request, raw: Id) {
    r.ResetPassword? && r.raw == raw && Step(cfg, db, r).1.PasswordSet?
  }

  /** No request of the run has set a password with the link. */
  predicate Unused(cfg: Config, db: Db, requests: seq<Request>, raw: Id)
    decreases requests
  {
    requests == [] || (!Uses(cfg, db, requests[0], raw) && Unused(cfg, Step(cfg, db, requests[0]).0, requests[1..], raw))
  }

  lemma StepKeepsLink(cfg: Config, db: Db, r: Request, raw: Id, email: Id, expires: int)
    requires IsLink(db, raw, email, expires)
    ensures var after := Step(cfg, db, r).0;
      && IsLink(after, raw, email, expires)
      && (after.resets[raw].used.Some? <==> db.resets[raw].used.Some? || Uses(cfg, db, r, raw))
  {
  }

  lemma {:induction false} LinkIsUsedExactly(cfg: Config, db: Db, requests: seq<Request>, raw: Id, email: Id, expires: int)
    requires IsLink(db, raw, email, expires)
    ensures var end := Run(cfg, db, requests);
      && IsLink(end, raw, email, expires)
      && (end.resets[raw].used.Some? <==> db.resets[raw].used.Some? || !Unused(cfg, db, requests, raw))
    decreases requests
  {
    hide Step, Uses;
    if requests != [] {
      StepKeepsLink(cfg, db, requests[0], raw, email, expires);
      LinkIsUsedExactly(cfg, Step(cfg, db, requests[0]).0, requests[1..], raw, email, expires);
    }
  }

  predicate Present(db: Db, email: Id) { email in db.accounts && !db.accounts[email].deleted }

  /**
    A link sent to an account sets its password at a later moment if and only if it has
    not set one since, is not past its lifetime, and the account is not deleted; any
    other time it is refused and changes nothing.
  */
  lemma LinkWorksExactly(cfg: Config, db: Db, email: Id, sent: int, requests: seq<Request>, raw: Id, password: Id, later: int)
    requires Step(cfg, db, RequestReset(email, sent)).1 == LinkSent(raw)
    ensures var end := Run(cfg, Step(cfg, db, RequestReset(email, sent)).0, requests);
      var (after, outcome) := Step(cfg, end, ResetPassword(raw, password, later));
      && (outcome == PasswordSet <==>
        && Unused(cfg, Step(cfg, db, RequestReset(email, sent)).0, requests, raw)
        && later <= sent + cfg.resetTtl && Present(end, email))
      && (outcome != PasswordSet ==> outcome.Refused? && after == end)
  {
    hide Run, Unused;
    var linked := Step(cfg, db, RequestReset(email, sent)).0;
    LinkIsUsedExactly(cfg, linked, requests, raw, email, sent + cfg.resetTtl);
  }

  /** A link that has set a password never sets one again. */
  lemma LinkWorksOnce(cfg: Config, db: Db, raw: Id, password: Id, now: int, requests: seq<Request>, again: Id, later: int)
    requires raw < db.next && Step(cfg, db, ResetPassword(raw, password, now)).1 == PasswordSet
    ensures var end := Run(cfg, Step(cfg, db, ResetPassword(raw, password, now)).0, requests);
      Step(cfg, end, ResetPassword(raw, again, later)) == (end, Refused(InvalidLink))
  {
    hide Run, Unused;
    var used := Step(cfg, db, ResetPassword(raw, password, now)).0;
    LinkIsUsedExactly(cfg, used, requests, raw, used.resets[raw].email, used.resets[raw].expires);
  }

  /** A link is sent exactly to a present and active account, and nothing else changes. */
  lemma LinkIsSentExactly(cfg: Config, db: Db, email: Id, now: int)
    ensures var (after, outcome) := Step(cfg, db, RequestReset(email, now));
      && (outcome.LinkSent? <==> Present(db, email) && db.accounts[email].active)
      && after.accounts == db.accounts && (!outcome.LinkSent? ==> after == db)
      && (outcome.LinkSent? ==>
        after.resets == db.resets[outcome.raw := ResetToken(email, now + cfg.resetTtl, None)] && after.next == db.next + 1)
  {
  }

  // ---- signing in -------------------------------------------------------------

  /** The reason is true of the stored account. */
  predicate Applies(db: Db, email: Id, password: Id, checked: int, reason: Refusal) {
    if reason.Unknown? then !Present(db, email)
    else
      email in db.accounts &&
      var a := db.accounts[email];
      match reason
      case Locked => a.lockedUntil.Some? && checked < a.lockedUntil.value
      case Banned => a.banned
      case NoPassword => a.password.None?
      case WrongPassword => a.password != Some(password)
      case Inactive => !a.active
      case _ => false
  }

  function Place(reason: Refusal): nat {
    match reason
    case Unknown => 0
    case Locked => 1
    case Banned => 2
    case NoPassword => 3
    case WrongPassword => 4
    case Inactive => 5
    case _ => 6
  }

  /** A sign-in is refused for the first reason that applies, and succeeds exactly when none does. */
  lemma RefusalIsFirstThatApplies(cfg: Config, db: Db, email: Id, password: Id, checked: int, recorded: int)
    ensures match Step(cfg, db, SignIn(email, password, checked, recorded)).1
      case Refused(reason) => Applies(db, email, password, checked, reason)
        && forall r :: Place(r) < Place(reason) ==> !Applies(db, email, password, checked, r)
      case SignedIn => forall r :: !Applies(db, email, password, checked, r)
      case _ => false
  {
    var outcome := Step(cfg, db, SignIn(email, password, checked, recorded)).1;
    forall r | outcome.Refused? && Place(r) < Place(outcome.reason) ensures !Applies(db, email, password, checked, r) {
      match r case _ =>
    }
    forall r | outcome.SignedIn? ensures !Applies(db, email, password, checked, r) {
      match r case _ =>
    }
  }

  /** Right after a reset the new password signs in to an active account, whatever its lock and count were, and no other does. */
  lemma ResetPasswordSignsIn(cfg: Config, db: Db, raw: Id, password: Id, now: int, tried: Id, checked: int, recorded: int)
    requires Step(cfg, db, ResetPassword(raw, password, now)).1 == PasswordSet
    ensures var after := Step(cfg, db, ResetPassword(raw, password, now)).0;
      var email := db.resets[raw].email;
      var a, outcome := after.accounts[email], Step(cfg, after, SignIn(email, tried, checked, recorded)).1;
      && (outcome == SignedIn <==> tried == password && a.active && !a.banned)
      && (tried != password && !a.banned ==> outcome == Refused(WrongPassword))
      && a == db.accounts[email].(password := Some(password), failed := 0, lockedUntil := None)
      && after.accounts.Keys == db.accounts.Keys
      && forall k <- db.accounts :: k != email ==> after.accounts[k] == db.accounts[k]
  {
  }

  // ---- the lock ---------------------------------------------------------------

  /** n wrong passwords one after another at one moment. */
  function Wrong(email: Id, password: Id, now: int, n: nat): seq<Request> {
    if n == 0 then [] else [SignIn(email, password, now, now)] + Wrong(email, password, now, n - 1)
  }

  /** An account in good standing with a cleared count. */
  predicate Ready(db: Db, email: Id, right: Id) {
    Present(db, email) &&
    var a := db.accounts[email];
    a.active && !a.banned && a.password == Some(right)
  }

  lemma {:induction false} WrongPasswordsCount(cfg: Config, db: Db, email: Id, right: Id, wrong: Id, now: int, n: nat)
    requires !cfg.rollbackOnRaise && 0 < cfg.lockout && wrong != right && Ready(db, email, right) && db.accounts[email].lockedUntil.None?
    ensures var end := Run(cfg, db, Wrong(email, wrong, now, n));
      && Ready(end, email, right)
      && var left := Max(1, cfg.maxAttempts - db.accounts[email].failed);
      end.accounts[email].failed == db.accounts[email].failed + Min(n, left)
      && end.accounts[email].lockedUntil == if n < left then None else Some(now + cfg.lockout)
    decreases n
  {
    if n != 0 {
      var r := SignIn(email, wrong, now, now);
      var after := Step(cfg, db, r).0;
      assert Wrong(email, wrong, now, n)[1..] == Wrong(email, wrong, now, n - 1);
      assert Ready(after, email, right) && after.accounts[email].failed == db.accounts[email].failed + 1;
      if after.accounts[email].lockedUntil.None? {
        WrongPasswordsCount(cfg, after, email, right, wrong, now, n - 1);
      } else {
        LockedStays(cfg, after, email, wrong, now, n - 1);
      }
    }
  }

  lemma {:induction false} LockedStays(cfg: Config, db: Db, email: Id, wrong: Id, now: int, n: nat)
    requires Present(db, email) && IsLocked(db.accounts[email], now)
    ensures Run(cfg, db, Wrong(email, wrong, now, n)) == db
    decreases n
  {
    if n != 0 {
      assert Wrong(email, wrong, now, n)[1..] == Wrong(email, wrong, now, n - 1);
      LockedStays(cfg, db, email, wrong, now, n - 1);
    }
  }

  /**
    After n wrong passwords in a row on a cleared account, the right one signs in if and
    only if they were fewer than max_attempts (at least one), or the lockout has passed.
  */
  lemma RightPasswordWorksExactly(cfg: Config, db: Db, email: Id, right: Id, wrong: Id, now: int, n: nat, checked: int, recorded: int)
    requires !cfg.rollbackOnRaise && 0 < cfg.lockout && wrong != right && Ready(db, email, right)
    requires db.accounts[email].lockedUntil.None? && db.accounts[email].failed == 0
    ensures var end := Run(cfg, db, Wrong(email, wrong, now, n));
      var (after, outcome) := Step(cfg, end, SignIn(email, right, checked, recorded));
      && (outcome == SignedIn <==> n < Max(1, cfg.maxAttempts) || now + cfg.lockout <= checked)
      && (outcome == SignedIn ==>
        && after.accounts[email] == db.accounts[email].(failed := 0, lockedUntil := None, lastLogin := Some(recorded))
        && after.resets == db.resets)
      && (outcome != SignedIn ==> outcome == Refused(Locked) && after == end)
  {
    hide Run;
    WrongPasswordsCount(cfg, db, email, right, wrong, now, n);
    OthersStay(cfg, db, email, wrong, now, n);
  }

  /** Failures touch the count and the lock of the one account alone. */
  lemma {:induction false} OthersStay(cfg: Config, db: Db, email: Id, wrong: Id, now: int, n: nat)
    ensures var end := Run(cfg, db, Wrong(email, wrong, now, n));
      && end.accounts.Keys == db.accounts.Keys && end.resets == db.resets
      && (forall k <- db.accounts :: k != email ==> end.accounts[k] == db.accounts[k])
      && (email in db.accounts && db.accounts[email].password != Some(wrong) ==>
        end.accounts[email].(failed := 0, lockedUntil := None) == db.accounts[email].(failed := 0, lockedUntil := None))
    decreases n
  {
    if n != 0 {
      var after := Step(cfg, db, SignIn(email, wrong, now, now)).0;
      assert Wrong(email, wrong, now, n)[1..] == Wrong(email, wrong, now, n - 1);
      OthersStay(cfg, after, email, wrong, now, n - 1);
    }
  }

  /** And a reset gives the whole allowance of wrong passwords back. */
  lemma ResetRestoresAllowance(cfg: Config, db: Db, raw: Id, password: Id, now: int, wrong: Id, n: nat, checked: int, recorded: int)
    requires !cfg.rollbackOnRaise && 0 < cfg.lockout && wrong != password
    requires Step(cfg, db, ResetPassword(raw, password, now)).1 == PasswordSet
    requires var a := db.accounts[db.resets[raw].email]; a.active && !a.banned
    ensures var email := db.resets[raw].email;
      var end := Run(cfg, Step(cfg, db, ResetPassword(raw, password, now)).0, Wrong(email, wrong, now, n));
      var outcome := Step(cfg, end, SignIn(email, password, checked, recorded)).1;
      outcome == SignedIn <==> n < Max(1, cfg.maxAttempts) || now + cfg.lockout <= checked
  {
    hide Run, Wrong;
    var after := Step(cfg, db, ResetPassword(raw, password, now)).0;
    RightPasswordWorksExactly(cfg, after, db.resets[raw].email, password, wrong, now, n, checked, recorded);
  }

  /** An account's status is what was last set, and setting it changes nothing else. */
  lemma StatusIsSet(cfg: Config, db: Db, email: Id, active: bool, deleted: bool, banned: bool, now: int)
    requires email in db.accounts
    ensures var after := Step(cfg, db, SetStatus(email, active, deleted, banned, now)).0;
      after == db.(accounts := db.accounts[email := after.accounts[email]])
      && after.accounts[email] == db.accounts[email].(active := active, deleted := deleted, banned := banned)
  {
  }
}
