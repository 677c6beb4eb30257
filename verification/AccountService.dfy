/** `AccountService`, updating the stored accounts and reset links in place. */
module AccountService {
  import opened Options
  import opened AccountModel

  class AccountService {
    const cfg: Config
    var accounts: map<Id, Account>
    var resets: map<Id, ResetToken>
    var next: Id

    constructor (cfg: Config, accounts: map<Id, Account>)
      ensures this.cfg == cfg && Rows() == Db(accounts, map[], 0)
    {
      this.cfg, this.accounts := cfg, accounts;
      resets, next := map[], 0;
    }

    function Rows(): Db
      reads this
    {
      Db(accounts, resets, next)
    }

    method Authenticate(email: Id, password: Id, checked: int, recorded: int) returns (outcome: Outcome)
      modifies this`accounts
      ensures (Rows(), outcome) == AccountModel.Authenticate(cfg, old(Rows()), email, password, checked, recorded)
    {
      if email !in accounts || accounts[email].deleted { return Refused(Unknown); }
      var user := accounts[email];
      if user.lockedUntil.Some? && user.lockedUntil.value > checked { return Refused(Locked); }
      if user.banned { return Refused(Banned); }
      if user.password.None? { return Refused(NoPassword); }
      if user.password.value != password {
        RegisterFailedAttempt(email, recorded);
        return Refused(WrongPassword);
      }
      if !user.active { return Refused(Inactive); }
      accounts := accounts[email := user.(failed := 0, lockedUntil := None, lastLogin := Some(recorded))];
      outcome := SignedIn;
    }

    method RegisterFailedAttempt(email: Id, now: int)
      requires email in accounts
      modifies this`accounts
      ensures accounts == old(accounts)[email := RegisterFailure(cfg, old(accounts)[email], now)]
    {
      var user := accounts[email];
      user := user.(failed := user.failed + 1);
      if user.failed >= cfg.maxAttempts {
        user := user.(lockedUntil := Some(now + cfg.lockout));
      }
      accounts := accounts[email := user];
    }

    /** One sign-in request: the session dependency rolls everything back when the handler raises. */
    method SignIn(email: Id, password: Id, checked: int, recorded: int) returns (outcome: Outcome)
      modifies this
      ensures (Rows(), outcome) == Step(cfg, old(Rows()), Request.SignIn(email, password, checked, recorded))
    {
      var begin := accounts;
      outcome := Authenticate(email, password, checked, recorded);
      if outcome.Refused? && cfg.rollbackOnRaise {
        accounts := begin;
      }
    }

    /** Sets a new password against an unused link, and unlocks the account. */
    method ResetPassword(raw: Id, password: Id, now: int) returns (outcome: Outcome)
      modifies this`accounts, this`resets
      ensures (Rows(), outcome) == Step(cfg, old(Rows()), Request.ResetPassword(raw, password, now))
    {
      if raw !in resets || resets[raw].used.Some? || resets[raw].expires < now { return Refused(InvalidLink); }
      var email := resets[raw].email;
      if email !in accounts || accounts[email].deleted { return Refused(UserNotFound); }
      resets := resets[raw := resets[raw].(used := Some(now))];
      accounts := accounts[email := accounts[email].(password := Some(password), failed := 0, lockedUntil := None)];
      outcome := PasswordSet;
    }
  }
}
