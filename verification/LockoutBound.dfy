/**
  How many wrong passwords can be tried on one account in a window of time, and when
  that is bounded at all.
*/
module LockoutBound {
  import opened Arith
  import opened Options
  import opened AccountModel

  /** The request is a sign-in to the account whose password was checked and found wrong. */
  predicate Fails(cfg: Config, db: Db, email: Id, request: Request) {
    request.SignIn? && request.email == email && Step(cfg, db, request).1 == Refused(WrongPassword)
  }

  /** The request clears the account's failure count. */
  predicate Clears(cfg: Config, db: Db, email: Id, request: Request) {
    || (request.SignIn? && request.email == email && Step(cfg, db, request).1.SignedIn?)
    || (request.ResetPassword? && request.raw in db.resets && db.resets[request.raw].email == email
      && Step(cfg, db, request).1.PasswordSet?)
  }

  /** Failed password checks recorded between lo and hi. */
  function Failures(cfg: Config, db: Db, email: Id, requests: seq<Request>, lo: int, hi: int): nat
    decreases requests
  {
    if requests == [] then 0
    else
      var r := requests[0];
      (if Fails(cfg, db, email, r) && lo <= r.recorded <= hi then 1 else 0)
      + Failures(cfg, Step(cfg, db, r).0, email, requests[1..], lo, hi)
  }

  /** No sign-in to the account succeeds and its password is not reset. */
  predicate Unbroken(cfg: Config, db: Db, email: Id, requests: seq<Request>)
    decreases requests
  {
    requests == [] ||
    (!Clears(cfg, db, email, requests[0]) && Unbroken(cfg, Step(cfg, db, requests[0]).0, email, requests[1..]))
  }

  /** Failures still allowed before one that locks. */
  function Free(cfg: Config, a: Account): nat { Max(0, cfg.maxAttempts - 1 - a.failed) }

  /** The earliest time in the window at which a failure can be recorded. */
  function Earliest(a: Account, now: int, lo: int): int {
    Max(lo, if a.lockedUntil.Some? then Max(now, a.lockedUntil.value) else now)
  }

  /** Failures spaced a lockout apart that fit between s and hi. */
  function Fit(lockout: int, s: int, hi: int): nat
    requires lockout > 0
  {
    if s <= hi then 1 + (hi - s) / lockout else 0
  }

  lemma FitShrinks(lockout: int, s: int, t: int, hi: int)
    requires lockout > 0 && s <= t
    ensures Fit(lockout, t, hi) <= Fit(lockout, s, hi)
    ensures s <= hi && s + lockout <= t ==> Fit(lockout, t, hi) + 1 <= Fit(lockout, s, hi)
  {
    if t <= hi {
      Monotone(hi - t, hi - s, lockout);
      if s + lockout <= t { Apart(hi - t, hi - s, lockout); }
    }
  }

  function Potential(cfg: Config, db: Db, email: Id, now: int, lo: int, hi: int): nat
    requires cfg.lockout > 0
  {
    if email !in db.accounts then 0
    else Free(cfg, db.accounts[email]) + Fit(cfg.lockout, Earliest(db.accounts[email], now, lo), hi)
  }

  lemma StepSpendsPotential(cfg: Config, db: Db, email: Id, now: int, lo: int, hi: int, r: Request)
    requires cfg.lockout > 0 && !cfg.rollbackOnRaise && now <= Begins(r) <= Ends(r) && !Clears(cfg, db, email, r)
    ensures Potential(cfg, Step(cfg, db, r).0, email, Ends(r), lo, hi)
      + (if Fails(cfg, db, email, r) && lo <= r.recorded <= hi then 1 else 0)
      <= Potential(cfg, db, email, now, lo, hi)
  {
    hide Fit;
    var after := Step(cfg, db, r).0;
    if email in db.accounts {
      var a, b := db.accounts[email], after.accounts[email];
      FitShrinks(cfg.lockout, Earliest(a, now, lo), Earliest(b, Ends(r), lo), hi);
    }
  }

  lemma {:induction false} FailuresSpendPotential(cfg: Config, db: Db, email: Id, now: int, requests: seq<Request>, lo: int, hi: int)
    requires cfg.lockout > 0 && !cfg.rollbackOnRaise && Ordered(requests, now) && Unbroken(cfg, db, email, requests)
    ensures Failures(cfg, db, email, requests, lo, hi) <= Potential(cfg, db, email, now, lo, hi)
    decreases requests
  {
    hide Step, Potential, Fails, Clears;
    if requests != [] {
      StepSpendsPotential(cfg, db, email, now, lo, hi, requests[0]);
      FailuresSpendPotential(cfg, Step(cfg, db, requests[0]).0, email, Ends(requests[0]), requests[1..], lo, hi);
    }
  }

  /**
    From any state, between successful sign-ins and resets, at most max_attempts (at
    least one) plus one per elapsed lockout wrong passwords are checked in a window.
  */
  lemma FailuresInWindow(cfg: Config, db: Db, email: Id, now: int, requests: seq<Request>, lo: int, width: nat)
    requires cfg.lockout > 0 && !cfg.rollbackOnRaise && Ordered(requests, now) && Unbroken(cfg, db, email, requests)
    ensures Failures(cfg, db, email, requests, lo, lo + width) <= Max(1, cfg.maxAttempts) + width / cfg.lockout
  {
    hide Failures, Unbroken, Ordered;
    FailuresSpendPotential(cfg, db, email, now, requests, lo, lo + width);
    if email in db.accounts {
      var s := Earliest(db.accounts[email], now, lo);
      FitShrinks(cfg.lockout, lo, s, lo + width);
    }
  }

  // ---- when it is bounded -----------------------------------------------------

  /** Some number bounds the wrong passwords checked at any one moment, in every run. */
  ghost predicate Throttled(cfg: Config) {
    exists most: nat :: Caps(cfg, most)
  }

  ghost predicate Caps(cfg: Config, most: nat) {
    forall db, email, now, requests, lo ::
      Ordered(requests, now) && Unbroken(cfg, db, email, requests) ==> Failures(cfg, db, email, requests, lo, lo) <= most
  }

  function Guesses(n: nat): seq<Request> {
    if n == 0 then [] else [SignIn(0, 1, 0, 0)] + Guesses(n - 1)
  }

  /** An account that wrong passwords do not lock: nothing of them is kept, or the lock ends as it begins. */
  predicate Open(cfg: Config, db: Db) {
    && 0 in db.accounts
    && var a := db.accounts[0]; !a.deleted && !a.banned && a.password == Some(0) && !IsLocked(a, 0)
  }

  lemma {:induction false} GuessesAllFail(cfg: Config, db: Db, n: nat)
    requires (cfg.rollbackOnRaise || cfg.lockout <= 0) && Open(cfg, db)
    ensures var g := Guesses(n); Ordered(g, 0) && Unbroken(cfg, db, 0, g) && Failures(cfg, db, 0, g, 0, 0) == n
    decreases n
  {
    if n != 0 {
      var r := SignIn(0, 1, 0, 0);
      var after := Step(cfg, db, r).0;
      assert Fails(cfg, db, 0, r) && !Clears(cfg, db, 0, r) && Open(cfg, after);
      GuessesAllFail(cfg, after, n - 1);
      assert Guesses(n)[1..] == Guesses(n - 1) && Guesses(n)[0] == r;
    }
  }

  /**
    Guessing is throttled exactly when a refused sign-in's effects are kept and the
    lockout lasts.
  */
  lemma ThrottledExactlyWhenKept(cfg: Config)
    ensures Throttled(cfg) <==> !cfg.rollbackOnRaise && cfg.lockout > 0
  {
    if !cfg.rollbackOnRaise && cfg.lockout > 0 {
      forall db, email, now, requests, lo | Ordered(requests, now) && Unbroken(cfg, db, email, requests)
        ensures Failures(cfg, db, email, requests, lo, lo) <= Max(1, cfg.maxAttempts)
      {
        FailuresInWindow(cfg, db, email, now, requests, lo, 0);
      }
      assert Caps(cfg, Max(1, cfg.maxAttempts));
    } else if most: nat :| Caps(cfg, most) {
      var db := Db(map[0 := Account(Some(0), true, false, false, 0, None, None)], map[], 0);
      GuessesAllFail(cfg, db, most + 1);
    }
  }
}
