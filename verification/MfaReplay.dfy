/**
  What holds over every run: accepted time steps rise, so few codes are accepted while
  the clock moves a little, and every recovery code signs in at most once.
*/
module MfaReplay {
  import opened Options
  import opened MfaModel

  // ---- accepted steps ---------------------------------------------------------

  function AcceptedStep(outcome: Outcome): Option<int> {
    match outcome
    case Enabled(step) => Some(step)
    case ByCode(step) => Some(step)
    case _ => None
  }

  ghost function Run(cfg: Setup, f: Factor, requests: seq<Request>): Factor
    decreases requests
  {
    if requests == [] then f else Run(cfg, Step(cfg, f, requests[0]).0, requests[1..])
  }

  /** The time steps whose codes were accepted, in order. */
  ghost function Accepted(cfg: Setup, f: Factor, requests: seq<Request>): seq<int>
    decreases requests
  {
    if requests == [] then []
    else
      var (after, outcome) := Step(cfg, f, requests[0]);
      var rest := Accepted(cfg, after, requests[1..]);
      if AcceptedStep(outcome).Some? then [AcceptedStep(outcome).value] + rest else rest
  }

  /** No request starts an enrolment or removes the factor. */
  ghost predicate OneEnrolment(cfg: Setup, f: Factor, requests: seq<Request>)
    decreases requests
  {
    requests == [] ||
    var (after, outcome) := Step(cfg, f, requests[0]);
    !outcome.Begun? && !outcome.Disabled? && OneEnrolment(cfg, after, requests[1..])
  }

  /** Every code is presented between clock steps s1 and s2. */
  predicate Within(cfg: Setup, requests: seq<Request>, s1: int, s2: int) {
    forall r <- requests :: (r.Confirm? || r.Verify?) ==> s1 <= r.now / cfg.period <= s2
  }

  ghost predicate Rising(steps: seq<int>, above: Option<int>) {
    && (forall i, j :: 0 <= i < j < |steps| ==> steps[i] < steps[j])
    && (above.Some? ==> forall i :: 0 <= i < |steps| ==> above.value < steps[i])
  }

  function LastStep(f: Factor): Option<int> {
    if f.secret.Some? then f.secret.value.lastStep else None
  }

  lemma {:induction false} FirstMatchIsFirst(cfg: Setup, key: nat, code: string, step: int, last: int)
    ensures var found := FirstMatch(cfg, key, code, step, last);
      && (found.Some? ==> step <= found.value <= last && cfg.codeAt(key, found.value) == code)
      && (forall s {:trigger cfg.codeAt(key, s)} ::
        step <= s <= last && cfg.codeAt(key, s) == code ==> found.Some? && found.value <= s)
    decreases last - step
  {
    if step <= last && cfg.codeAt(key, step) != code {
      FirstMatchIsFirst(cfg, key, code, step + 1, last);
    }
  }

  /** A code is accepted for a later step than the last, at most one step from the clock, and only then. */
  lemma StepAcceptsLater(cfg: Setup, f: Factor, r: Request)
    ensures var (after, outcome) := Step(cfg, f, r);
      var accepted := AcceptedStep(outcome);
      && (accepted.Some? ==>
        && f.secret.Some? && (r.Confirm? || r.Verify?) && r.now / cfg.period - 1 <= accepted.value <= r.now / cfg.period + 1
        && (LastStep(f).Some? ==> LastStep(f).value < accepted.value)
        && LastStep(after) == accepted)
      && (accepted.None? && !outcome.Begun? && !outcome.Disabled? ==> LastStep(after) == LastStep(f))
  {
    hide Cleaned, Digits;
    if f.secret.Some? && (r.Confirm? || r.Verify?) {
      var code := if r.Confirm? then r.code else Cleaned(cfg, r.code);
      var step := r.now / cfg.period;
      FirstMatchIsFirst(cfg, f.secret.value.key, code, step - WINDOW, step + WINDOW);
    }
  }

  /** Between enrolments the accepted steps strictly increase, whatever codes coincide. */
  lemma {:induction false} AcceptedStepsRise(cfg: Setup, f: Factor, requests: seq<Request>, s1: int, s2: int)
    requires OneEnrolment(cfg, f, requests) && Within(cfg, requests, s1, s2)
    ensures Rising(Accepted(cfg, f, requests), LastStep(f))
    ensures forall s <- Accepted(cfg, f, requests) :: s1 - 1 <= s <= s2 + 1
    decreases requests
  {
    hide Step;
    if requests != [] {
      var r := requests[0];
      StepAcceptsLater(cfg, f, r);
      AcceptedStepsRise(cfg, Step(cfg, f, r).0, requests[1..], s1, s2);
    }
  }

  lemma {:induction false} RisingIsShort(steps: seq<int>, lo: int, hi: int)
    requires Rising(steps, None) && forall s <- steps :: lo <= s <= hi
    requires lo <= hi + 1
    ensures |steps| <= hi - lo + 1
    decreases steps
  {
    if steps != [] {
      assert steps[0] in steps;
      forall s <- steps[1..] ensures steps[0] < s <= hi {
        var i :| 0 <= i < |steps[1..]| && steps[1..][i] == s;
        assert steps[i + 1] == s && s in steps;
      }
      RisingIsShort(steps[1..], steps[0] + 1, hi);
    }
  }

  /** While the clock moves from step s1 to step s2, at most s2 - s1 + 3 codes are accepted. */
  lemma FewCodesAreAccepted(cfg: Setup, f: Factor, requests: seq<Request>, s1: int, s2: int)
    requires OneEnrolment(cfg, f, requests) && Within(cfg, requests, s1, s2) && s1 <= s2
    ensures |Accepted(cfg, f, requests)| <= s2 - s1 + 3
  {
    hide Accepted, OneEnrolment;
    AcceptedStepsRise(cfg, f, requests, s1, s2);
    RisingIsShort(Accepted(cfg, f, requests), s1 - 1, s2 + 1);
  }

  /** A code accepted again would be accepted for a later step. */
  lemma CodeOfPassedStepIsRefused(cfg: Setup, f: Factor, again: Request, step: int)
    requires again.Verify? && LastStep(f).Some? && step <= LastStep(f).value
    requires forall s {:trigger cfg.codeAt(f.secret.value.key, s)} ::
      cfg.codeAt(f.secret.value.key, s) == Cleaned(cfg, again.code) ==> s == step
    ensures !Step(cfg, f, again).1.ByCode?
  {
    hide Cleaned, Digits, Matching;
    var now := again.now / cfg.period;
    FirstMatchIsFirst(cfg, f.secret.value.key, Cleaned(cfg, again.code), now - WINDOW, now + WINDOW);
  }

  /** A code that belongs to one step alone signs in at most once between enrolments. */
  lemma CodeOfOneStepWorksOnce(cfg: Setup, f: Factor, first: Request, later: seq<Request>, again: Request)
    requires OneEnrolment(cfg, f, [first] + later + [again])
    requires first.Verify? && again.Verify? && Cleaned(cfg, first.code) == Cleaned(cfg, again.code)
    requires Step(cfg, f, first).1.ByCode?
    requires forall s {:trigger cfg.codeAt(f.secret.value.key, s)} ::
      cfg.codeAt(f.secret.value.key, s) == Cleaned(cfg, first.code) ==> s == Step(cfg, f, first).1.step
    ensures !Step(cfg, Run(cfg, f, [first] + later), again).1.ByCode?
  {
    hide Step, Cleaned, Digits;
    var all := [first] + later;
    var (after, outcome) := Step(cfg, f, first);
    assert all[1..] == later && (all + [again])[0] == first && (all + [again])[1..] == later + [again];
    StepAcceptsLater(cfg, f, first);
    SecretStays(cfg, f, first);
    LastStepGrows(cfg, after, later, again, outcome.step);
    CodeOfPassedStepIsRefused(cfg, Run(cfg, after, later), again, outcome.step);
  }

  /** Until the next enrolment the secret stays, and its last step does not fall. */
  lemma {:induction false} LastStepGrows(cfg: Setup, f: Factor, requests: seq<Request>, last: Request, floor: int)
    requires OneEnrolment(cfg, f, requests + [last]) && f.secret.Some?
    requires LastStep(f).Some? && floor <= LastStep(f).value
    ensures var g := Run(cfg, f, requests);
      g.secret.Some? && g.secret.value.key == f.secret.value.key && LastStep(g).Some? && floor <= LastStep(g).value
    decreases requests
  {
    if requests != [] {
      hide Step;
      var r := requests[0];
      assert (requests + [last])[0] == r && (requests + [last])[1..] == requests[1..] + [last];
      StepAcceptsLater(cfg, f, r);
      SecretStays(cfg, f, r);
      LastStepGrows(cfg, Step(cfg, f, r).0, requests[1..], last, floor);
    }
  }

  lemma SecretStays(cfg: Setup, f: Factor, r: Request)
    requires f.secret.Some? && !Step(cfg, f, r).1.Begun? && !Step(cfg, f, r).1.Disabled?
    ensures var g := Step(cfg, f, r).0; g.secret.Some? && g.secret.value.key == f.secret.value.key
  {
  }

  // ---- recovery codes ---------------------------------------------------------

  /** Sign-ins by recovery code. */
  ghost function Recoveries(cfg: Setup, f: Factor, requests: seq<Request>): seq<string>
    decreases requests
  {
    if requests == [] then []
    else
      var (after, outcome) := Step(cfg, f, requests[0]);
      var rest := Recoveries(cfg, after, requests[1..]);
      if outcome.ByRecovery? then [outcome.code] + rest else rest
  }

  /** No request replaces the recovery codes. */
  ghost predicate OneSet(cfg: Setup, f: Factor, requests: seq<Request>)
    decreases requests
  {
    requests == [] ||
    var (after, outcome) := Step(cfg, f, requests[0]);
    !outcome.Regenerated? && !outcome.Enabled? && OneSet(cfg, after, requests[1..])
  }

  function UnusedCodes(f: Factor): set<string> {
    set i | 0 <= i < |f.recovery| && f.recovery[i].used.None? :: f.recovery[i].code
  }

  /** Spending a recovery code takes it, and one unused row, away. */
  lemma StepSpendsCode(cfg: Setup, f: Factor, r: Request)
    requires !Step(cfg, f, r).1.Regenerated? && !Step(cfg, f, r).1.Enabled?
    ensures var (after, outcome) := Step(cfg, f, r);
      if outcome.ByRecovery? then
        outcome.code in UnusedCodes(f) && UnusedCodes(after) == UnusedCodes(f) - {outcome.code}
        && |Unused(after.recovery)| + 1 == |Unused(f.recovery)|
      else UnusedCodes(after) <= UnusedCodes(f) && |Unused(after.recovery)| <= |Unused(f.recovery)|
  {
    hide Cleaned, VerifyTotp;
    var (after, outcome) := Step(cfg, f, r);
    if outcome.ByRecovery? {
      var rows := Matching(f.recovery, outcome.code);
      var i :| i in rows && after.recovery == Use(f.recovery, i, r.now);
      OnlyElement(rows, i);
      assert Unused(after.recovery) == Unused(f.recovery) - {i};
      forall c ensures c in UnusedCodes(after) <==> c in UnusedCodes(f) && c != outcome.code {
        if c in UnusedCodes(f) && c != outcome.code {
          var j :| 0 <= j < |f.recovery| && f.recovery[j].used.None? && f.recovery[j].code == c;
          assert after.recovery[j] == f.recovery[j];
        }
        if c in UnusedCodes(after) {
          var j :| 0 <= j < |after.recovery| && after.recovery[j].used.None? && after.recovery[j].code == c;
          assert j != i && after.recovery[j] == f.recovery[j];
          assert c == outcome.code ==> j in rows;
        }
      }
    } else if outcome.Disabled? {
      assert Unused(after.recovery) == {};
    } else {
      assert after.recovery == f.recovery;
    }
  }

  lemma OnlyElement<T>(s: set<T>, x: T)
    requires |s| == 1 && x in s
    ensures s == {x}
  {
    assert |s - {x}| == 0;
    assert s == (s - {x}) + {x};
  }

  /** Within one set of codes each signs in at most once, and no more of them than were unused. */
  lemma {:induction false} EachCodeWorksOnce(cfg: Setup, f: Factor, requests: seq<Request>)
    requires OneSet(cfg, f, requests)
    ensures var used := Recoveries(cfg, f, requests);
      && |used| <= |Unused(f.recovery)|
      && (forall c <- used :: c in UnusedCodes(f))
      && (forall i, j :: 0 <= i < j < |used| ==> used[i] != used[j])
    decreases requests
  {
    hide Step, Unused, UnusedCodes;
    if requests != [] {
      StepSpendsCode(cfg, f, requests[0]);
      EachCodeWorksOnce(cfg, Step(cfg, f, requests[0]).0, requests[1..]);
    }
  }

  /** Every request that draws codes draws the configured number. */
  predicate Drawn(cfg: Setup, requests: seq<Request>) {
    forall r <- requests ::
      (r.Confirm? ==> |r.drawn| == cfg.recoveryCount) && (r.Regenerate? ==> |r.drawn| == cfg.recoveryCount)
  }

  lemma {:induction false} RowsAreFew(cfg: Setup, f: Factor, requests: seq<Request>)
    requires |f.recovery| <= cfg.recoveryCount && Drawn(cfg, requests)
    ensures |Run(cfg, f, requests).recovery| <= cfg.recoveryCount
    decreases requests
  {
    hide VerifyTotp, Cleaned;
    if requests != [] {
      RowsAreFew(cfg, Step(cfg, f, requests[0]).0, requests[1..]);
    }
  }

  lemma {:induction false} AtMostLength(rows: seq<Recovery>)
    ensures |Unused(rows)| <= |rows|
    decreases |rows|
  {
    if rows != [] {
      var n := |rows| - 1;
      AtMostLength(rows[..n]);
      assert Unused(rows) <= Unused(rows[..n]) + {n};
      SubsetIsSmaller(Unused(rows), Unused(rows[..n]) + {n});
    }
  }

  lemma {:induction false} SubsetIsSmaller<T>(a: set<T>, b: set<T>)
    requires a <= b
    ensures |a| <= |b|
  {
    if a != {} {
      var x :| x in a;
      SubsetIsSmaller(a - {x}, b - {x});
    }
  }

  /** After any history, at most recovery_code_count sign-ins by recovery code succeed until codes are drawn again. */
  lemma FewRecoveries(cfg: Setup, history: seq<Request>, requests: seq<Request>)
    requires Drawn(cfg, history)
    requires OneSet(cfg, Run(cfg, Factor(false, None, []), history), requests)
    ensures |Recoveries(cfg, Run(cfg, Factor(false, None, []), history), requests)| <= cfg.recoveryCount
  {
    var f := Run(cfg, Factor(false, None, []), history);
    RowsAreFew(cfg, Factor(false, None, []), history);
    EachCodeWorksOnce(cfg, f, requests);
    AtMostLength(f.recovery);
  }
}
