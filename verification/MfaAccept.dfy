/**
  Exactly which codes are accepted: a right time-based code not yet passed, failing that
  an unused recovery code, and nothing else.
*/
module MfaAccept {
  import opened Options
  import opened Strings
  import opened MfaModel
  import opened MfaReplay

  predicate AllDigits(code: string) {
    |code| > 0 && forall i :: 0 <= i < |code| ==> code[i] in "0123456789"
  }

  /** The code is that of `step`, at most one step from the clock, and of no earlier step so near. */
  ghost predicate IsRight(cfg: Setup, key: nat, code: string, now: nat, step: int) {
    var clock := now / cfg.period;
    && clock - 1 <= step <= clock + 1 && cfg.codeAt(key, step) == code
    && forall s {:trigger cfg.codeAt(key, s)} :: clock - 1 <= s < step ==> cfg.codeAt(key, s) != code
  }

  /** A code is accepted for a step if and only if it is made of digits, right for the step, and the step is new. */
  lemma AcceptedExactly(cfg: Setup, row: Secret, code: string, now: nat, step: int)
    ensures VerifyTotp(cfg, row, code, now) == Some(step) <==>
      && AllDigits(code) && IsRight(cfg, row.key, code, now, step)
      && (row.lastStep.Some? ==> row.lastStep.value < step)
  {
    hide FirstMatch;
    var clock := now / cfg.period;
    FirstMatchIsFirst(cfg, row.key, code, clock - WINDOW, clock + WINDOW);
    DigitsAreDigits(code);
  }

  lemma DigitsAreDigits(code: string)
    ensures Digits(code) <==> AllDigits(code)
  {
    if AllDigits(code) {
      forall c <- code ensures '0' <= c <= '9' {}
    }
    if Digits(code) {
      forall i | 0 <= i < |code| ensures code[i] in "0123456789" {
        assert code[i] in code;
        DigitIsListed(code[i]);
      }
    }
  }

  lemma DigitIsListed(c: char)
    requires '0' <= c <= '9'
    ensures c in "0123456789"
  {
    var digits := "0123456789";
    assert digits[(c - '0') as int] == c;
  }

  /** The code of a step is accepted for sign-in. */
  ghost predicate SignsInBy(cfg: Setup, f: Factor, code: string, now: nat, step: int) {
    && f.secret.Some? && f.secret.value.confirmed.Some?
    && AllDigits(Cleaned(cfg, code)) && IsRight(cfg, f.secret.value.key, Cleaned(cfg, code), now, step)
    && (f.secret.value.lastStep.Some? ==> f.secret.value.lastStep.value < step)
  }

  /** A time-based code signs in by a step if and only if the factor is confirmed and the code is right and new. */
  lemma CodeSignsInExactly(cfg: Setup, f: Factor, code: string, now: nat, step: int)
    ensures var (after, outcome) := Step(cfg, f, Verify(code, now));
      && (outcome == ByCode(step) <==> SignsInBy(cfg, f, code, now, step))
      && (outcome == ByCode(step) ==> after == f.(secret := Some(f.secret.value.(lastStep := Some(step)))))
  {
    hide VerifyTotp, Cleaned, Matching;
    if f.secret.Some? { AcceptedExactly(cfg, f.secret.value, Cleaned(cfg, code), now, step); }
  }

  /** The only unused recovery row with this code. */
  predicate OnlyUnused(rows: seq<Recovery>, code: string, i: nat) {
    && i < |rows| && rows[i].used.None? && rows[i].code == code
    && forall j :: 0 <= j < |rows| && rows[j].used.None? && rows[j].code == code ==> j == i
  }

  lemma MatchesOnce(rows: seq<Recovery>, code: string)
    ensures |Matching(rows, code)| == 1 <==> exists i: nat :: OnlyUnused(rows, code, i)
    ensures forall i: nat :: OnlyUnused(rows, code, i) ==> Matching(rows, code) == {i}
  {
    var found := Matching(rows, code);
    if |found| == 1 {
      var i :| i in found;
      OnlyElement(found, i);
      forall j | 0 <= j < |rows| && rows[j].used.None? && rows[j].code == code ensures j == i { assert j in found; }
      assert OnlyUnused(rows, code, i);
    }
    forall i: nat | OnlyUnused(rows, code, i) ensures found == {i} {}
  }

  /** A recovery code signs in if and only if the code is not taken as a time-based one and one unused row has it. */
  lemma RecoverySignsInExactly(cfg: Setup, f: Factor, code: string, now: nat, used: string)
    ensures var (after, outcome) := Step(cfg, f, Verify(code, now));
      && (outcome == ByRecovery(used) <==>
        && used == Cleaned(cfg, code) && (forall step :: !SignsInBy(cfg, f, code, now, step))
        && exists i: nat :: OnlyUnused(f.recovery, used, i))
      && (outcome.ByRecovery? ==>
        && after.(recovery := []) == f.(recovery := [])
        && exists i: nat :: OnlyUnused(f.recovery, Cleaned(cfg, code), i) && after.recovery == Use(f.recovery, i, now))
  {
    hide VerifyTotp, Cleaned, Matching, SignsInBy;
    NoCodeSignsIn(cfg, f, code, now);
    MatchesOnce(f.recovery, Cleaned(cfg, code));
    var (after, outcome) := Step(cfg, f, Verify(code, now));
    if outcome.ByRecovery? {
      var i: nat :| OnlyUnused(f.recovery, Cleaned(cfg, code), i);
      assert after.recovery == Use(f.recovery, i, now);
    }
  }

  lemma NoCodeSignsIn(cfg: Setup, f: Factor, code: string, now: nat)
    ensures Step(cfg, f, Verify(code, now)).1.ByCode? <==> exists step :: SignsInBy(cfg, f, code, now, step)
  {
    hide Step, SignsInBy;
    var outcome := Step(cfg, f, Verify(code, now)).1;
    if outcome.ByCode? { CodeSignsInExactly(cfg, f, code, now, outcome.step); }
    if step :| SignsInBy(cfg, f, code, now, step) { CodeSignsInExactly(cfg, f, code, now, step); }
  }

  // ---- enrolling --------------------------------------------------------------

  /**
    A factor is enabled by a code if and only if an enrolment was begun and the code is
    right and new; the codes drawn then are the recovery codes, all unused.
  */
  lemma CodeEnablesExactly(cfg: Setup, f: Factor, code: string, now: nat, drawn: seq<string>, step: int)
    ensures var (after, outcome) := Step(cfg, f, Confirm(code, now, drawn));
      && (outcome == Enabled(step) <==>
        && f.secret.Some? && AllDigits(code) && IsRight(cfg, f.secret.value.key, code, now, step)
        && (f.secret.value.lastStep.Some? ==> f.secret.value.lastStep.value < step))
      && (outcome.Enabled? ==>
        && after.enabled
        && after.secret == Some(Secret(f.secret.value.key, Some(now), Some(outcome.step)))
        && |after.recovery| == |drawn|
        && forall i :: 0 <= i < |drawn| ==> after.recovery[i] == Recovery(drawn[i], None))
      && (!outcome.Enabled? ==> after == f)
  {
    hide VerifyTotp;
    if f.secret.Some? { AcceptedExactly(cfg, f.secret.value, code, now, step); }
  }

  /** A code drawn once signs in right after, unless it is taken as a time-based one. */
  lemma DrawnCodeSignsIn(cfg: Setup, f: Factor, drawn: seq<string>, i: nat, code: string, now: nat)
    requires i < |drawn| && Cleaned(cfg, code) == drawn[i] && forall j :: 0 <= j < |drawn| && j != i ==> drawn[j] != drawn[i]
    ensures var outcome := Step(cfg, Step(cfg, f, Regenerate(drawn)).0, Verify(code, now)).1;
      outcome.ByCode? || outcome == ByRecovery(drawn[i])
  {
    hide Cleaned, SignsInBy;
    var g := Step(cfg, f, Regenerate(drawn)).0;
    assert OnlyUnused(g.recovery, drawn[i], i);
    NoCodeSignsIn(cfg, g, code, now);
    RecoverySignsInExactly(cfg, g, code, now, drawn[i]);
  }

  /** Beginning is refused exactly when the factor is enabled, and otherwise starts over with the new key; disabling leaves nothing to sign in with. */
  lemma BeginsAndEnds(cfg: Setup, f: Factor, key: nat, code: string, now: nat)
    ensures var (begun, outcome) := Step(cfg, f, Begin(key));
      && (outcome == Conflict <==> f.enabled) && (f.enabled ==> begun == f)
      && (!f.enabled ==> begun == Factor(false, Some(Secret(key, None, None)), f.recovery))
      && Step(cfg, Step(cfg, f, Disable).0, Verify(code, now)).1 == Invalid
      && !Step(cfg, f, Disable).0.enabled
  {
    hide Cleaned, VerifyTotp;
    assert Matching([], Cleaned(cfg, code)) == {};
  }

  // ---- cleaning ---------------------------------------------------------------

  /** What a person typed, without the blanks around it and the spaces and dashes in it. */
  function Typed(s: string): string {
    if s == "" then "" else (if s[0] == ' ' || s[0] == '-' then "" else [s[0]]) + Typed(s[1..])
  }

  lemma {:induction false} RemovingBothIsTyped(s: string)
    ensures Remove(Remove(s, ' '), '-') == Typed(s)
  {
    if s != "" {
      RemovingBothIsTyped(s[1..]);
      var rest := Remove(s[1..], ' ');
      assert ([s[0]] + rest)[1..] == rest && "" + rest == rest;
    }
  }

  /** Blanks around a code do not matter, and spaces and dashes in it do not either. */
  lemma CleanedIsTyped(cfg: Setup, before: string, code: string, behind: string)
    requires forall i :: 0 <= i < |before| ==> PythonSpace(before[i])
    requires forall i :: 0 <= i < |behind| ==> PythonSpace(behind[i])
    requires code != "" ==> !PythonSpace(code[0]) && !PythonSpace(code[|code| - 1])
    ensures Cleaned(cfg, before + code + behind) == cfg.upper(Typed(code))
  {
    StripsBlanks(before, code, behind, PythonSpace);
    RemovingBothIsTyped(code);
  }
}
