/** `MfaService` over one user's rows, updated in place. */
module MfaService {
  import opened Options
  import opened Strings
  import opened MfaModel

  class MfaService {
    const cfg: Setup
    var enabled: bool
    var secret: Option<Secret>
    var recovery: seq<Recovery>

    constructor (cfg: Setup)
      ensures this.cfg == cfg && Rows() == Factor(false, None, [])
    {
      this.cfg := cfg;
      enabled, secret, recovery := false, None, [];
    }

    function Rows(): Factor
      reads this
    {
      Factor(enabled, secret, recovery)
    }

    method BeginEnrolment(key: nat) returns (outcome: Outcome)
      modifies this`secret
      ensures (Rows(), outcome) == Step(cfg, old(Rows()), Begin(key))
    {
      if enabled { return Conflict; }
      secret := Some(Secret(key, None, None));
      outcome := Begun;
    }

    method ConfirmEnrolment(code: string, now: nat, drawn: seq<string>) returns (outcome: Outcome)
      modifies this
      ensures (Rows(), outcome) == Step(cfg, old(Rows()), Confirm(code, now, drawn))
    {
      if secret.None? { return NotStarted; }
      var step := VerifyTotp(secret.value, code, now);
      if step.None? { return Invalid; }
      secret := Some(secret.value.(confirmed := Some(now), lastStep := step));
      enabled := true;
      RegenerateRecoveryCodes(drawn);
      outcome := Enabled(step.value);
    }

    method Disable()
      modifies this
      ensures Rows() == Step(cfg, old(Rows()), Request.Disable).0
    {
      enabled, secret, recovery := false, None, [];
    }

    /** Takes a time-based code, and failing that a recovery code. */
    method Verify(code: string, now: nat) returns (outcome: Outcome)
      modifies this`secret, this`recovery
      ensures (Rows(), outcome) == Step(cfg, old(Rows()), Request.Verify(code, now))
    {
      hide Strip, Remove, Digits, FirstMatch;
      var cleaned := Cleaned(cfg, code);
      if secret.Some? && secret.value.confirmed.Some? {
        var step := VerifyTotp(secret.value, cleaned, now);
        if step.Some? {
          secret := Some(secret.value.(lastStep := step));
          return ByCode(step.value);
        }
      }
      outcome := ConsumeRecoveryCode(cleaned, now);
    }

    /** Looks for the first step of the window with this code; a step already passed is a replay. */
    method VerifyTotp(row: Secret, code: string, now: nat) returns (accepted: Option<int>)
      ensures accepted == MfaModel.VerifyTotp(cfg, row, code, now)
    {
      if !Digits(code) { return None; }
      var step := now / cfg.period;
      for offset := -WINDOW to WINDOW + 1
        invariant FirstMatch(cfg, row.key, code, step - WINDOW, step + WINDOW)
          == FirstMatch(cfg, row.key, code, step + offset, step + WINDOW)
      {
        var candidate := step + offset;
        if cfg.codeAt(row.key, candidate) == code {
          if row.lastStep.Some? && candidate <= row.lastStep.value { return None; }
          return Some(candidate);
        }
      }
      accepted := None;
    }

    method RegenerateRecoveryCodes(drawn: seq<string>)
      modifies this`recovery
      ensures recovery == Codes(drawn)
    {
      recovery := [];
      for i := 0 to |drawn|
        invariant recovery == Codes(drawn[..i])
      {
        recovery := recovery + [Recovery(drawn[i], None)];
      }
      assert drawn[..|drawn|] == drawn;
    }

    method ConsumeRecoveryCode(code: string, now: nat) returns (outcome: Outcome)
      modifies this`recovery
      ensures var rows := Matching(old(recovery), code);
        && (rows == {} ==> outcome == Invalid && recovery == old(recovery))
        && (|rows| > 1 ==> outcome == Ambiguous && recovery == old(recovery))
        && (|rows| == 1 ==> outcome == ByRecovery(code) && exists i :: rows == {i} && recovery == Use(old(recovery), i, now))
    {
      var rows := Matching(recovery, code);
      if rows == {} { return Invalid; }
      if |rows| > 1 { return Ambiguous; }
      var i :| i in rows;
      assert rows == {i} by { assert |rows - {i}| == 0; assert rows == (rows - {i}) + {i}; }
      recovery := Use(recovery, i, now);
      outcome := ByRecovery(code);
    }
  }
}
