/**
  One user's second factor: a time-based code secret with replay detection, and
  single-use recovery codes.

  The code of a secret at a time step is an arbitrary function, so codes of different
  steps may coincide. Recovery codes are drawn by the caller.
*/
module MfaModel {
  import opened Options
  import opened Strings

  /** Steps before and after the current one whose codes are taken. */
  const WINDOW: int := 1

  datatype Config = Config(
    period: nat,
    recoveryCount: nat,
    codeAt: (nat, int) -> string,
    /** The language's upper-casing. */
    upper: string -> string)

  type Setup = c: Config | 0 < c.period witness Config(30, 10, (secret, step) => "0", s => s)

  datatype Secret = Secret(key: nat, confirmed: Option<int>, lastStep: Option<int>)

  datatype Recovery = Recovery(code: string, used: Option<int>)

  datatype Factor = Factor(enabled: bool, secret: Option<Secret>, recovery: seq<Recovery>)

  datatype Outcome =
    | Begun | Conflict | NotStarted | Enabled(step: int) | Disabled | Regenerated
    | ByCode(step: int) | ByRecovery(code: string) | Invalid
    /** The lookup found the same unused recovery code twice and raised. */
    | Ambiguous

  datatype Request =
    | Begin(key: nat)
    | Confirm(code: string, now: nat, drawn: seq<string>)
    | Disable
    | Verify(code: string, now: nat)
    | Regenerate(drawn: seq<string>)

  // ---- time-based codes -------------------------------------------------------

  predicate Digits(code: string) {
    code != "" && forall c <- code :: '0' <= c <= '9'
  }

  /** The first step from `step` to `last` with this code. */
  function FirstMatch(cfg: Setup, key: nat, code: string, step: int, last: int): Option<int>
    decreases last - step
  {
    if step > last then None
    else if cfg.codeAt(key, step) == code then Some(step)
    else FirstMatch(cfg, key, code, step + 1, last)
  }

  /** The step accepted for a code; None when none matches or the first one that does is not new. */
  function VerifyTotp(cfg: Setup, row: Secret, code: string, now: nat): Option<int> {
    if !Digits(code) then None
    else
      var step := now / cfg.period;
      var found := FirstMatch(cfg, row.key, code, step - WINDOW, step + WINDOW);
      if found.Some? && row.lastStep.Some? && found.value <= row.lastStep.value then None else found
  }

  // ---- recovery codes ---------------------------------------------------------

  function Codes(drawn: seq<string>): seq<Recovery> {
    seq(|drawn|, i requires 0 <= i < |drawn| => Recovery(drawn[i], None))
  }

  /** The positions of the unused rows with this code. */
  function Matching(rows: seq<Recovery>, code: string): set<nat> {
    set i: nat | i < |rows| && rows[i].used.None? && rows[i].code == code
  }

  function Unused(rows: seq<Recovery>): set<nat> {
    set i: nat | i < |rows| && rows[i].used.None?
  }

  /** Surrounding blanks, spaces and dashes dropped, letters raised. */
  function Cleaned(cfg: Setup, code: string): string {
    cfg.upper(Remove(Remove(Strip(code, PythonSpace), ' '), '-'))
  }

  function Use(rows: seq<Recovery>, i: nat, now: int): seq<Recovery>
    requires i < |rows|
  {
    rows[i := rows[i].(used := Some(now))]
  }

  // ---- requests ---------------------------------------------------------------

  ghost function Step(cfg: Setup, f: Factor, request: Request): (Factor, Outcome) {
    match request
    case Begin(key) =>
      if f.enabled then (f, Conflict) else (f.(secret := Some(Secret(key, None, None))), Begun)
    case Confirm(code, now, drawn) =>
      if f.secret.None? then (f, NotStarted)
      else (match VerifyTotp(cfg, f.secret.value, code, now)
        case None => (f, Invalid)
        case Some(step) =>
          (Factor(true, Some(f.secret.value.(confirmed := Some(now), lastStep := Some(step))), Codes(drawn)), Enabled(step)))
    case Disable => (Factor(false, None, []), Disabled)
    case Regenerate(drawn) => (f.(recovery := Codes(drawn)), Regenerated)
    case Verify(code, now) =>
      var cleaned := Cleaned(cfg, code);
      var step := if f.secret.Some? && f.secret.value.confirmed.Some? then VerifyTotp(cfg, f.secret.value, cleaned, now) else None;
      if step.Some? then (f.(secret := Some(f.secret.value.(lastStep := step))), ByCode(step.value))
      else
        var rows := Matching(f.recovery, cleaned);
        if rows == {} then (f, Invalid)
        else if |rows| > 1 then (f, Ambiguous)
        else (var i :| i in rows; (f.(recovery := Use(f.recovery, i, now)), ByRecovery(cleaned)))
  }
}
