/**
  What holds of a job over its whole life: how often it can be started, how long it can
  be made to wait, and when it is given up.
*/
module JobLife {
  import opened Arith
  import opened Options
  import opened JobModel

  // ---- how often a job starts -------------------------------------------------

  /** The starts the configuration, the stale sweep, the operator and repeated deliveries allow for. */
  function Ceiling(cfg: Config, t: Tally): int {
    Max(1, cfg.maxAttempts) + t.rescues + t.reopenings + t.reruns
  }

  ghost predicate Budgeted(cfg: Config, job: Job, t: Tally) {
    && t.starts == job.attempts
    && job.attempts <= Ceiling(cfg, t) - (if job.status.Queued? || job.status.Retrying? then 1 else 0)
    && (job.status.Running? || t.ready ==> 1 <= job.attempts)
    && (job.status.Retrying? ==> job.attempts < cfg.maxAttempts)
    && (job.status.DeadLettered? ==> cfg.maxAttempts <= job.attempts)
  }

  /**
    The attempt count is the number of starts since it was last reset, and never exceeds
    max_attempts (at least one) plus the stale rescues, the retries that kept the count
    and the starts of a job already running; a waiting job still has a start left.
  */
  lemma {:induction false} AttemptsAreBudgeted(cfg: Config, source: Key, life: seq<Entry>)
    requires Legal(cfg, source, life)
    ensures Budgeted(cfg, After(cfg, source, life), Count(cfg, source, life))
  {
    if life != [] {
      AttemptsAreBudgeted(cfg, source, life[..|life| - 1]);
    }
  }

  /** Without any of those, a job is started at most its allowance of times, and given up after exactly that many. */
  lemma GivenUpAfterExactlyTheAllowance(cfg: Config, source: Key, life: seq<Entry>)
    requires Legal(cfg, source, life)
    ensures var job, t := After(cfg, source, life), Count(cfg, source, life);
      t.rescues == 0 && t.reopenings == 0 && t.reruns == 0 ==>
        && t.starts <= Max(1, cfg.maxAttempts)
        && (job.status.DeadLettered? && 1 <= cfg.maxAttempts ==> t.starts == cfg.maxAttempts)
  {
    hide After, Count, Legal;
    AttemptsAreBudgeted(cfg, source, life);
  }

  /** Some legal life comes to these numbers, and is running. */
  ghost predicate Reached(cfg: Config, source: Key, starts: nat, rescues: nat, reopenings: nat, reruns: nat, life: seq<Entry>) {
    var job, t := After(cfg, source, life), Count(cfg, source, life);
    && Legal(cfg, source, life) && job.status.Running? && job.heartbeat.Some?
    && t.starts == starts && t.rescues == rescues && t.reopenings == reopenings && t.reruns == reruns
  }

  lemma Extend(cfg: Config, source: Key, life: seq<Entry>, e: Entry)
    ensures var next, job := life + [e], After(cfg, source, life);
      && After(cfg, source, next) == Act(cfg, job, e.now, e.action)
      && Count(cfg, source, next) == Note(cfg, Count(cfg, source, life), job, e.now, e.action)
      && Legal(cfg, source, next) == (Legal(cfg, source, life) && Allowed(job, e.action))
  {
    assert (life + [e])[..|life|] == life;
  }

  lemma ExtendReached(cfg: Config, source: Key, life: seq<Entry>, pause: seq<Entry>) returns (longer: seq<Entry>)
    requires |pause| <= 2
    ensures longer == life + pause + [Entry(0.0, Start)]
    ensures var middle := if pause == [] then life else life + [pause[0]];
      var last := life + pause;
      && (|pause| <= 1 ==> last == middle)
      && (pause != [] ==>
        && After(cfg, source, middle) == Act(cfg, After(cfg, source, life), pause[0].now, pause[0].action)
        && Count(cfg, source, middle) == Note(cfg, Count(cfg, source, life), After(cfg, source, life), pause[0].now, pause[0].action)
        && Legal(cfg, source, middle) == (Legal(cfg, source, life) && Allowed(After(cfg, source, life), pause[0].action)))
      && (|pause| == 2 ==>
        && After(cfg, source, last) == Act(cfg, After(cfg, source, middle), pause[1].now, pause[1].action)
        && Count(cfg, source, last) == Note(cfg, Count(cfg, source, middle), After(cfg, source, middle), pause[1].now, pause[1].action)
        && Legal(cfg, source, last) == (Legal(cfg, source, middle) && Allowed(After(cfg, source, middle), pause[1].action)))
      && After(cfg, source, longer) == Act(cfg, After(cfg, source, last), 0.0, Start)
      && Count(cfg, source, longer) == Note(cfg, Count(cfg, source, last), After(cfg, source, last), 0.0, Start)
      && Legal(cfg, source, longer) == (Legal(cfg, source, last) && Active(After(cfg, source, last).status))
  {
    hide Act, Note, After, Count, Legal;
    longer := life + pause + [Entry(0.0, Start)];
    if pause != [] { Extend(cfg, source, life, pause[0]); }
    if |pause| == 1 { assert life + pause == life + [pause[0]]; }
    if |pause| == 2 {
      Extend(cfg, source, life + [pause[0]], pause[1]);
      assert life + pause == life + [pause[0]] + [pause[1]];
    }
    if pause == [] { assert life + pause == life; }
    Extend(cfg, source, life + pause, Entry(0.0, Start));
  }

  /** The ceiling is reached: rescues, count-keeping retries and repeated deliveries each buy one more start. */
  lemma {:induction false} CeilingIsReached(cfg: Config, source: Key, starts: nat, rescues: nat, reopenings: nat, reruns: nat)
      returns (life: seq<Entry>)
    requires 1 <= starts - rescues - reopenings - reruns <= Max(1, cfg.maxAttempts)
    ensures Reached(cfg, source, starts, rescues, reopenings, reruns, life)
    decreases starts
  {
    hide Legal, After, Count;
    if starts == 1 {
      EmptyLife(cfg, source);
      life := ExtendReached(cfg, source, [], []);
    } else {
      var pause: seq<Entry> := [];
      if 0 < reruns {
        life := CeilingIsReached(cfg, source, starts - 1, rescues, reopenings, reruns - 1);
      } else if 0 < reopenings {
        life := CeilingIsReached(cfg, source, starts - 1, rescues, reopenings - 1, reruns);
        pause := [Entry(0.0, FailTerminally), Entry(0.0, Reopen(false))];
      } else if 0 < rescues {
        life := CeilingIsReached(cfg, source, starts - 1, rescues - 1, reopenings, reruns);
        pause := [Entry(After(cfg, source, life).heartbeat.value + cfg.staleAfter + 1.0, RequeueStale)];
      } else {
        life := CeilingIsReached(cfg, source, starts - 1, 0, 0, 0);
        AttemptsAreBudgeted(cfg, source, life);
        pause := [Entry(0.0, ScheduleRetry(1.0))];
      }
      life := ExtendReached(cfg, source, life, pause);
    }
  }

  lemma EmptyLife(cfg: Config, source: Key)
    ensures After(cfg, source, []) == Fresh(source) && Count(cfg, source, []) == NOTHING && Legal(cfg, source, [])
  {
  }

  // ---- how long a job waits ---------------------------------------------------

  /** The unjittered waits after attempts 1 to n. */
  function TotalDelay(cfg: Config, n: nat): nat {
    if n == 0 then 0 else TotalDelay(cfg, n - 1) + Delay(cfg, n)
  }

  lemma TotalDelayUnfolds(cfg: Config, n: nat)
    ensures TotalDelay(cfg, n) == if n == 0 then 0 else TotalDelay(cfg, n - 1) + Delay(cfg, n)
  {
  }

  lemma DelayIsBounded(cfg: Config, n: nat)
    ensures Delay(cfg, n + 1) <= cfg.retryCap && Delay(cfg, n + 1) <= cfg.retryBase * Pow2(n)
  {
    hide Pow2;
  }

  /** The smaller of the exponential total and the capped total of n waits. */
  function WaitBound(cfg: Config, n: nat): int {
    Min(cfg.retryBase * (Pow2(n) - 1), cfg.retryCap * n)
  }

  lemma WaitBoundGrows(cfg: Config, n: nat)
    ensures WaitBound(cfg, 0) == 0 && WaitBound(cfg, n) + Delay(cfg, n + 1) <= WaitBound(cfg, n + 1)
  {
    hide Delay, Pow2;
    DelayIsBounded(cfg, n);
    var b, p, c := cfg.retryBase, Pow2(n), cfg.retryCap;
    assert Pow2(n + 1) == 2 * p && Pow2(0) == 1 by { PowUnfolds(n + 1); PowUnfolds(0); }
    Distributes(b, p, c, n);
  }

  lemma Distributes(b: nat, p: nat, c: nat, n: nat)
    ensures b * (2 * p - 1) == b * (p - 1) + b * p && c * (n + 1) == c * n + c
  {
  }

  lemma PowUnfolds(n: nat)
    ensures Pow2(n) == if n == 0 then 1 else 2 * Pow2(n - 1)
  {
  }

  lemma {:induction false} TotalDelayIsBounded(cfg: Config, n: nat)
    ensures TotalDelay(cfg, n) <= WaitBound(cfg, n)
  {
    hide Delay, WaitBound;
    WaitBoundGrows(cfg, if n == 0 then 0 else n - 1);
    if n != 0 { TotalDelayIsBounded(cfg, n - 1); }
  }

  lemma {:induction false} TotalDelayGrows(cfg: Config, m: nat, n: nat)
    requires m <= n
    ensures TotalDelay(cfg, m) <= TotalDelay(cfg, n)
    decreases n
  {
    if m < n { TotalDelayGrows(cfg, m, n - 1); }
  }

  /** The attempts that can have been followed by a wait of their own. */
  function Waited(cfg: Config, job: Job, t: Tally): nat {
    Max(0, Min(cfg.maxAttempts - 1, if t.ready then job.attempts - 1 else job.attempts))
  }

  lemma Jittered(cfg: Config, attempt: nat, jitter: real)
    requires 0.5 <= jitter <= 1.5
    ensures 0.5 * Delay(cfg, attempt) as real <= Wait(cfg, attempt, jitter) <= 1.5 * Delay(cfg, attempt) as real
  {
    hide Delay;
    Scaled(Delay(cfg, attempt) as real, jitter);
  }

  lemma Scaled(delay: real, jitter: real)
    requires 0.0 <= delay && 0.5 <= jitter <= 1.5
    ensures 0.5 * delay <= delay * jitter <= 1.5 * delay
  {
  }

  /** Each attempt is waited for once, and a wait without a start before it is at most the cap. */
  ghost predicate Patient(cfg: Config, job: Job, t: Tally) {
    0.0 <= t.waits <= 1.5 * (TotalDelay(cfg, Waited(cfg, job, t)) as real + Extra(cfg, t))
  }

  function Extra(cfg: Config, t: Tally): real { (t.repeats * cfg.retryCap) as real }

  lemma DelayIsCapped(cfg: Config, attempt: nat)
    ensures Delay(cfg, attempt) <= cfg.retryCap
  {
    hide Pow2;
  }

  lemma ScheduledWaitKeepsPatience(cfg: Config, job: Job, t: Tally, now: real, jitter: real)
    requires Budgeted(cfg, job, t) && Patient(cfg, job, t) && 0.5 <= jitter <= 1.5 && job.attempts < cfg.maxAttempts
    ensures Patient(cfg, Act(cfg, job, now, ScheduleRetry(jitter)), Note(cfg, t, job, now, ScheduleRetry(jitter)))
  {
    hide Delay, Wait, TotalDelay;
    var next, u := Act(cfg, job, now, ScheduleRetry(jitter)), Note(cfg, t, job, now, ScheduleRetry(jitter));
    Jittered(cfg, job.attempts, jitter);
    if t.ready {
      assert Waited(cfg, next, u) == job.attempts == Waited(cfg, job, t) + 1;
      TotalDelayUnfolds(cfg, job.attempts);
    } else {
      assert Waited(cfg, next, u) == Waited(cfg, job, t);
      DelayIsCapped(cfg, job.attempts);
      assert (t.repeats + 1) * cfg.retryCap == t.repeats * cfg.retryCap + cfg.retryCap;
    }
  }

  lemma ActKeepsPatience(cfg: Config, job: Job, t: Tally, now: real, action: Action)
    requires Allowed(job, action) && Budgeted(cfg, job, t) && Patient(cfg, job, t)
    ensures Patient(cfg, Act(cfg, job, now, action), Note(cfg, t, job, now, action))
  {
    hide Delay, Wait, TotalDelay, Extra;
    var next, u := Act(cfg, job, now, action), Note(cfg, t, job, now, action);
    if action.ScheduleRetry? && job.attempts < cfg.maxAttempts {
      ScheduledWaitKeepsPatience(cfg, job, t, now, action.jitter);
    } else if u == NOTHING {
      NoExtra(cfg);
    } else {
      assert u.waits == t.waits && u.repeats == t.repeats && Waited(cfg, job, t) <= Waited(cfg, next, u);
      SameExtra(cfg, t, u);
      TotalDelayGrows(cfg, Waited(cfg, job, t), Waited(cfg, next, u));
    }
  }

  lemma NoExtra(cfg: Config)
    ensures Extra(cfg, NOTHING) == 0.0
  {
  }

  lemma SameExtra(cfg: Config, t: Tally, u: Tally)
    requires t.repeats == u.repeats
    ensures Extra(cfg, t) == Extra(cfg, u)
  {
  }

  lemma {:induction false} WaitsFollowAttempts(cfg: Config, source: Key, life: seq<Entry>)
    requires Legal(cfg, source, life)
    ensures Patient(cfg, After(cfg, source, life), Count(cfg, source, life))
  {
    if life != [] {
      hide Patient, Budgeted, Act, Note;
      var before, e := life[..|life| - 1], life[|life| - 1];
      WaitsFollowAttempts(cfg, source, before);
      AttemptsAreBudgeted(cfg, source, before);
      ActKeepsPatience(cfg, After(cfg, source, before), Count(cfg, source, before), e.now, e.action);
    } else {
      NoExtra(cfg);
    }
  }

  /**
    Since its last reset a job is made to wait at most 3/2 of the smaller of the
    exponential total and the capped total, whatever rescues and retries happen, and of
    one cap more for each wait that a late runner schedules without a start before it.
  */
  lemma TotalWaitIsBounded(cfg: Config, source: Key, life: seq<Entry>)
    requires Legal(cfg, source, life)
    ensures var n, t := Max(0, cfg.maxAttempts - 1), Count(cfg, source, life);
      0.0 <= t.waits <= 1.5 * (WaitBound(cfg, n) as real + Extra(cfg, t))
  {
    hide Legal, After, Count, WaitBound, TotalDelay, Extra;
    var n := Max(0, cfg.maxAttempts - 1);
    WaitsFollowAttempts(cfg, source, life);
    TotalDelayGrows(cfg, Waited(cfg, After(cfg, source, life), Count(cfg, source, life)), n);
    TotalDelayIsBounded(cfg, n);
  }

  // ---- starts are spaced out --------------------------------------------------

  /** A worker's call as the drain makes it: on a due job, and then on the running one. */
  predicate InTurn(job: Job, now: real, action: Action) {
    match action
    case Start => Due(job, now)
    case Heartbeat | BeginStage(_) | ScheduleRetry(_) | Succeed | FailTerminally => job.status.Running?
    case _ => false
  }

  /** Only such calls, in the order of a clock that starts at `begin`. */
  predicate Orderly(cfg: Config, source: Key, life: seq<Entry>, begin: real) {
    life == [] ||
    var before, e := life[..|life| - 1], life[|life| - 1];
    && Orderly(cfg, source, before, begin) && LastTime(before, begin) <= e.now
    && InTurn(After(cfg, source, before), e.now, e.action)
  }

  function LastTime(life: seq<Entry>, begin: real): real {
    if life == [] then begin else life[|life| - 1].now
  }

  /** The job has been held back by at least half of every backoff so far. */
  ghost predicate HeldBack(cfg: Config, job: Job, begin: real, now: real) {
    match job.status
    case Queued => job.attempts == 0
    case Running => 1 <= job.attempts && begin + 0.5 * TotalDelay(cfg, job.attempts - 1) as real <= now
    case Retrying => job.nextAttempt.Some? && begin + 0.5 * TotalDelay(cfg, job.attempts) as real <= job.nextAttempt.value
    case _ => true
  }

  lemma ActKeepsHeldBack(cfg: Config, job: Job, begin: real, last: real, now: real, action: Action)
    requires HeldBack(cfg, job, begin, last) && begin <= last <= now && Allowed(job, action) && InTurn(job, now, action)
    ensures HeldBack(cfg, Act(cfg, job, now, action), begin, now)
  {
    hide Delay, Wait, TotalDelay;
    if action.ScheduleRetry? {
      TotalDelayUnfolds(cfg, job.attempts);
      Jittered(cfg, job.attempts, action.jitter);
    } else if job.status.Queued? {
      TotalDelayUnfolds(cfg, 0);
    }
  }

  /** Started only when due, a job's latest start comes after at least half of every earlier backoff. */
  lemma {:induction false} StartsAreSpacedOut(cfg: Config, source: Key, life: seq<Entry>, begin: real)
    requires Legal(cfg, source, life) && Orderly(cfg, source, life, begin)
    ensures begin <= LastTime(life, begin) && HeldBack(cfg, After(cfg, source, life), begin, LastTime(life, begin))
  {
    if life != [] {
      var before, e := life[..|life| - 1], life[|life| - 1];
      StartsAreSpacedOut(cfg, source, before, begin);
      ActKeepsHeldBack(cfg, After(cfg, source, before), begin, LastTime(before, begin), e.now, e.action);
    }
  }

  /** A queued message is run without a look at the retry time: then the second start can come at once. */
  lemma EarlyStartIsNotHeldBack(cfg: Config, source: Key) returns (life: seq<Entry>)
    requires 1 < cfg.maxAttempts && 0 < cfg.retryBase && 0 < cfg.retryCap
    ensures Legal(cfg, source, life) && !HeldBack(cfg, After(cfg, source, life), 0.0, LastTime(life, 0.0))
  {
    hide Legal, After, Count;
    EmptyLife(cfg, source);
    var first := ExtendReached(cfg, source, [], []);
    life := ExtendReached(cfg, source, first, [Entry(0.0, ScheduleRetry(1.0))]);
    TotalDelayUnfolds(cfg, 1);
    TotalDelayUnfolds(cfg, 0);
    assert Pow2(0) == 1;
    assert Delay(cfg, 1) > 0;
  }

  // ---- what the columns say ---------------------------------------------------

  /** The columns a reader of the row relies on, by status. */
  ghost predicate Consistent(job: Job) {
    && (job.finished.Some? <==> !Active(job.status))
    && (job.deadLettered.Some? <==> job.status.DeadLettered?)
    && (job.nextAttempt.Some? ==> job.status.Retrying? || job.status.Running?)
    && (job.status.Retrying? ==> job.nextAttempt.Some?)
    && (job.stage.Some? ==> job.status.Running? || job.status.Retrying? || job.status.Failed?)
    && (job.status.Running? ==> job.heartbeat.Some? && job.started.Some?)
  }

  /** A runner's call on a row that was taken from it, where it does harm. */
  predicate Disturbs(cfg: Config, job: Job, action: Action) {
    match action
    case BeginStage(_) => job.status.Queued? || job.status.Succeeded? || job.status.DeadLettered? || job.status.Cancelled?
    case Succeed | FailTerminally => job.status.DeadLettered?
    case ScheduleRetry(_) => !Active(job.status) && job.attempts < cfg.maxAttempts
    case _ => false
  }

  /** A settled job has no current stage. */
  predicate StageCleared(job: Job) { !Active(job.status) ==> job.stage.None? }

  /** A terminal failure in a stage, or a stage begun on a row that was settled meanwhile. */
  predicate LeavesStage(job: Job, action: Action) {
    match action
    case FailTerminally => job.stage.Some?
    case BeginStage(_) => !Active(job.status)
    case _ => false
  }

  /** Every row of the life is as `good` says. */
  ghost predicate Throughout(cfg: Config, source: Key, life: seq<Entry>, good: Job -> bool) {
    good(After(cfg, source, life)) && (life == [] || Throughout(cfg, source, life[..|life| - 1], good))
  }

  /** No call of the life is `bad` for the row it finds. */
  ghost predicate Never(cfg: Config, source: Key, life: seq<Entry>, bad: (Job, Action) -> bool) {
    life == [] ||
    var before, e := life[..|life| - 1], life[|life| - 1];
    !bad(After(cfg, source, before), e.action) && Never(cfg, source, before, bad)
  }

  /** In every life, the columns agree with the status throughout if and only if no call disturbs them. */
  lemma {:induction false} RowsAreConsistentExactly(cfg: Config, source: Key, life: seq<Entry>)
    requires Legal(cfg, source, life)
    ensures Throughout(cfg, source, life, Consistent) <==> Never(cfg, source, life, (job, action) => Disturbs(cfg, job, action))
  {
    if life != [] {
      RowsAreConsistentExactly(cfg, source, life[..|life| - 1]);
      var e := life[|life| - 1];
      if Throughout(cfg, source, life[..|life| - 1], Consistent) {
        ActKeepsConsistentExactly(cfg, After(cfg, source, life[..|life| - 1]), e.now, e.action);
      }
    }
  }

  lemma ActKeepsConsistentExactly(cfg: Config, job: Job, now: real, action: Action)
    requires Consistent(job) && Allowed(job, action)
    ensures Consistent(Act(cfg, job, now, action)) <==> !Disturbs(cfg, job, action)
  {
    hide Wait;
  }

  /** In every life, a settled row never has a current stage if and only if no call leaves one. */
  lemma {:induction false} StageIsNullExactly(cfg: Config, source: Key, life: seq<Entry>)
    requires Legal(cfg, source, life)
    ensures Throughout(cfg, source, life, StageCleared) <==> Never(cfg, source, life, LeavesStage)
  {
    if life != [] {
      hide Wait;
      StageIsNullExactly(cfg, source, life[..|life| - 1]);
    }
  }
}
