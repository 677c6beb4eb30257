/** What a job's columns say of the calls that were made on it, when it can be claimed or rescued, and how long it backs off. */
module JobColumns {
  import opened Arith
  import opened Options
  import opened JobModel
  import opened JobLife

  // ---- the columns, from the calls --------------------------------------------

  /** The time of the last call that shows the worker alive. */
  function LastBeat(life: seq<Entry>): Option<real> {
    if life == [] then None
    else
      var e := life[|life| - 1];
      match e.action
      case Start | Heartbeat | BeginStage(_) => Some(e.now)
      case _ => LastBeat(life[..|life| - 1])
  }

  function FirstStart(life: seq<Entry>): Option<real> {
    if life == [] then None
    else
      var before, e := FirstStart(life[..|life| - 1]), life[|life| - 1];
      if before.Some? then before else if e.action.Start? then Some(e.now) else None
  }

  /** The last call that changed the status, by what it found. */
  function LastTurn(cfg: Config, source: Key, life: seq<Entry>): Option<Entry> {
    if life == [] then None
    else
      var before, e := life[..|life| - 1], life[|life| - 1];
      if Turns(cfg, After(cfg, source, before), e) then Some(e) else LastTurn(cfg, source, before)
  }

  predicate Turns(cfg: Config, job: Job, e: Entry) {
    match e.action
    case Start | Succeed | ScheduleRetry(_) | FailTerminally => true
    case Cancel => job.status in {Queued, Running, Retrying}
    case Reopen(_) => job.status !in {Queued, Running, Retrying}
    case RequeueStale => job.status == Running && (job.heartbeat.Some? ==> job.heartbeat.value + cfg.staleAfter < e.now)
    case _ => false
  }

  /**
    In every life the heartbeat is the last sign of the worker, the start time that of the
    first start, and the status what the last call that could turn it says; a settled job
    that was settled by that call bears its time.
  */
  lemma {:induction false} ColumnsTellTheLife(cfg: Config, source: Key, life: seq<Entry>)
    requires Legal(cfg, source, life)
    ensures var job, turn := After(cfg, source, life), LastTurn(cfg, source, life);
      && job.source == source && job.heartbeat == LastBeat(life) && job.started == FirstStart(life)
      && if turn.None? then job.status == Queued
         else match turn.value.action
           case Start => job.status == Running
           case Succeed => job.status == Succeeded && job.finished == Some(turn.value.now)
           case FailTerminally => job.status == Failed && job.finished == Some(turn.value.now)
           case Cancel => job.status == Cancelled && job.finished == Some(turn.value.now)
           case ScheduleRetry(_) =>
             || job.status == Retrying
             || (job.status == DeadLettered && job.finished == job.deadLettered == Some(turn.value.now))
           case _ => job.status == Queued
  {
    if life != [] {
      hide Wait;
      ColumnsTellTheLife(cfg, source, life[..|life| - 1]);
    }
  }

  // ---- claims and rescues -----------------------------------------------------

  /** A job can be claimed exactly while it waits, from its retry time on if it has one. */
  lemma ClaimedExactly(job: Job, now: real)
    ensures Due(job, now) <==>
      && (job.status == Queued || job.status == Retrying)
      && (job.nextAttempt == None || job.nextAttempt.value < now || job.nextAttempt.value == now)
  {
  }

  /** A backoff makes the job claimable again exactly from its end on. */
  lemma BackoffEndsExactly(cfg: Config, job: Job, now: real, jitter: real, later: real)
    requires job.attempts < cfg.maxAttempts
    ensures var next := Act(cfg, job, now, ScheduleRetry(jitter));
      && next == job.(status := Retrying, nextAttempt := next.nextAttempt)
      && (Due(next, later) <==> now + Wait(cfg, job.attempts, jitter) <= later)
  {
    hide Wait;
  }

  /** A job that is queued, queued again or rescued is claimable at once. */
  lemma QueuedIsClaimable(cfg: Config, source: Key, job: Job, now: real, reset: bool, later: real)
    ensures Due(Fresh(source), later)
    ensures !Active(job.status) ==> Due(Act(cfg, job, now, Reopen(reset)), later)
    ensures Stale(cfg, job, now) ==> Due(Act(cfg, job, now, RequeueStale), later)
  {
  }

  /** The sweep rescues exactly the running jobs whose last sign of life is more than the limit ago. */
  lemma RescuedExactly(cfg: Config, source: Key, life: seq<Entry>, now: real)
    requires Legal(cfg, source, life)
    ensures var job := After(cfg, source, life);
      var next := Act(cfg, job, now, RequeueStale);
      if job.status == Running && (LastBeat(life) == None || LastBeat(life).value + cfg.staleAfter < now)
      then next == job.(status := Queued, stage := None, nextAttempt := None) && job != next
      else next == job
  {
    hide Legal, After;
    ColumnsTellTheLife(cfg, source, life);
  }

  /** A call revives a job if and only if it finds it settled and leaves it live. */
  lemma RevivesExactly(cfg: Config, job: Job, now: real, action: Action)
    requires Allowed(job, action)
    ensures Revives(cfg, job, action) <==> !Active(job.status) && Active(Act(cfg, job, now, action).status)
  {
  }

  /** Only a settled job cannot be started, and only an unsettled one can be cancelled. */
  lemma GuardsExactly(cfg: Config, job: Job, now: real)
    ensures Allowed(job, Start) <==> job.status in {Queued, Running, Retrying}
    ensures Act(cfg, job, now, Cancel).status == Cancelled <==> job.status in {Queued, Running, Retrying, Cancelled}
    ensures !(job.status in {Queued, Running, Retrying}) ==> Act(cfg, job, now, Cancel) == job
    ensures job.status in {Queued, Running, Retrying} ==> forall reset :: Act(cfg, job, now, Reopen(reset)) == job
  {
  }

  // ---- how long a job backs off -----------------------------------------------

  /** The backoff begins at the base and doubles with every attempt, up to the cap. */
  lemma DelayDoublesToTheCap(cfg: Config, n: nat)
    requires 1 <= n
    ensures Delay(cfg, 1) == Min(cfg.retryBase, cfg.retryCap)
    ensures Delay(cfg, n + 1) == Min(2 * Delay(cfg, n), cfg.retryCap)
  {
    assert Pow2(n) == 2 * Pow2(n - 1);
    assert cfg.retryBase * Pow2(n) == 2 * (cfg.retryBase * Pow2(n - 1)) by { Doubled(cfg.retryBase, Pow2(n - 1)); }
  }

  lemma Doubled(b: nat, p: nat)
    ensures b * (2 * p) == 2 * (b * p)
  {
  }

  /** The waits that can be drawn are exactly those from half to one and a half times the backoff. */
  lemma DrawnWaitsExactly(cfg: Config, job: Job, wait: real)
    requires 0 < Delay(cfg, job.attempts)
    ensures (exists jitter :: Allowed(job, ScheduleRetry(jitter)) && Wait(cfg, job.attempts, jitter) == wait)
      <==> 0.5 * Delay(cfg, job.attempts) as real <= wait <= 1.5 * Delay(cfg, job.attempts) as real
  {
    hide Delay;
    var d := Delay(cfg, job.attempts) as real;
    if 0.5 * d <= wait <= 1.5 * d {
      var jitter := wait / d;
      Quotient(wait, d);
      assert Allowed(job, ScheduleRetry(jitter)) && Wait(cfg, job.attempts, jitter) == wait;
    }
    if jitter :| Allowed(job, ScheduleRetry(jitter)) && Wait(cfg, job.attempts, jitter) == wait {
      Scaled(d, jitter);
    }
  }

  lemma Quotient(wait: real, d: real)
    requires 0.0 < d && 0.5 * d <= wait <= 1.5 * d
    ensures d * (wait / d) == wait && 0.5 <= wait / d <= 1.5
  {
    var q := wait / d;
    if q < 0.5 { Larger(d, q, 0.5); }
    if 1.5 < q { Larger(d, 1.5, q); }
  }

  lemma Larger(d: real, a: real, b: real)
    requires 0.0 < d && a < b
    ensures d * a < d * b
  {
  }

  // ---- waits without a start --------------------------------------------------

  /** The entry schedules a wait, or puts the count back to zero. */
  predicate Waits(cfg: Config, job: Job, e: Entry) { e.action.ScheduleRetry? && job.attempts < cfg.maxAttempts }

  predicate Resets(job: Job, e: Entry) { e.action == Reopen(true) && !Active(job.status) }

  /** The job was started after the last wait and the last reset. */
  predicate StartedSince(cfg: Config, source: Key, life: seq<Entry>) {
    life != [] &&
    var before, e := life[..|life| - 1], life[|life| - 1];
    e.action.Start? ||
    (!Waits(cfg, After(cfg, source, before), e) && !Resets(After(cfg, source, before), e) && StartedSince(cfg, source, before))
  }

  /** The waits since the last reset that had no start of their own before them. */
  function LoneWaits(cfg: Config, source: Key, life: seq<Entry>): nat {
    if life == [] then 0
    else
      var before, e := life[..|life| - 1], life[|life| - 1];
      var one := if Waits(cfg, After(cfg, source, before), e) && !StartedSince(cfg, source, before) then 1 else 0;
      if Resets(After(cfg, source, before), e) then 0 else LoneWaits(cfg, source, before) + one
  }

  /** What the rows say the job was made to wait since the last reset. */
  function WaitedFor(cfg: Config, source: Key, life: seq<Entry>): real {
    if life == [] then 0.0
    else
      var before, e, next := life[..|life| - 1], life[|life| - 1], After(cfg, source, life).nextAttempt;
      var wait := if Waits(cfg, After(cfg, source, before), e) && next.Some? then next.value - e.now else 0.0;
      if Resets(After(cfg, source, before), e) then 0.0 else WaitedFor(cfg, source, before) + wait
  }

  /** The tally's waits are those that the rows show, and an extra cap is allowed for exactly the lone ones. */
  lemma {:induction false} WaitsAreTallied(cfg: Config, source: Key, life: seq<Entry>)
    ensures var t := Count(cfg, source, life);
      && (t.ready <==> StartedSince(cfg, source, life))
      && t.repeats == LoneWaits(cfg, source, life) && t.waits == WaitedFor(cfg, source, life)
  {
    if life != [] {
      hide Wait;
      WaitsAreTallied(cfg, source, life[..|life| - 1]);
    }
  }

  /** So what the rows show is bounded: the backoff total, and one cap for each lone wait. */
  lemma ShownWaitsAreBounded(cfg: Config, source: Key, life: seq<Entry>)
    requires Legal(cfg, source, life)
    ensures WaitedFor(cfg, source, life)
      <= 1.5 * (WaitBound(cfg, Max(0, cfg.maxAttempts - 1)) + LoneWaits(cfg, source, life) * cfg.retryCap) as real
  {
    hide Legal, After, Count, WaitBound, WaitedFor, LoneWaits, StartedSince;
    WaitsAreTallied(cfg, source, life);
    TotalWaitIsBounded(cfg, source, life);
  }
}
