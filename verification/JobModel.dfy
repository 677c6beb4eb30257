/**
  One ingestion job's row and what each `JobService` call does to it, and a job's life as
  the list of calls that acted on it since it was queued.

  Times are real seconds; the random jitter of a backoff is a parameter of the call.
*/
module JobModel {
  import opened Arith
  import opened Options

  type Id = nat

  /** A storage key. */
  type Key = string

  datatype Config = Config(
    /** A plain integer setting, so it may be zero or negative. */
    maxAttempts: int,
    retryBase: nat,
    retryCap: nat,
    staleAfter: real,
    retention: real)

  datatype Status = Queued | Running | Retrying | Succeeded | Failed | DeadLettered | Cancelled

  datatype Job = Job(
    source: Key, status: Status, attempts: nat, stage: Option<nat>,
    heartbeat: Option<real>, started: Option<real>, nextAttempt: Option<real>,
    deadLettered: Option<real>, finished: Option<real>)

  predicate Active(status: Status) { status.Queued? || status.Running? || status.Retrying? }

  function Fresh(source: Key): Job {
    Job(source, Queued, 0, None, None, None, None, None, None)
  }

  datatype Action =
    | Start | Heartbeat | BeginStage(stage: nat) | Succeed | ScheduleRetry(jitter: real) | FailTerminally
    | Cancel | Reopen(reset: bool) | RequeueStale

  // ---- backoff ----------------------------------------------------------------

  /** The unjittered wait after failed attempt number `attempt`. */
  function Delay(cfg: Config, attempt: nat): nat {
    Min(cfg.retryBase * Pow2(Max(0, attempt - 1)), cfg.retryCap)
  }

  function Wait(cfg: Config, attempt: nat, jitter: real): real { Delay(cfg, attempt) as real * jitter }

  // ---- one call ---------------------------------------------------------------

  /** What the claim query selects. */
  predicate Due(job: Job, now: real) {
    (job.status.Queued? || job.status.Retrying?) && (job.nextAttempt.None? || job.nextAttempt.value <= now)
  }

  predicate Stale(cfg: Config, job: Job, now: real) {
    job.status.Running? && (job.heartbeat.None? || job.heartbeat.value < now - cfg.staleAfter)
  }

  /**
    What keeps a call from being made. The runner looks once, before it starts, that the
    job is not settled; its later calls come whatever became of the row meanwhile. The
    operator's two calls and the sweep check for themselves.
  */
  predicate Allowed(job: Job, action: Action) {
    match action
    case Start => Active(job.status)
    case ScheduleRetry(jitter) => 0.5 <= jitter <= 1.5
    case _ => true
  }

  /** The call makes a settled job live again, so that the index on live jobs has a say. */
  predicate Revives(cfg: Config, job: Job, action: Action) {
    !Active(job.status) && (action.Reopen? || (action.ScheduleRetry? && job.attempts < cfg.maxAttempts))
  }

  function Act(cfg: Config, job: Job, now: real, action: Action): Job {
    match action
    case Start =>
      job.(status := Running, attempts := job.attempts + 1, heartbeat := Some(now),
           started := if job.started.None? then Some(now) else job.started)
    case Heartbeat => job.(heartbeat := Some(now))
    case BeginStage(stage) => job.(stage := Some(stage), heartbeat := Some(now))
    case Succeed => job.(status := Succeeded, stage := None, finished := Some(now), nextAttempt := None)
    case ScheduleRetry(jitter) =>
      if job.attempts >= cfg.maxAttempts then
        job.(status := DeadLettered, deadLettered := Some(now), finished := Some(now), stage := None, nextAttempt := None)
      else
        job.(status := Retrying, nextAttempt := Some(now + Wait(cfg, job.attempts, jitter)))
    case FailTerminally => job.(status := Failed, finished := Some(now), nextAttempt := None)
    case Cancel =>
      if !Active(job.status) then job
      else job.(status := Cancelled, stage := None, finished := Some(now), nextAttempt := None)
    case Reopen(reset) =>
      if Active(job.status) then job
      else job.(status := Queued, attempts := if reset then 0 else job.attempts, deadLettered := None,
                finished := None, nextAttempt := None, stage := None)
    case RequeueStale =>
      if Stale(cfg, job, now) then job.(status := Queued, stage := None, nextAttempt := None) else job
  }

  // ---- a life -----------------------------------------------------------------

  datatype Entry = Entry(now: real, action: Action)

  function After(cfg: Config, source: Key, life: seq<Entry>): Job {
    if life == [] then Fresh(source)
    else var e := life[|life| - 1]; Act(cfg, After(cfg, source, life[..|life| - 1]), e.now, e.action)
  }

  predicate Legal(cfg: Config, source: Key, life: seq<Entry>) {
    life == [] ||
    var e := life[|life| - 1];
    Legal(cfg, source, life[..|life| - 1]) && Allowed(After(cfg, source, life[..|life| - 1]), e.action)
  }

  /**
    What happened since the attempt count last started from zero: starts, and among them
    those of a job already running; rescues by the stale sweep; retries that kept the
    count; the waits scheduled, and how many of them without a start before them.
    `ready` tells that the last start has not been followed by a wait.
  */
  datatype Tally = Tally(starts: nat, reruns: nat, rescues: nat, reopenings: nat, waits: real, repeats: nat, ready: bool)

  const NOTHING := Tally(0, 0, 0, 0, 0.0, 0, false)

  function Note(cfg: Config, t: Tally, job: Job, now: real, action: Action): Tally {
    match action
    case Start => t.(starts := t.starts + 1, reruns := t.reruns + (if job.status.Running? then 1 else 0), ready := true)
    case RequeueStale => if Stale(cfg, job, now) then t.(rescues := t.rescues + 1) else t
    case Reopen(reset) =>
      if Active(job.status) then t else if reset then NOTHING else t.(reopenings := t.reopenings + 1)
    case ScheduleRetry(jitter) =>
      if job.attempts >= cfg.maxAttempts then t
      else t.(waits := t.waits + Wait(cfg, job.attempts, jitter), repeats := t.repeats + (if t.ready then 0 else 1), ready := false)
    case _ => t
  }

  function Count(cfg: Config, source: Key, life: seq<Entry>): Tally {
    if life == [] then NOTHING
    else
      var before, e := life[..|life| - 1], life[|life| - 1];
      Note(cfg, Count(cfg, source, before), After(cfg, source, before), e.now, e.action)
  }
}
