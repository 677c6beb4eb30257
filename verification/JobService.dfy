/**
  `JobService` and the event handler over the stored rows. Every row carries the list of
  calls that produced it, so each result about a job's life holds of every stored job.
*/
module JobService {
  import opened Arith
  import opened Options
  import opened JobModel
  import opened JobLife
  import opened EventModel

  datatype Outcome = Ok | Conflict(running: Option<Id>) | IntegrityError

  ghost predicate Recorded(cfg: Config, job: Job, life: seq<Entry>) {
    Legal(cfg, job.source, life) && After(cfg, job.source, life) == job
  }

  lemma RecordedExtends(cfg: Config, job: Job, life: seq<Entry>, now: real, action: Action)
    requires Recorded(cfg, job, life) && Allowed(job, action)
    ensures Recorded(cfg, Act(cfg, job, now, action), life + [Entry(now, action)])
  {
    Extend(cfg, job.source, life, Entry(now, action));
  }

  /** The rows the stale sweep finds. */
  function StaleRows(cfg: Config, jobs: map<Id, Job>, now: real): set<Id> {
    set k | k in jobs && Stale(cfg, jobs[k], now)
  }

  function PrunableRows(cfg: Config, jobs: map<Id, Job>, now: real): set<Id> {
    set k | k in jobs && Prunable(cfg, jobs[k], now)
  }

  class JobService {
    const setup: Setup
    var jobs: map<Id, Job>
    var ledger: set<string>
    var next: Id
    ghost var lives: map<Id, seq<Entry>>

    ghost predicate Valid()
      reads this
    {
      && lives.Keys == jobs.Keys
      && (forall k <- jobs :: k < next && Recorded(setup.jobs, jobs[k], lives[k]))
      && Unique(jobs)
    }

    constructor (setup: Setup)
      ensures Valid() && this.setup == setup && jobs == map[] && ledger == {}
    {
      this.setup := setup;
      jobs, ledger, next, lives := map[], {}, 0, map[];
    }

    /** Writes a changed row back; `action` is the call that changed it. */
    method Save(k: Id, row: Job, ghost now: real, ghost action: Action)
      requires Valid() && k in jobs && Allowed(jobs[k], action) && row == Act(setup.jobs, jobs[k], now, action)
      requires Revives(setup.jobs, jobs[k], action) ==> !Live(jobs, jobs[k].source)
      modifies this`jobs, this`lives
      ensures Valid() && jobs == old(jobs)[k := row] && lives == old(lives)[k := old(lives)[k] + [Entry(now, action)]]
    {
      hide Legal, After, Recorded;
      RecordedExtends(setup.jobs, jobs[k], lives[k], now, action);
      assert jobs[k].source == row.source && (Active(row.status) ==> Active(jobs[k].status) || !Live(jobs, row.source));
      StaysUnique(jobs, k, row);
      lives := lives[k := lives[k] + [Entry(now, action)]];
      jobs := jobs[k := row];
    }

    // ---- creation ---------------------------------------------------------------

    /** Queues a job unless its file has a live one. */
    method Create(source: Key) returns (outcome: Outcome)
      requires Valid()
      modifies this`jobs, this`next, this`lives
      ensures Valid()
      ensures if Live(old(jobs), source)
        then outcome.Conflict? && outcome.running.Some? && ActiveOn(old(jobs), outcome.running.value, source)
          && jobs == old(jobs) && next == old(next)
        else outcome == Ok && jobs == old(jobs)[old(next) := Fresh(source)] && next == old(next) + 1
    {
      hide Legal, After, Recorded;
      if k :| k in jobs && ActiveOn(jobs, k, source) { return Conflict(Some(k)); }
      StaysUnique(jobs, next, Fresh(source));
      lives := lives[next := []];
      jobs := jobs[next := Fresh(source)];
      next := next + 1;
      outcome := Ok;
      assert Recorded(setup.jobs, Fresh(source), []) by { NewJobIsRecorded(setup.jobs, source); }
    }

    // ---- lifecycle --------------------------------------------------------------

    /** The runner's first look: a settled job is left alone, any other is started. */
    method Begin(k: Id, now: real) returns (starts: bool)
      requires Valid() && k in jobs
      modifies this`jobs, this`lives
      ensures Valid() && starts == Active(old(jobs)[k].status)
      ensures jobs == if starts then old(jobs)[k := Act(setup.jobs, old(jobs)[k], now, Start)] else old(jobs)
    {
      if !Active(jobs[k].status) { return false; }
      MarkRunning(k, now);
      starts := true;
    }

    method MarkRunning(k: Id, now: real)
      requires Valid() && k in jobs && Active(jobs[k].status)
      modifies this`jobs, this`lives
      ensures Valid() && jobs == old(jobs)[k := Act(setup.jobs, old(jobs)[k], now, Start)]
    {
      var job := jobs[k];
      job := job.(status := Running, attempts := job.attempts + 1, heartbeat := Some(now));
      if job.started.None? { job := job.(started := Some(now)); }
      Save(k, job, now, Start);
    }

    method Heartbeat(k: Id, now: real)
      requires Valid() && k in jobs
      modifies this`jobs, this`lives
      ensures Valid() && jobs == old(jobs)[k := Act(setup.jobs, old(jobs)[k], now, Action.Heartbeat)]
    {
      Save(k, jobs[k].(heartbeat := Some(now)), now, Action.Heartbeat);
    }

    method BeginStage(k: Id, now: real, stage: nat)
      requires Valid() && k in jobs
      modifies this`jobs, this`lives
      ensures Valid() && jobs == old(jobs)[k := Act(setup.jobs, old(jobs)[k], now, Action.BeginStage(stage))]
    {
      Save(k, jobs[k].(stage := Some(stage), heartbeat := Some(now)), now, Action.BeginStage(stage));
    }

    method Succeed(k: Id, now: real)
      requires Valid() && k in jobs
      modifies this`jobs, this`lives
      ensures Valid() && jobs == old(jobs)[k := Act(setup.jobs, old(jobs)[k], now, Action.Succeed)]
    {
      var job := jobs[k].(status := Succeeded, stage := None, finished := Some(now), nextAttempt := None);
      Save(k, job, now, Action.Succeed);
    }

    /**
      Backs off, or gives the job up when its attempts are used. On a row settled
      meanwhile the index on live jobs may refuse the backoff, and nothing is kept.
    */
    method ScheduleRetry(k: Id, now: real, jitter: real) returns (outcome: Outcome, retries: bool)
      requires Valid() && k in jobs && 0.5 <= jitter <= 1.5
      modifies this`jobs, this`lives
      ensures Valid() && jobs == WorkOn(setup.jobs, old(jobs), k, now, Action.ScheduleRetry(jitter))
      ensures retries == (old(jobs)[k].attempts < setup.jobs.maxAttempts && outcome == Ok)
      ensures outcome == if Revives(setup.jobs, old(jobs)[k], Action.ScheduleRetry(jitter)) && Live(old(jobs), old(jobs)[k].source)
        then IntegrityError else Ok
      ensures retries ==> jobs[k].status.Retrying?
      ensures outcome == Ok && !retries ==> jobs[k].status.DeadLettered?
    {
      var job := jobs[k];
      if job.attempts >= setup.jobs.maxAttempts {
        job := job.(status := DeadLettered, deadLettered := Some(now), finished := Some(now), stage := None, nextAttempt := None);
        Save(k, job, now, Action.ScheduleRetry(jitter));
        return Ok, false;
      }
      if !Active(job.status) && Live(jobs, job.source) { return IntegrityError, false; }
      var delay: nat := Min(setup.jobs.retryBase * Pow2(Max(0, job.attempts - 1)), setup.jobs.retryCap);
      assert delay == Delay(setup.jobs, job.attempts);
      assert delay as real * jitter == Wait(setup.jobs, job.attempts, jitter);
      job := job.(status := Retrying, nextAttempt := Some(now + delay as real * jitter));
      Save(k, job, now, Action.ScheduleRetry(jitter));
      outcome, retries := Ok, true;
    }

    method FailTerminally(k: Id, now: real)
      requires Valid() && k in jobs
      modifies this`jobs, this`lives
      ensures Valid() && jobs == old(jobs)[k := Act(setup.jobs, old(jobs)[k], now, Action.FailTerminally)]
    {
      Save(k, jobs[k].(status := Failed, finished := Some(now), nextAttempt := None), now, Action.FailTerminally);
    }

    method Cancel(k: Id, now: real) returns (outcome: Outcome)
      requires Valid() && k in jobs
      modifies this`jobs, this`lives
      ensures Valid() && jobs == old(jobs)[k := Act(setup.jobs, old(jobs)[k], now, Action.Cancel)]
      ensures outcome == if Active(old(jobs)[k].status) then Ok else Conflict(None)
    {
      var job := jobs[k];
      if !Active(job.status) { return Conflict(None); }
      job := job.(status := Cancelled, stage := None, finished := Some(now), nextAttempt := None);
      Save(k, job, now, Action.Cancel);
      outcome := Ok;
    }

    /** Requeues a settled job; the index on live jobs refuses it beside another job on the same file. */
    method PrepareRetry(k: Id, now: real, reset: bool) returns (outcome: Outcome)
      requires Valid() && k in jobs
      modifies this`jobs, this`lives
      ensures Valid() && jobs == WorkOn(setup.jobs, old(jobs), k, now, Reopen(reset))
      ensures var job := old(jobs)[k];
        outcome == if Active(job.status) then Conflict(None) else if Live(old(jobs), job.source) then IntegrityError else Ok
    {
      var job := jobs[k];
      if Active(job.status) { return Conflict(None); }
      if Live(jobs, job.source) { return IntegrityError; }
      job := job.(status := Status.Queued);
      if reset { job := job.(attempts := 0); }
      job := job.(deadLettered := None, finished := None, nextAttempt := None, stage := None);
      Save(k, job, now, Reopen(reset));
      outcome := Ok;
    }

    // ---- sweeps -----------------------------------------------------------------

    /** Requeues every running job without a recent heartbeat; its attempts stay counted. */
    method RequeueStale(now: real) returns (count: nat)
      requires Valid()
      modifies this`jobs, this`lives
      ensures Valid() && count == |StaleRows(setup.jobs, old(jobs), now)|
      ensures jobs == map k | k in old(jobs) :: Act(setup.jobs, old(jobs)[k], now, Action.RequeueStale)
    {
      hide Legal, After, Recorded;
      var stale := StaleRows(setup.jobs, jobs, now);
      var todo := stale;
      while todo != {}
        invariant Valid() && todo <= stale && jobs.Keys == old(jobs).Keys
        invariant forall k <- jobs ::
          jobs[k] == if k in stale - todo then Act(setup.jobs, old(jobs)[k], now, Action.RequeueStale) else old(jobs)[k]
      {
        var k :| k in todo;
        var job := jobs[k].(status := Status.Queued, stage := None, nextAttempt := None);
        Save(k, job, now, Action.RequeueStale);
        todo := todo - {k};
      }
      count := |stale|;
      forall k <- jobs ensures jobs[k] == Act(setup.jobs, old(jobs)[k], now, Action.RequeueStale) {
        assert k !in stale ==> !Stale(setup.jobs, old(jobs)[k], now);
      }
    }

    /** Drops old succeeded and cancelled jobs, and no other. */
    method Prune(now: real) returns (count: nat)
      requires Valid()
      modifies this`jobs, this`lives
      ensures Valid() && count == |PrunableRows(setup.jobs, old(jobs), now)|
      ensures jobs == old(jobs) - PrunableRows(setup.jobs, old(jobs), now)
    {
      hide Legal, After, Recorded;
      var gone := PrunableRows(setup.jobs, jobs, now);
      assert forall j, source :: ActiveOn(jobs - gone, j, source) ==> ActiveOn(jobs, j, source);
      jobs, lives := jobs - gone, lives - gone;
      count := |gone|;
    }

    // ---- events -----------------------------------------------------------------

    /** One delivery without interference: claim, create, commit, or roll back. */
    method Handle(e: Event) returns (handling: Handling)
      requires Valid()
      modifies this`jobs, this`ledger, this`next, this`lives
      ensures Valid() && (jobs, ledger, next) == HandledRows(setup, old(jobs), old(ledger), old(next), e, handling)
      ensures handling == HandlingOf(setup, old(jobs), old(ledger), old(next), e)
    {
      hide Legal, After, Recorded, Accepted, RawKey, RawBook;
      if e.kind != "book.created" { return NotAsked; }
      var sourceKey, book := RawKey(e), RawBook(e);
      if sourceKey == "" || book == "" { return NotAsked; }
      if e.id in ledger { return Duplicate; }
      var before := ledger;
      ledger := ledger + {e.id};
      var accepted := Accepted(setup, e);
      if accepted.None? {
        ledger := before;
        return Rejected;
      }
      var id := next;
      var outcome := Create(accepted.value);
      handling := if outcome.Conflict? then AlreadyRunning else Handling.Queued(id);
    }
  }

  lemma NewJobIsRecorded(cfg: Config, source: Key)
    ensures Recorded(cfg, Fresh(source), [])
  {
  }

  ghost predicate Unique(jobs: map<Id, Job>) {
    forall j, k, source :: ActiveOn(jobs, j, source) && ActiveOn(jobs, k, source) ==> j == k
  }

  /** Writing a row keeps one live job per file when it was live before or its file had none. */
  lemma StaysUnique(jobs: map<Id, Job>, k: Id, row: Job)
    requires Unique(jobs) && (ActiveOn(jobs, k, row.source) || !Active(row.status) || !Live(jobs, row.source))
    ensures Unique(jobs[k := row])
  {
    var after := jobs[k := row];
    forall i, j, source | ActiveOn(after, i, source) && ActiveOn(after, j, source) ensures i == j {
      assert i != k ==> ActiveOn(jobs, i, source);
      assert j != k ==> ActiveOn(jobs, j, source);
    }
  }

  // ---- what holds of every stored job -----------------------------------------

  /** However the store came about, each row's attempts and waits are within their bounds. */
  lemma StoredJobsAreBounded(store: JobService, k: Id)
    requires store.Valid() && k in store.jobs
    ensures var cfg, job, t := store.setup.jobs, store.jobs[k], Count(store.setup.jobs, store.jobs[k].source, store.lives[k]);
      && Budgeted(cfg, job, t)
      && t.waits <= 1.5 * (WaitBound(cfg, Max(0, cfg.maxAttempts - 1)) as real + Extra(cfg, t))
  {
    var cfg, source, life := store.setup.jobs, store.jobs[k].source, store.lives[k];
    AttemptsAreBudgeted(cfg, source, life);
    TotalWaitIsBounded(cfg, source, life);
  }
}
