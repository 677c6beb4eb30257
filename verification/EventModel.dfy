/**
  Deliveries of catalogue events to the pipeline, each one database transaction: claim
  the event in the ledger, look for a live job on the file, insert a job, commit.
  Statements of different deliveries, calls of the job service and crashes interleave
  freely. A statement reads what was committed before it; an insert into a unique key
  blocks while another transaction has an uncommitted row with that key, and fails when
  a committed one is there.
*/
module EventModel {
  import opened Options
  import opened JobModel
  import opened Strings

  type Did = nat

  type Payload = map<string, string>

  datatype Event = Event(id: string, kind: string, payload: Payload)

  datatype Setup = Setup(jobs: Config, isUuid: string -> bool)

  // ---- reading the event ------------------------------------------------------

  function Field(payload: Payload, name: string): string {
    if name in payload then payload[name] else ""
  }

  function FirstOf(payload: Payload, name: string, fallback: string): string {
    if Field(payload, name) != "" then Field(payload, name) else Field(payload, fallback)
  }

  function RawKey(e: Event): string { FirstOf(e.payload, "source_key", "pdf_key") }

  function RawBook(e: Event): string { FirstOf(e.payload, "book_id", "id") }

  /** The event asks for a file to be processed; any other is acknowledged without a trace. */
  predicate AsksForWork(e: Event) {
    e.kind == "book.created" && RawKey(e) != "" && RawBook(e) != ""
  }

  function FileName(key: string): string
    decreases |key|
  {
    if key != "" && '/' in key then (assert key[0] == '/' || '/' in key[1..]; FileName(key[1..])) else key
  }

  /** The storage key a job is created for, unless the request schema rejects the payload. */
  function Accepted(setup: Setup, e: Event): Option<Key> {
    var key := Strip(RawKey(e), WhiteSpace);
    if setup.isUuid(RawBook(e)) && 1 <= |key| <= 500 && !Contains(key, "..") && key[0] != '/'
      && |Strip(FileName(RawKey(e)), WhiteSpace)| <= 255
    then Some(key) else None
  }

  // ---- state ------------------------------------------------------------------

  datatype Phase =
    | Received
    | Claimed
    /** No live job was seen on the file. */
    | Clear(source: Key)
    /** A live job was seen. */
    | Busy(source: Key, seen: Id)
    | Inserted(source: Key, job: Id)
    /** Committed with its ledger row, and a job of its own unless one was seen. */
    | Done(source: Key, own: Option<Id>)
    /** Committed without effect: nothing asked for, or already in the ledger. */
    | Ignored
    /** Rolled back by an error or a crash; the broker will deliver the event again. */
    | Lost

  datatype Delivery = Delivery(event: Event, phase: Phase)

  datatype State = State(jobs: map<Id, Job>, ledger: set<string>, deliveries: map<Did, Delivery>, next: Id)

  datatype Step =
    | Deliver(d: Did, event: Event)
    | Claim(d: Did)
    | Check(d: Did)
    | Insert(d: Did)
    | Commit(d: Did)
    | Crash(d: Did)
    /** A call of the job service on one row. */
    | Work(k: Id, now: real, action: Action)
    /** A job requested over HTTP. */
    | Create(source: Key)
    | Prune(k: Id, now: real)

  predicate ActiveOn(jobs: map<Id, Job>, k: Id, source: Key) {
    k in jobs && jobs[k].source == source && Active(jobs[k].status)
  }

  predicate Live(jobs: map<Id, Job>, source: Key) {
    exists k <- jobs :: ActiveOn(jobs, k, source)
  }

  predicate HoldsClaim(p: Phase) { p.Claimed? || p.Clear? || p.Busy? || p.Inserted? }

  /** An open transaction holds the event's ledger row. */
  predicate LedgerHeld(s: State, event: string) {
    exists d <- s.deliveries :: s.deliveries[d].event.id == event && HoldsClaim(s.deliveries[d].phase)
  }

  /** An open transaction holds an uncommitted job on the file. */
  predicate SourceHeld(s: State, source: Key) {
    exists d <- s.deliveries :: s.deliveries[d].phase.Inserted? && s.deliveries[d].phase.source == source
  }

  predicate Finished(p: Phase) { p.Done? || p.Ignored? || p.Lost? }

  predicate Prunable(cfg: Config, job: Job, now: real) {
    && (job.status.Succeeded? || job.status.Cancelled?)
    && job.finished.Some? && job.finished.value < now - cfg.retention
  }

  /** Whether the database and the caller would take the step now, rather than block or not at all. */
  predicate Enabled(setup: Setup, s: State, step: Step) {
    match step
    case Deliver(d, _) => d !in s.deliveries
    case Claim(d) =>
      d in s.deliveries && s.deliveries[d].phase.Received? &&
      var e := s.deliveries[d].event;
      AsksForWork(e) && e.id !in s.ledger ==> !LedgerHeld(s, e.id)
    case Check(d) => d in s.deliveries && s.deliveries[d].phase.Claimed?
    case Insert(d) =>
      d in s.deliveries && s.deliveries[d].phase.Clear? &&
      var source := s.deliveries[d].phase.source;
      !Live(s.jobs, source) ==> !SourceHeld(s, source)
    case Commit(d) => d in s.deliveries && (s.deliveries[d].phase.Busy? || s.deliveries[d].phase.Inserted?)
    case Crash(d) => d in s.deliveries && !Finished(s.deliveries[d].phase)
    case Work(k, now, action) =>
      k in s.jobs && Allowed(s.jobs[k], action)
      && (Revives(setup.jobs, s.jobs[k], action) ==> !SourceHeld(s, s.jobs[k].source))
    case Create(source) => !SourceHeld(s, source)
    case Prune(k, now) => k in s.jobs && Prunable(setup.jobs, s.jobs[k], now)
  }

  function To(s: State, d: Did, phase: Phase): State
    requires d in s.deliveries
  {
    s.(deliveries := s.deliveries[d := s.deliveries[d].(phase := phase)])
  }

  /** One call on one row; the index on live jobs refuses to revive a job beside another live one. */
  function WorkOn(cfg: Config, jobs: map<Id, Job>, k: Id, now: real, action: Action): map<Id, Job>
    requires k in jobs
  {
    if Revives(cfg, jobs[k], action) && Live(jobs, jobs[k].source) then jobs
    else jobs[k := Act(cfg, jobs[k], now, action)]
  }

  ghost function Apply(setup: Setup, s: State, step: Step): State
    requires Enabled(setup, s, step)
  {
    match step
    case Deliver(d, e) => s.(deliveries := s.deliveries[d := Delivery(e, Received)])
    case Claim(d) =>
      var e := s.deliveries[d].event;
      if !AsksForWork(e) || e.id in s.ledger then To(s, d, Ignored) else To(s, d, Claimed)
    case Check(d) =>
      (match Accepted(setup, s.deliveries[d].event)
       case None => To(s, d, Lost)
       case Some(source) =>
         if Live(s.jobs, source) then var k :| ActiveOn(s.jobs, k, source); To(s, d, Busy(source, k))
         else To(s, d, Clear(source)))
    case Insert(d) =>
      var source := s.deliveries[d].phase.source;
      if Live(s.jobs, source) then To(s, d, Lost)
      else To(s, d, Inserted(source, s.next)).(next := s.next + 1)
    case Commit(d) =>
      var claimed := s.(ledger := s.ledger + {s.deliveries[d].event.id});
      (match s.deliveries[d].phase
       case Inserted(source, k) => To(claimed, d, Done(source, Some(k))).(jobs := s.jobs[k := Fresh(source)])
       case Busy(source, _) => To(claimed, d, Done(source, None)))
    case Crash(d) => To(s, d, Lost)
    case Work(k, now, action) => s.(jobs := WorkOn(setup.jobs, s.jobs, k, now, action))
    case Create(source) =>
      if Live(s.jobs, source) then s else s.(jobs := s.jobs[s.next := Fresh(source)], next := s.next + 1)
    case Prune(k, _) => s.(jobs := s.jobs - {k})
  }

  function Initial(): State {
    State(map[], {}, map[], 0)
  }

  /** The state after a schedule, or None if it could not run in that order. */
  ghost function Exec(setup: Setup, s: State, steps: seq<Step>): Option<State>
    decreases steps
  {
    if steps == [] then Some(s)
    else if Enabled(setup, s, steps[0]) then Exec(setup, Apply(setup, s, steps[0]), steps[1..])
    else None
  }

  // ---- one delivery without interference --------------------------------------

  datatype Handling = NotAsked | Duplicate | Rejected | AlreadyRunning | Queued(job: Id)

  function HandlingOf(setup: Setup, jobs: map<Id, Job>, ledger: set<string>, next: Id, e: Event): Handling {
    if !AsksForWork(e) then NotAsked
    else if e.id in ledger then Duplicate
    else match Accepted(setup, e)
      case None => Rejected
      case Some(source) => if Live(jobs, source) then AlreadyRunning else Handling.Queued(next)
  }

  function HandledRows(setup: Setup, jobs: map<Id, Job>, ledger: set<string>, next: Id, e: Event, handling: Handling):
    (map<Id, Job>, set<string>, Id)
  {
    match handling
    case AlreadyRunning => (jobs, ledger + {e.id}, next)
    case Queued(k) =>
      var source := Accepted(setup, e);
      (if source.Some? then jobs[k := Fresh(source.value)] else jobs, ledger + {e.id}, next + 1)
    case _ => (jobs, ledger, next)
  }
}
