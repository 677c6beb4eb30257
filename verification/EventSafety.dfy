/**
  Under duplicated delivery, interleaving and crashes anywhere: one job per event, one
  live job per file, no event dropped, and what a committed delivery leaves behind.
*/
module EventSafety {
  import opened Options
  import opened JobModel
  import opened Strings
  import opened EventModel

  // ---- the invariant ----------------------------------------------------------

  ghost predicate OneLiveJob(s: State) {
    && (forall k <- s.jobs :: k < s.next)
    && (forall j, k, source :: ActiveOn(s.jobs, j, source) && ActiveOn(s.jobs, k, source) ==> j == k)
  }

  /** Uncommitted jobs are on files without a live job, one each, under ids of their own. */
  ghost predicate InsertsApart(s: State) {
    && (forall d <- s.deliveries :: s.deliveries[d].phase.Inserted? ==>
      var p := s.deliveries[d].phase;
      p.job < s.next && p.job !in s.jobs && !Live(s.jobs, p.source))
    && (forall c <- s.deliveries, d <- s.deliveries ::
      s.deliveries[c].phase.Inserted? && s.deliveries[d].phase.Inserted? && c != d ==>
      s.deliveries[c].phase.source != s.deliveries[d].phase.source)
  }

  predicate Claims(s: State, d: Did, event: string) {
    d in s.deliveries && s.deliveries[d].event.id == event
    && (HoldsClaim(s.deliveries[d].phase) || s.deliveries[d].phase.Done?)
  }

  predicate Handled(s: State, d: Did, event: string) {
    Claims(s, d, event) && s.deliveries[d].phase.Done?
  }

  /** An event is claimed by at most one delivery, and is in the ledger once that one committed. */
  ghost predicate ClaimedOnce(s: State) {
    && (forall e, c, d :: Claims(s, c, e) && Claims(s, d, e) ==> c == d)
    && (forall d <- s.deliveries :: s.deliveries[d].phase.Done? ==> s.deliveries[d].event.id in s.ledger)
    && (forall e <- s.ledger :: exists d :: Handled(s, d, e))
    && (forall d <- s.deliveries :: s.deliveries[d].phase.Ignored? && AsksForWork(s.deliveries[d].event) ==>
      s.deliveries[d].event.id in s.ledger)
  }

  /** The jobs deliveries created: the row is on the delivery's file for as long as it is stored. */
  ghost predicate OwnJobs(s: State) {
    && (forall d <- s.deliveries :: s.deliveries[d].phase.Done? && s.deliveries[d].phase.own.Some? ==>
      var p := s.deliveries[d].phase;
      p.own.value < s.next && (p.own.value in s.jobs ==> s.jobs[p.own.value].source == p.source))
    && (forall c, d :: c in s.deliveries && d in s.deliveries && OwnJob(s, c) == OwnJob(s, d) && OwnJob(s, c).Some? ==> c == d)
  }

  function OwnJob(s: State, d: Did): Option<Id>
    requires d in s.deliveries
  {
    match s.deliveries[d].phase
    case Done(_, own) => own
    case Inserted(_, job) => Some(job)
    case _ => None
  }

  ghost predicate Inv(s: State) {
    OneLiveJob(s) && InsertsApart(s) && ClaimedOnce(s) && OwnJobs(s)
  }

  /** A call makes no job live except by reviving one on a file without a live job. */
  lemma CallMakesNoSecondLiveJob(cfg: Config, jobs: map<Id, Job>, k: Id, now: real, action: Action, j: Id, source: Key)
    requires k in jobs && Allowed(jobs[k], action) && ActiveOn(WorkOn(cfg, jobs, k, now, action), j, source)
    ensures ActiveOn(jobs, j, source) ||
      (j == k && Revives(cfg, jobs[k], action) && !Live(jobs, source) && jobs[k].source == source)
  {
  }

  /** A step adds a live job only on a file without one. */
  lemma StepMakesNoSecondLiveJob(setup: Setup, s: State, step: Step, j: Id, source: Key)
    requires Enabled(setup, s, step) && ActiveOn(Apply(setup, s, step).jobs, j, source)
    ensures ActiveOn(s.jobs, j, source) || StepAdds(setup, s, step, j, source)
  {
    match step
    case Work(k, now, action) => CallMakesNoSecondLiveJob(setup.jobs, s.jobs, k, now, action, j, source);
    case _ =>
  }

  ghost predicate StepAdds(setup: Setup, s: State, step: Step, j: Id, source: Key) {
    match step
    case Work(k, _, action) =>
      j == k && k in s.jobs && Revives(setup.jobs, s.jobs[k], action) && !Live(s.jobs, source) && !SourceHeld(s, source)
    case Create(key) => j == s.next && source == key && !Live(s.jobs, source) && !SourceHeld(s, source)
    case Commit(d) => d in s.deliveries && s.deliveries[d].phase == Inserted(source, j)
    case _ => false
  }

  lemma StepKeepsOneLiveJob(setup: Setup, s: State, step: Step)
    requires OneLiveJob(s) && InsertsApart(s) && Enabled(setup, s, step)
    ensures OneLiveJob(Apply(setup, s, step))
  {
    var after := Apply(setup, s, step);
    forall j, k, source | ActiveOn(after.jobs, j, source) && ActiveOn(after.jobs, k, source) ensures j == k {
      hide Apply, Enabled;
      StepMakesNoSecondLiveJob(setup, s, step, j, source);
      StepMakesNoSecondLiveJob(setup, s, step, k, source);
    }
  }

  /** A delivery is about to insert only where nothing else is, committed or not. */
  lemma StepInserts(setup: Setup, s: State, step: Step, d: Did)
    requires Enabled(setup, s, step) && d in Apply(setup, s, step).deliveries
    requires Apply(setup, s, step).deliveries[d].phase.Inserted?
    ensures var p := Apply(setup, s, step).deliveries[d].phase;
      || (d in s.deliveries && s.deliveries[d].phase == p && step != Commit(d))
      || (step == Insert(d) && p.job == s.next && !Live(s.jobs, p.source) && !SourceHeld(s, p.source))
  {
    hide WorkOn, Act, Allowed, AsksForWork, Accepted, Live, SourceHeld, LedgerHeld;
  }

  lemma StepKeepsInsertsApart(setup: Setup, s: State, step: Step)
    requires OneLiveJob(s) && InsertsApart(s) && OwnJobs(s) && Enabled(setup, s, step)
    ensures InsertsApart(Apply(setup, s, step))
  {
    var after := Apply(setup, s, step);
    forall d <- after.deliveries | after.deliveries[d].phase.Inserted?
      ensures var p := after.deliveries[d].phase; p.job < after.next && p.job !in after.jobs && !Live(after.jobs, p.source)
    {
      var p := after.deliveries[d].phase;
      StepInserts(setup, s, step, d);
      if step.Commit? && d in s.deliveries { assert OwnJob(s, d) != OwnJob(s, step.d); }
      forall k ensures !ActiveOn(after.jobs, k, p.source) {
        hide Apply, Enabled;
        if ActiveOn(after.jobs, k, p.source) {
          StepMakesNoSecondLiveJob(setup, s, step, k, p.source);
        }
      }
    }
    forall c <- after.deliveries, d <- after.deliveries |
      after.deliveries[c].phase.Inserted? && after.deliveries[d].phase.Inserted? && c != d
      ensures after.deliveries[c].phase.source != after.deliveries[d].phase.source
    {
      hide Apply, Enabled;
      StepInserts(setup, s, step, c);
      StepInserts(setup, s, step, d);
    }
  }

  /** A delivery takes a claim only when no other has one. */
  lemma StepClaims(setup: Setup, s: State, step: Step, d: Did, event: string)
    requires ClaimedOnce(s) && Enabled(setup, s, step) && Claims(Apply(setup, s, step), d, event)
    ensures Claims(s, d, event) || (step == Claim(d) && forall c :: !Claims(s, c, event))
  {
    hide WorkOn, Act, Allowed, AsksForWork, Accepted, Live, SourceHeld;
    if step == Claim(d) {
      forall c ensures !Claims(s, c, event) {}
    }
  }

  lemma StepKeepsHandled(setup: Setup, s: State, step: Step, e: string)
    requires ClaimedOnce(s) && Enabled(setup, s, step) && e in Apply(setup, s, step).ledger
    ensures exists d :: Handled(Apply(setup, s, step), d, e)
  {
    hide WorkOn, Act, Allowed, AsksForWork, Accepted, Live, SourceHeld, LedgerHeld;
    if e in s.ledger {
      var d :| Handled(s, d, e);
      assert Handled(Apply(setup, s, step), d, e);
    } else {
      assert Handled(Apply(setup, s, step), step.d, e);
    }
  }

  lemma StepEndsInLedger(setup: Setup, s: State, step: Step, d: Did)
    requires ClaimedOnce(s) && Enabled(setup, s, step) && d in Apply(setup, s, step).deliveries
    ensures var after := Apply(setup, s, step);
      var x := after.deliveries[d];
      x.phase.Done? || (x.phase.Ignored? && AsksForWork(x.event)) ==> x.event.id in after.ledger
  {
    hide WorkOn, Act, Allowed, AsksForWork, Accepted, Live, SourceHeld, LedgerHeld;
  }

  lemma StepKeepsClaimedOnce(setup: Setup, s: State, step: Step)
    requires ClaimedOnce(s) && Enabled(setup, s, step)
    ensures ClaimedOnce(Apply(setup, s, step))
  {
    hide Apply, Enabled, AsksForWork;
    var after := Apply(setup, s, step);
    forall e <- after.ledger ensures exists d :: Handled(after, d, e) {
      StepKeepsHandled(setup, s, step, e);
    }
    forall e, c, d | Claims(after, c, e) && Claims(after, d, e) ensures c == d {
      StepClaims(setup, s, step, c, e);
      StepClaims(setup, s, step, d, e);
    }
    forall d <- after.deliveries
      ensures var x := after.deliveries[d];
        x.phase.Done? || (x.phase.Ignored? && AsksForWork(x.event)) ==> x.event.id in after.ledger
    {
      StepEndsInLedger(setup, s, step, d);
    }
  }

  /** A delivery's own job is drawn when it is inserted. */
  lemma StepOwns(setup: Setup, s: State, step: Step, d: Did)
    requires Enabled(setup, s, step) && d in Apply(setup, s, step).deliveries && OwnJob(Apply(setup, s, step), d).Some?
    ensures var own := OwnJob(Apply(setup, s, step), d);
      (d in s.deliveries && OwnJob(s, d) == own) || (step == Insert(d) && own == Some(s.next))
  {
    hide WorkOn, Act, Allowed, AsksForWork, Accepted, Live, SourceHeld, LedgerHeld;
  }

  lemma StepKeepsOwnRows(setup: Setup, s: State, step: Step, d: Did)
    requires OneLiveJob(s) && InsertsApart(s) && OwnJobs(s) && Enabled(setup, s, step)
    requires d in Apply(setup, s, step).deliveries && OwnJob(Apply(setup, s, step), d).Some?
    requires Apply(setup, s, step).deliveries[d].phase.Done?
    ensures var after := Apply(setup, s, step);
      var p := after.deliveries[d].phase;
      p.own.value < after.next && (p.own.value in after.jobs ==> after.jobs[p.own.value].source == p.source)
  {
    hide Accepted, AsksForWork, Allowed, Live, SourceHeld, LedgerHeld, Prunable;
    if step.Commit? && d in s.deliveries {
      assert OwnJob(s, d) == OwnJob(s, step.d) ==> OwnJob(s, d).None? || d == step.d;
    }
  }

  lemma StepKeepsOwnJobs(setup: Setup, s: State, step: Step)
    requires OneLiveJob(s) && InsertsApart(s) && OwnJobs(s) && Enabled(setup, s, step)
    ensures OwnJobs(Apply(setup, s, step))
  {
    hide Apply, Enabled;
    var after := Apply(setup, s, step);
    forall d <- after.deliveries | after.deliveries[d].phase.Done? && after.deliveries[d].phase.own.Some?
      ensures var p := after.deliveries[d].phase;
        p.own.value < after.next && (p.own.value in after.jobs ==> after.jobs[p.own.value].source == p.source)
    {
      StepKeepsOwnRows(setup, s, step, d);
    }
    forall c <- after.deliveries, d <- after.deliveries | OwnJob(after, c) == OwnJob(after, d) && OwnJob(after, c).Some?
      ensures c == d
    {
      StepOwns(setup, s, step, c);
      StepOwns(setup, s, step, d);
      if c in s.deliveries && OwnJob(s, c).Some? { OwnIsDrawn(s, c); }
      if d in s.deliveries && OwnJob(s, d).Some? { OwnIsDrawn(s, d); }
    }
  }

  lemma OwnIsDrawn(s: State, d: Did)
    requires InsertsApart(s) && OwnJobs(s) && d in s.deliveries && OwnJob(s, d).Some?
    ensures OwnJob(s, d).value < s.next
  {
  }

  lemma StepKeepsInv(setup: Setup, s: State, step: Step)
    requires Inv(s) && Enabled(setup, s, step)
    ensures Inv(Apply(setup, s, step))
  {
    hide OneLiveJob, InsertsApart, ClaimedOnce, OwnJobs, Apply, Enabled;
    StepKeepsOneLiveJob(setup, s, step);
    StepKeepsInsertsApart(setup, s, step);
    StepKeepsClaimedOnce(setup, s, step);
    StepKeepsOwnJobs(setup, s, step);
  }

  lemma {:induction false} RunKeepsInv(setup: Setup, s: State, steps: seq<Step>)
    requires Inv(s) && Exec(setup, s, steps).Some?
    ensures Inv(Exec(setup, s, steps).value)
    decreases steps
  {
    hide Inv, Apply, Enabled;
    if steps != [] {
      StepKeepsInv(setup, s, steps[0]);
      RunKeepsInv(setup, Apply(setup, s, steps[0]), steps[1..]);
    }
  }

  // ---- what every run promises ------------------------------------------------

  lemma InitialInv()
    ensures Inv(Initial())
  {
  }

  /** In every run at most one live job is stored per file. */
  lemma OneLiveJobPerFile(setup: Setup, steps: seq<Step>, j: Id, k: Id, source: Key)
    requires Exec(setup, Initial(), steps).Some?
    ensures var s := Exec(setup, Initial(), steps).value; ActiveOn(s.jobs, j, source) && ActiveOn(s.jobs, k, source) ==> j == k
  {
    hide Exec;
    InitialInv();
    RunKeepsInv(setup, Initial(), steps);
  }

  /**
    In every run an event commits in at most one of its deliveries, so it creates at
    most one job; no two deliveries share a job; and a delivery is ignored only when
    nothing was asked for or one delivery of the event did commit.
  */
  lemma EventIsHandledOnce(setup: Setup, steps: seq<Step>, c: Did, d: Did)
    requires Exec(setup, Initial(), steps).Some?
    ensures var s := Exec(setup, Initial(), steps).value;
      c in s.deliveries && d in s.deliveries ==>
        var x, y := s.deliveries[c], s.deliveries[d];
        && (x.phase.Done? && y.phase.Done? && (x.event.id == y.event.id || (x.phase.own == y.phase.own != None)) ==> c == d)
        && (x.phase.Done? ==> x.event.id in s.ledger)
        && (x.phase.Ignored? && AsksForWork(x.event) ==> exists w :: Handled(s, w, x.event.id))
  {
    hide Exec, AsksForWork;
    InitialInv();
    RunKeepsInv(setup, Initial(), steps);
    var s := Exec(setup, Initial(), steps).value;
    if c in s.deliveries && d in s.deliveries {
      var x, y := s.deliveries[c], s.deliveries[d];
      if x.phase.Done? && y.phase.Done? {
        assert Claims(s, c, x.event.id) && Claims(s, d, y.event.id);
        assert OwnJob(s, c) == x.phase.own && OwnJob(s, d) == y.phase.own;
      }
    }
  }

  /** Deliveries never wait for each other in a circle. */
  lemma SomeDeliveryCanMove(setup: Setup, s: State, d: Did)
    requires d in s.deliveries && !Finished(s.deliveries[d].phase)
    ensures exists c :: Enabled(setup, s, Claim(c)) || Enabled(setup, s, Check(c)) || Enabled(setup, s, Insert(c)) || Enabled(setup, s, Commit(c))
  {
    hide AsksForWork, Live;
    if c :| c in s.deliveries && (s.deliveries[c].phase.Inserted? || s.deliveries[c].phase.Busy?) {
      assert Enabled(setup, s, Commit(c));
    } else if c :| c in s.deliveries && s.deliveries[c].phase.Clear? {
      assert Enabled(setup, s, Insert(c));
    } else if c :| c in s.deliveries && s.deliveries[c].phase.Claimed? {
      assert Enabled(setup, s, Check(c));
    } else {
      assert Enabled(setup, s, Claim(d));
    }
  }

  // ---- delivery without interference ------------------------------------------

  ghost predicate Quiet(s: State) {
    forall d <- s.deliveries :: Finished(s.deliveries[d].phase)
  }

  /** Runs one step at the front of a schedule. */
  lemma Prepend(setup: Setup, s: State, step: Step, rest: seq<Step>)
    requires Enabled(setup, s, step)
    ensures Exec(setup, s, [step] + rest) == Exec(setup, Apply(setup, s, step), rest)
  {
    assert ([step] + rest)[1..] == rest;
  }

  /** The steps of one delivery in a row. */
  function Alone(h: Handling, d: Did, e: Event): seq<Step> {
    [Deliver(d, e)] + ([Claim(d)] +
      match h
      case NotAsked | Duplicate => []
      case Rejected => [Check(d)] + []
      case AlreadyRunning => [Check(d)] + ([Commit(d)] + [])
      case Queued(_) => [Check(d)] + ([Insert(d)] + ([Commit(d)] + [])))
  }

  ghost predicate Leaves(setup: Setup, before: State, e: Event, after: Option<State>) {
    && after.Some?
    && (after.value.jobs, after.value.ledger, after.value.next)
        == HandledRows(setup, before.jobs, before.ledger, before.next, e,
          HandlingOf(setup, before.jobs, before.ledger, before.next, e))
  }

  /**
    After any crash, once no transaction is open, delivering the event again does what a
    single undisturbed handling does.
  */
  lemma RedeliveryRecovers(setup: Setup, s: State, d: Did, e: Event)
    requires Quiet(s) && d !in s.deliveries
    ensures Leaves(setup, s, e, Exec(setup, s, Alone(HandlingOf(setup, s.jobs, s.ledger, s.next, e), d, e)))
  {
    hide AsksForWork, Accepted, Exec;
    var h := HandlingOf(setup, s.jobs, s.ledger, s.next, e);
    var s1 := s.(deliveries := s.deliveries[d := Delivery(e, Received)]);
    var s2 := Apply(setup, s1, Claim(d));
    var tail := Alone(h, d, e)[2..];
    Prepend(setup, s, Deliver(d, e), [Claim(d)] + tail);
    Prepend(setup, s1, Claim(d), tail);
    assert Alone(h, d, e) == [Deliver(d, e)] + ([Claim(d)] + tail);
    NothingLeft(setup, s2);
    if !h.NotAsked? && !h.Duplicate? {
      assert s2 == To(s1, d, Claimed);
      ClaimedRecovers(setup, s2, d, e, h);
    }
  }

  lemma NothingLeft(setup: Setup, s: State)
    ensures Exec(setup, s, []) == Some(s)
  {
  }

  lemma CheckAlone(setup: Setup, s: State, d: Did, e: Event)
    requires d in s.deliveries && s.deliveries[d] == Delivery(e, Claimed)
    ensures Enabled(setup, s, Check(d))
    ensures Accepted(setup, e).None? ==> Apply(setup, s, Check(d)) == To(s, d, Lost)
  {
  }

  lemma CommitAlone(setup: Setup, s: State, d: Did, e: Event)
    requires d in s.deliveries && s.deliveries[d] == Delivery(e, Claimed)
    requires Accepted(setup, e).Some? && Live(s.jobs, Accepted(setup, e).value)
    ensures var s3 := Apply(setup, s, Check(d));
      Enabled(setup, s3, Commit(d)) &&
      var after := Apply(setup, s3, Commit(d));
      after.jobs == s.jobs && after.ledger == s.ledger + {e.id} && after.next == s.next
  {
    hide Accepted;
  }

  lemma InsertAlone(setup: Setup, s: State, d: Did, e: Event)
    requires d in s.deliveries && s.deliveries[d] == Delivery(e, Claimed)
    requires forall c <- s.deliveries :: c != d ==> Finished(s.deliveries[c].phase)
    requires Accepted(setup, e).Some? && !Live(s.jobs, Accepted(setup, e).value)
    ensures var s3 := Apply(setup, s, Check(d));
      Enabled(setup, s3, Insert(d)) &&
      var s4 := Apply(setup, s3, Insert(d));
      Enabled(setup, s4, Commit(d)) &&
      var after := Apply(setup, s4, Commit(d));
      && after.jobs == s.jobs[s.next := Fresh(Accepted(setup, e).value)] && after.ledger == s.ledger + {e.id}
      && after.next == s.next + 1
  {
    hide Accepted;
    var source := Accepted(setup, e).value;
    assert Apply(setup, s, Check(d)) == To(s, d, Clear(source));
    assert !SourceHeld(To(s, d, Clear(source)), source);
  }

  lemma ClaimedRecovers(setup: Setup, s: State, d: Did, e: Event, h: Handling)
    requires d in s.deliveries && s.deliveries[d] == Delivery(e, Claimed)
    requires forall c <- s.deliveries :: c != d ==> Finished(s.deliveries[c].phase)
    requires AsksForWork(e) && e.id !in s.ledger && h == HandlingOf(setup, s.jobs, s.ledger, s.next, e)
    ensures Leaves(setup, s, e, Exec(setup, s, Alone(h, d, e)[2..]))
  {
    hide AsksForWork, Accepted, Exec;
    CheckAlone(setup, s, d, e);
    if h.AlreadyRunning? { CommitAlone(setup, s, d, e); }
    if h.Queued? { InsertAlone(setup, s, d, e); }
    var s3 := Apply(setup, s, Check(d));
    hide Apply, Live;
    match h
    case Rejected =>
      assert Alone(h, d, e)[2..] == [Check(d)] + [];
      Prepend(setup, s, Check(d), []);
      NothingLeft(setup, s3);
    case AlreadyRunning =>
      assert Alone(h, d, e)[2..] == [Check(d)] + ([Commit(d)] + []);
      Prepend(setup, s, Check(d), [Commit(d)] + []);
      Prepend(setup, s3, Commit(d), []);
      NothingLeft(setup, Apply(setup, s3, Commit(d)));
    case Queued(_) =>
      var s4 := Apply(setup, s3, Insert(d));
      assert Alone(h, d, e)[2..] == [Check(d)] + ([Insert(d)] + ([Commit(d)] + []));
      Prepend(setup, s, Check(d), [Insert(d)] + ([Commit(d)] + []));
      Prepend(setup, s3, Insert(d), [Commit(d)] + []);
      Prepend(setup, s4, Commit(d), []);
      NothingLeft(setup, Apply(setup, s4, Commit(d)));
  }

  // ---- what a committed delivery leaves ---------------------------------------

  /** Every delivery that commits in the run leaves a live job on its file at that moment. */
  ghost predicate CommitsLeaveJobs(setup: Setup, s: State, steps: seq<Step>)
    decreases steps
  {
    steps == [] || (Enabled(setup, s, steps[0]) ==>
      var after := Apply(setup, s, steps[0]);
      && (steps[0].Commit? ==> Live(after.jobs, s.deliveries[steps[0].d].phase.source))
      && CommitsLeaveJobs(setup, after, steps[1..]))
  }

  /** The call takes the live job of a file out of the system's hands. */
  predicate Settles(cfg: Config, s: State, step: Step) {
    step.Work? && step.k in s.jobs && Active(s.jobs[step.k].status) &&
    match step.action
    case Succeed | FailTerminally | Cancel => true
    case ScheduleRetry(_) => s.jobs[step.k].attempts >= cfg.maxAttempts
    case _ => false
  }

  /**
    The step puts a live job on the file: a request, an operator's retry, a late runner's
    backoff on a settled job, or a commit of another delivery.
  */
  predicate Queues(cfg: Config, s: State, step: Step, source: Key) {
    match step
    case Create(key) => key == source && !Live(s.jobs, source)
    case Work(k, _, action) => k in s.jobs && s.jobs[k].source == source && Revives(cfg, s.jobs[k], action) && !Live(s.jobs, source)
    case Commit(d) => d in s.deliveries && s.deliveries[d].phase.Inserted? && s.deliveries[d].phase.source == source
    case _ => false
  }

  predicate BusyOn(s: State, d: Did, source: Key) {
    d in s.deliveries && s.deliveries[d].phase.Busy? && s.deliveries[d].phase.source == source
  }

  /** The open deliveries on whose file, since they saw a live job, a job settled and none was queued after it. */
  function NowBereft(cfg: Config, s: State, bereft: set<Did>, step: Step): set<Did> {
    if Settles(cfg, s, step) then bereft + set d | d in s.deliveries && BusyOn(s, d, s.jobs[step.k].source)
    else set d | d in bereft && !(d in s.deliveries && s.deliveries[d].phase.Busy? && Queues(cfg, s, step, s.deliveries[d].phase.source))
  }

  /** No delivery commits that is bereft by then. */
  ghost predicate NoBereftCommits(setup: Setup, s: State, bereft: set<Did>, steps: seq<Step>)
    decreases steps
  {
    steps == [] || (Enabled(setup, s, steps[0]) ==>
      && (steps[0].Commit? ==> steps[0].d !in bereft)
      && NoBereftCommits(setup, Apply(setup, s, steps[0]), NowBereft(setup.jobs, s, bereft, steps[0]), steps[1..]))
  }

  /** A file has a live job after a step iff the step queues one, or it had one and the step does not settle it. */
  lemma StaysLiveExactly(setup: Setup, s: State, step: Step, source: Key)
    requires OneLiveJob(s) && InsertsApart(s) && Enabled(setup, s, step)
    ensures Live(Apply(setup, s, step).jobs, source) <==>
      Queues(setup.jobs, s, step, source) || (Live(s.jobs, source) && !(Settles(setup.jobs, s, step) && s.jobs[step.k].source == source))
  {
    hide LedgerHeld, SourceHeld, AsksForWork, Accepted;
    var after := Apply(setup, s, step).jobs;
    match step
    case Work(k, now, action) => CallStaysLiveExactly(setup, s, k, now, action, source);
    case Create(key) =>
      if Live(s.jobs, source) {
        var j :| ActiveOn(s.jobs, j, source);
        assert ActiveOn(after, j, source) by { assert s.next !in s.jobs; }
      } else if key == source {
        assert ActiveOn(after, s.next, source);
      }
    case Commit(d) => CommitStaysLiveExactly(setup, s, d, source);
    case Prune(k, now) =>
      if j :| ActiveOn(s.jobs, j, source) { assert ActiveOn(after, j, source); }
    case _ => assert after == s.jobs;
  }

  lemma CallStaysLiveExactly(setup: Setup, s: State, k: Id, now: real, action: Action, source: Key)
    requires OneLiveJob(s) && k in s.jobs && Allowed(s.jobs[k], action)
    ensures var step := Work(k, now, action);
      Live(WorkOn(setup.jobs, s.jobs, k, now, action), source) <==>
      Queues(setup.jobs, s, step, source) || (Live(s.jobs, source) && !(Settles(setup.jobs, s, step) && s.jobs[k].source == source))
  {
    var step, after := Work(k, now, action), WorkOn(setup.jobs, s.jobs, k, now, action);
    if Queues(setup.jobs, s, step, source) { assert ActiveOn(after, k, source); }
    if j :| ActiveOn(s.jobs, j, source) {
      if Settles(setup.jobs, s, step) && s.jobs[k].source == source {
        forall i ensures !ActiveOn(after, i, source) {
          if i != k && ActiveOn(after, i, source) { assert ActiveOn(s.jobs, i, source) && ActiveOn(s.jobs, k, source); }
        }
      } else {
        assert ActiveOn(after, j, source);
      }
    } else if i :| ActiveOn(after, i, source) {
      CallMakesNoSecondLiveJob(setup.jobs, s.jobs, k, now, action, i, source);
      assert Queues(setup.jobs, s, step, source);
    }
  }

  lemma CommitStaysLiveExactly(setup: Setup, s: State, d: Did, source: Key)
    requires Enabled(setup, s, Commit(d))
    requires s.deliveries[d].phase.Inserted? ==> s.deliveries[d].phase.job !in s.jobs
    ensures Live(Apply(setup, s, Commit(d)).jobs, source) <==> Queues(setup.jobs, s, Commit(d), source) || Live(s.jobs, source)
  {
    var after := Apply(setup, s, Commit(d)).jobs;
    if Queues(setup.jobs, s, Commit(d), source) { assert ActiveOn(after, s.deliveries[d].phase.job, source); }
    if j :| ActiveOn(s.jobs, j, source) { assert ActiveOn(after, j, source); }
  }

  /** Exactly the bereft among the deliveries that saw a live job are without one. */
  ghost predicate Tracked(s: State, bereft: set<Did>) {
    && (forall d <- bereft :: d in s.deliveries && (s.deliveries[d].phase.Busy? || Finished(s.deliveries[d].phase)))
    && (forall d, source :: BusyOn(s, d, source) ==> (d in bereft <==> !Live(s.jobs, source)))
  }

  lemma StepKeepsTracked(setup: Setup, s: State, bereft: set<Did>, step: Step)
    requires OneLiveJob(s) && InsertsApart(s) && Tracked(s, bereft) && Enabled(setup, s, step)
    ensures Tracked(Apply(setup, s, step), NowBereft(setup.jobs, s, bereft, step))
  {
    hide LedgerHeld, SourceHeld, AsksForWork, Accepted, WorkOn, Act, Allowed, Live;
    var after, now := Apply(setup, s, step), NowBereft(setup.jobs, s, bereft, step);
    forall d <- now ensures d in after.deliveries && (after.deliveries[d].phase.Busy? || Finished(after.deliveries[d].phase)) {}
    forall d, source | BusyOn(after, d, source) ensures d in now <==> !Live(after.jobs, source) {
      StaysLiveExactly(setup, s, step, source);
      StepSees(setup, s, step, d, source);
    }
  }

  /** A delivery that is busy after a step was so before, or has just seen a live job. */
  lemma StepSees(setup: Setup, s: State, step: Step, d: Did, source: Key)
    requires Enabled(setup, s, step) && BusyOn(Apply(setup, s, step), d, source)
    ensures BusyOn(s, d, source) || (step == Check(d) && Live(s.jobs, source))
  {
    hide LedgerHeld, SourceHeld, AsksForWork, WorkOn, Act, Allowed;
  }

  /** From any state that keeps the invariant. */
  lemma {:induction false} CommitsLeaveJobsExactlyFrom(setup: Setup, s: State, bereft: set<Did>, steps: seq<Step>)
    requires Inv(s) && Tracked(s, bereft)
    ensures CommitsLeaveJobs(setup, s, steps) <==> NoBereftCommits(setup, s, bereft, steps)
    decreases steps
  {
    if steps != [] && Enabled(setup, s, steps[0]) {
      hide OneLiveJob, InsertsApart, ClaimedOnce, OwnJobs, Tracked, Apply, NowBereft, Live, Enabled;
      var step := steps[0];
      var after := Apply(setup, s, step);
      if step.Commit? { CommitLeavesJobExactly(setup, s, bereft, step.d); }
      StepKeepsInv(setup, s, step);
      StepKeepsTracked(setup, s, bereft, step);
      CommitsLeaveJobsExactlyFrom(setup, after, NowBereft(setup.jobs, s, bereft, step), steps[1..]);
    }
  }

  lemma CommitLeavesJobExactly(setup: Setup, s: State, bereft: set<Did>, d: Did)
    requires InsertsApart(s) && Tracked(s, bereft) && Enabled(setup, s, Commit(d))
    ensures Live(Apply(setup, s, Commit(d)).jobs, s.deliveries[d].phase.source) <==> d !in bereft
  {
    CommitStaysLiveExactly(setup, s, d, s.deliveries[d].phase.source);
  }

  /**
    In every run: each delivery that commits leaves a live job on its file, its own or
    another, if and only if none commits on whose file, since it saw a live job, a job
    settled and none was queued after it.
  */
  lemma CommitsLeaveJobsExactly(setup: Setup, steps: seq<Step>)
    ensures CommitsLeaveJobs(setup, Initial(), steps) <==> NoBereftCommits(setup, Initial(), {}, steps)
  {
    InitialInv();
    CommitsLeaveJobsExactlyFrom(setup, Initial(), {}, steps);
  }

  /** One job and one delivery. */
  function Pair(job: Job, e: Event, phase: Phase): State {
    State(map[0 := job], {}, map[0 := Delivery(e, phase)], 1)
  }

  lemma SeesTheJob(setup: Setup, e: Event, file: Key)
    requires AsksForWork(e) && Accepted(setup, e) == Some(file)
    ensures var s := Pair(Fresh(file), e, Received);
      Enabled(setup, s, Claim(0)) && Apply(setup, s, Claim(0)) == Pair(Fresh(file), e, Claimed)
    ensures var s := Pair(Fresh(file), e, Claimed);
      Enabled(setup, s, Check(0)) && Apply(setup, s, Check(0)) == Pair(Fresh(file), e, Busy(file, 0))
  {
    hide AsksForWork, Accepted;
    assert ActiveOn(map[0 := Fresh(file)], 0, file);
  }

  lemma CommitsWithoutJob(setup: Setup, e: Event, file: Key)
    ensures var s, gone := Pair(Fresh(file), e, Busy(file, 0)), Act(setup.jobs, Fresh(file), 0.0, Cancel);
      && Enabled(setup, s, Work(0, 0.0, Cancel)) && Apply(setup, s, Work(0, 0.0, Cancel)) == Pair(gone, e, Busy(file, 0))
      && Enabled(setup, Pair(gone, e, Busy(file, 0)), Commit(0))
      && !Live(Apply(setup, Pair(gone, e, Busy(file, 0)), Commit(0)).jobs, file)
  {
  }

  /** A job on the file is queued, seen by a delivery and cancelled before that delivery commits. */
  lemma SettledMeanwhile(setup: Setup, book: string) returns (steps: seq<Step>)
    requires book != "" && setup.isUuid(book)
    ensures Exec(setup, Initial(), steps).Some? && !CommitsLeaveJobs(setup, Initial(), steps)
  {
    hide WorkOn, Act, Accepted;
    var file := "a";
    var e := Event("e", "book.created", map["source_key" := file, "book_id" := book]);
    assert Accepted(setup, e) == Some(file) by { PlainKey(setup, e); }
    var s0 := Initial();
    var s1 := s0.(jobs := map[0 := Fresh(file)], next := 1);
    steps := [Create(file), Deliver(0, e), Claim(0), Check(0), Work(0, 0.0, Cancel), Commit(0)];
    assert Enabled(setup, s0, Create(file)) && Apply(setup, s0, Create(file)) == s1;
    assert Enabled(setup, s1, Deliver(0, e)) && Apply(setup, s1, Deliver(0, e)) == Pair(Fresh(file), e, Received);
    SeesTheJob(setup, e, file);
    CommitsWithoutJob(setup, e, file);
    hide Apply, Enabled;
    Unroll(setup, s0, steps);
    Unroll(setup, s1, steps[1..]);
    Unroll(setup, Pair(Fresh(file), e, Received), steps[2..]);
    Unroll(setup, Pair(Fresh(file), e, Claimed), steps[3..]);
    Unroll(setup, Pair(Fresh(file), e, Busy(file, 0)), steps[4..]);
    Unroll(setup, Pair(Act(setup.jobs, Fresh(file), 0.0, Cancel), e, Busy(file, 0)), steps[5..]);
  }

  lemma PlainKey(setup: Setup, e: Event)
    requires RawKey(e) == "a" && setup.isUuid(RawBook(e))
    ensures Accepted(setup, e) == Some("a")
  {
    assert FileName("a") == "a";
    assert !Contains("a", "..");
  }

  lemma Unroll(setup: Setup, s: State, steps: seq<Step>)
    requires steps != [] && Enabled(setup, s, steps[0])
    ensures var after := Apply(setup, s, steps[0]);
      && Exec(setup, s, steps) == Exec(setup, after, steps[1..])
      && CommitsLeaveJobs(setup, s, steps) ==
        ((steps[0].Commit? ==> Live(after.jobs, s.deliveries[steps[0].d].phase.source))
        && CommitsLeaveJobs(setup, after, steps[1..]))
  {
  }
}
