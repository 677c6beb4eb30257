/**
  One day's spend counter for one scope, incremented by concurrent transactions:
  UPDATE, and when no row matched, INSERT under a savepoint, and when that hits the
  unique constraint, UPDATE again. Statements of different transactions interleave
  freely; a transaction's write becomes visible when it commits, an update blocks
  while another transaction holds the rows, and an insert into a unique key blocks
  while another insert of it is uncommitted.
*/
module BudgetCounter {
  import opened Options

  type Pid = nat

  datatype Charge = Charge(cost: nat, input: nat, output: nat)

  datatype Row = Row(cost: nat, requests: nat, input: nat, output: nat)

  datatype Stage = Start | Missed | Conflicted | Written | Committed | Aborted

  /** An uncommitted write: a new row, or an addition to the rows visible to the statement. */
  datatype Write = Inserted | Updated(visible: nat)

  /** `log` lists the transactions that committed, in commit order. */
  datatype State = State(rows: seq<Row>, pending: map<Pid, Write>, stage: map<Pid, Stage>, log: seq<Pid>)

  datatype Step = Update(p: Pid) | Insert(p: Pid) | Reupdate(p: Pid) | Commit(p: Pid) | Abort(p: Pid)

  function Opened(c: Charge): Row {
    Row(c.cost, 1, c.input, c.output)
  }

  function Added(r: Row, c: Charge): Row {
    Row(r.cost + c.cost, r.requests + 1, r.input + c.input, r.output + c.output)
  }

  predicate InsertPending(s: State) {
    exists p <- s.pending :: s.pending[p].Inserted?
  }

  predicate UpdatePending(s: State) {
    exists p <- s.pending :: s.pending[p].Updated?
  }

  /** Whether the database would let the statement run now rather than block or not at all. */
  predicate Enabled(unique: bool, s: State, step: Step) {
    step.p in s.stage &&
    match step
    case Update(p) => s.stage[p].Start? && (s.rows != [] ==> !UpdatePending(s))
    case Insert(p) => s.stage[p].Missed? && (unique && s.rows == [] ==> !InsertPending(s))
    case Reupdate(p) => s.stage[p].Conflicted? && !UpdatePending(s)
    case Commit(p) => s.stage[p].Written? && p in s.pending
    case Abort(p) => !s.stage[p].Committed?
  }

  function AddToVisible(rows: seq<Row>, visible: nat, c: Charge): seq<Row> {
    seq(|rows|, i requires 0 <= i < |rows| => if i < visible then Added(rows[i], c) else rows[i])
  }

  function Apply(unique: bool, charges: map<Pid, Charge>, s: State, step: Step): State
    requires charges.Keys == s.stage.Keys && Enabled(unique, s, step)
  {
    match step
    case Update(p) =>
      if s.rows == [] then s.(stage := s.stage[p := Missed])
      else s.(stage := s.stage[p := Written], pending := s.pending[p := Updated(|s.rows|)])
    case Insert(p) =>
      if unique && s.rows != [] then s.(stage := s.stage[p := Conflicted])
      else s.(stage := s.stage[p := Written], pending := s.pending[p := Inserted])
    case Reupdate(p) =>
      // The row count of this update is not looked at.
      s.(stage := s.stage[p := Written], pending := s.pending[p := Updated(|s.rows|)])
    case Commit(p) =>
      var rows := match s.pending[p]
        case Inserted => s.rows + [Opened(charges[p])]
        case Updated(visible) => AddToVisible(s.rows, visible, charges[p]);
      State(rows, s.pending - {p}, s.stage[p := Committed], s.log + [p])
    case Abort(p) => s.(stage := s.stage[p := Aborted], pending := s.pending - {p})
  }

  function Initial(charges: map<Pid, Charge>): State {
    State([], map[], map p | p in charges :: Start, [])
  }

  /** The state after a schedule, or None if the database would not run it in that order. */
  function Exec(unique: bool, charges: map<Pid, Charge>, s: State, steps: seq<Step>): Option<State>
    requires charges.Keys == s.stage.Keys
    decreases steps
  {
    if steps == [] then Some(s)
    else if Enabled(unique, s, steps[0]) then Exec(unique, charges, Apply(unique, charges, s, steps[0]), steps[1..])
    else None
  }

  lemma ExecCons(unique: bool, charges: map<Pid, Charge>, s: State, step: Step, rest: seq<Step>)
    requires charges.Keys == s.stage.Keys
    ensures Exec(unique, charges, s, [step] + rest) ==
      if Enabled(unique, s, step) then Exec(unique, charges, Apply(unique, charges, s, step), rest) else None
  {
    assert ([step] + rest)[1..] == rest;
  }

  // ---- the counter is the sum of the committed charges ------------------------

  /** What the charges of `log` come to: the sum of each of their amounts, and their number. */
  function Total(charges: map<Pid, Charge>, log: seq<Pid>): Row
    requires forall p <- log :: p in charges
  {
    if log == [] then Row(0, 0, 0, 0)
    else
      var t, c := Total(charges, log[..|log| - 1]), charges[log[|log| - 1]];
      Row(t.cost + c.cost, t.requests + 1, t.input + c.input, t.output + c.output)
  }

  ghost predicate Exact(charges: map<Pid, Charge>, s: State) {
    && (forall p <- s.log :: p in charges)
    && s.rows == if s.log == [] then [] else [Total(charges, s.log)]
  }

  ghost predicate LoggedOnce(s: State) {
    && (forall i, j :: 0 <= i < j < |s.log| ==> s.log[i] != s.log[j])
    && (forall p: Pid :: p in s.log <==> p in s.stage && s.stage[p].Committed?)
  }

  /** At most one transaction has written, a first row while there is none, else an addition. */
  ghost predicate OneWriter(s: State) {
    && (forall p: Pid :: p in s.pending <==> p in s.stage && s.stage[p].Written?)
    && (forall p, q :: p in s.pending && q in s.pending ==> p == q)
    && (forall p <- s.pending :: s.pending[p] == if s.rows == [] then Inserted else Updated(1))
    && (forall p <- s.stage :: s.stage[p].Conflicted? ==> s.rows != [])
  }

  ghost predicate Inv(charges: map<Pid, Charge>, s: State) {
    charges.Keys == s.stage.Keys && Exact(charges, s) && LoggedOnce(s) && OneWriter(s)
  }

  /** What the unique constraint enforces, and an unconstrained key has to be given from outside. */
  predicate SerialInsert(s: State) {
    s.rows == [] && !InsertPending(s)
  }

  lemma StatementKeepsInv(unique: bool, charges: map<Pid, Charge>, s: State, step: Step)
    requires Inv(charges, s) && Enabled(unique, s, step) && !step.Commit?
    requires unique || (step.Insert? ==> SerialInsert(s))
    ensures Inv(charges, Apply(unique, charges, s, step))
  {
    hide Total;
  }

  lemma OneChargeMore(charges: map<Pid, Charge>, log: seq<Pid>, p: Pid)
    requires p in charges && forall q <- log :: q in charges
    ensures var t, c := Total(charges, log), charges[p];
      Total(charges, log + [p]) == Row(t.cost + c.cost, t.requests + 1, t.input + c.input, t.output + c.output)
  {
    assert (log + [p])[..|log|] == log;
  }

  lemma RowsAfterCommit(unique: bool, charges: map<Pid, Charge>, s: State, p: Pid)
    requires charges.Keys == s.stage.Keys && Enabled(unique, s, Commit(p)) && |s.rows| <= 1
    requires s.pending[p] == if s.rows == [] then Inserted else Updated(1)
    ensures var after := Apply(unique, charges, s, Commit(p));
      && after.log == s.log + [p]
      && after.rows == [if s.rows == [] then Opened(charges[p]) else Added(s.rows[0], charges[p])]
  {
  }

  lemma CommitAdds(unique: bool, charges: map<Pid, Charge>, s: State, p: Pid)
    requires Inv(charges, s) && Enabled(unique, s, Commit(p))
    ensures Exact(charges, Apply(unique, charges, s, Commit(p)))
  {
    assert s.pending[p] == if s.rows == [] then Inserted else Updated(1);
    RowsAfterCommit(unique, charges, s, p);
    hide Inv, LoggedOnce, OneWriter, Apply, Enabled, AddToVisible;
    OneChargeMore(charges, s.log, p);
    assert s.log == [] ==> Total(charges, s.log) == Row(0, 0, 0, 0);
    hide Total;
  }

  lemma CommitKeepsInv(unique: bool, charges: map<Pid, Charge>, s: State, p: Pid)
    requires Inv(charges, s) && Enabled(unique, s, Commit(p))
    ensures Inv(charges, Apply(unique, charges, s, Commit(p)))
  {
    CommitAdds(unique, charges, s, p);
    hide Total, AddToVisible;
  }

  lemma StepKeepsInv(unique: bool, charges: map<Pid, Charge>, s: State, step: Step)
    requires Inv(charges, s) && Enabled(unique, s, step)
    requires unique || (step.Insert? ==> SerialInsert(s))
    ensures Inv(charges, Apply(unique, charges, s, step))
  {
    if step.Commit? {
      CommitKeepsInv(unique, charges, s, step.p);
    } else {
      StatementKeepsInv(unique, charges, s, step);
    }
  }

  /** Every insert of the schedule finds neither a row nor an uncommitted insert. */
  predicate InsertsSerial(unique: bool, charges: map<Pid, Charge>, s: State, steps: seq<Step>)
    requires charges.Keys == s.stage.Keys
    decreases steps
  {
    steps == [] || (Enabled(unique, s, steps[0]) ==>
      (steps[0].Insert? ==> SerialInsert(s)) &&
      InsertsSerial(unique, charges, Apply(unique, charges, s, steps[0]), steps[1..]))
  }

  lemma {:induction false} ScheduleKeepsInv(unique: bool, charges: map<Pid, Charge>, s: State, steps: seq<Step>)
    requires Inv(charges, s) && (unique || InsertsSerial(unique, charges, s, steps))
    ensures var end := Exec(unique, charges, s, steps); end.Some? ==> Inv(charges, end.value)
    decreases steps
  {
    hide Exact, LoggedOnce, OneWriter;
    if steps != [] && Enabled(unique, s, steps[0]) {
      StepKeepsInv(unique, charges, s, steps[0]);
      ScheduleKeepsInv(unique, charges, Apply(unique, charges, s, steps[0]), steps[1..]);
    }
  }

  /**
    A user's counter, in every schedule: there is a row exactly when a charge has
    committed, it is the sum of the committed charges, and each of them is in it once.
  */
  lemma UserCounterIsExact(charges: map<Pid, Charge>, steps: seq<Step>)
    ensures var end := Exec(true, charges, Initial(charges), steps);
      end.Some? ==> Exact(charges, end.value) && LoggedOnce(end.value)
  {
    ScheduleKeepsInv(true, charges, Initial(charges), steps);
  }

  lemma {:induction false} UpdateStaysPending(unique: bool, charges: map<Pid, Charge>, s: State, steps: seq<Step>, p: Pid)
    requires charges.Keys == s.stage.Keys && Exec(unique, charges, s, steps).Some? && forall step <- steps :: step.p != p
    requires p in s.stage && p in s.pending
    ensures var end := Exec(unique, charges, s, steps).value;
      && charges.Keys == end.stage.Keys && end.stage[p] == s.stage[p] && |s.rows| <= |end.rows|
      && p in end.pending && end.pending[p] == s.pending[p]
    decreases steps
  {
    if steps != [] {
      assert steps[0] in steps;
      UpdateStaysPending(unique, charges, Apply(unique, charges, s, steps[0]), steps[1..], p);
    }
  }

  /** An addition reaches exactly the rows that were there when it was made, whatever happens until it commits. */
  lemma ChargeReachesSeenRows(unique: bool, charges: map<Pid, Charge>, s: State, p: Pid, steps: seq<Step>)
    requires charges.Keys == s.stage.Keys && Enabled(unique, s, Update(p)) && s.rows != []
    requires Exec(unique, charges, Apply(unique, charges, s, Update(p)), steps).Some? && forall step <- steps :: step.p != p
    ensures var middle := Exec(unique, charges, Apply(unique, charges, s, Update(p)), steps).value;
      && charges.Keys == middle.stage.Keys && Enabled(unique, middle, Commit(p)) && |s.rows| <= |middle.rows|
      && var end := Apply(unique, charges, middle, Commit(p));
      && |end.rows| == |middle.rows|
      && forall i :: 0 <= i < |end.rows| ==>
        var row, c := middle.rows[i], charges[p];
        end.rows[i] ==
          if i < |s.rows| then Row(row.cost + c.cost, row.requests + 1, row.input + c.input, row.output + c.output) else row
  {
    UpdateStaysPending(unique, charges, Apply(unique, charges, s, Update(p)), steps, p);
  }

  /** No schedule ends in a deadlock: an unfinished transaction leaves some statement runnable. */
  lemma SomeoneCanAlwaysProceed(charges: map<Pid, Charge>, steps: seq<Step>, p: Pid)
    ensures var end := Exec(true, charges, Initial(charges), steps);
      end.Some? && p in end.value.stage && end.value.stage[p] !in {Committed, Aborted} ==>
        exists step: Step :: !step.Abort? && Enabled(true, end.value, step)
  {
    ScheduleKeepsInv(true, charges, Initial(charges), steps);
    var end := Exec(true, charges, Initial(charges), steps);
    if end.Some? && p in end.value.stage && end.value.stage[p] !in {Committed, Aborted} {
      var s := end.value;
      if q :| q in s.pending {
        assert Enabled(true, s, Commit(q));
      } else {
        assert Enabled(true, s, match s.stage[p]
          case Start => Update(p)
          case Missed => Insert(p)
          case _ => Reupdate(p));
      }
    }
  }

  /** A charge that found no row and then cannot insert one adds to the row that came in between. */
  lemma LoserStillCharges(charges: map<Pid, Charge>, s: State, p: Pid)
    requires Inv(charges, s) && s.pending == map[] && p in s.stage && s.stage[p].Missed?
    ensures var steps := if s.rows == [] then [Insert(p), Commit(p)] else [Insert(p), Reupdate(p), Commit(p)];
      var end := Exec(true, charges, s, steps);
      && end.Some? && end.value.log == s.log + [p]
      && (forall q <- end.value.log :: q in charges) && end.value.rows == [Total(charges, s.log + [p])]
  {
    var s1 := Apply(true, charges, s, Insert(p));
    StepKeepsInv(true, charges, s, Insert(p));
    hide Total, Exact, LoggedOnce, OneWriter;
    ExecCons(true, charges, s, Insert(p), if s.rows == [] then [Commit(p)] else [Reupdate(p), Commit(p)]);
    if s.rows == [] {
      LastCommit(charges, s1, p);
    } else {
      StepKeepsInv(true, charges, s1, Reupdate(p));
      ExecCons(true, charges, s1, Reupdate(p), [Commit(p)]);
      LastCommit(charges, Apply(true, charges, s1, Reupdate(p)), p);
    }
  }

  lemma LastCommit(charges: map<Pid, Charge>, s: State, p: Pid)
    requires Inv(charges, s) && Enabled(true, s, Commit(p))
    ensures var end := Exec(true, charges, s, [Commit(p)]);
      && end.Some? && end.value.log == s.log + [p]
      && (forall q <- end.value.log :: q in charges) && end.value.rows == [Total(charges, s.log + [p])]
  {
    hide Total;
    CommitAdds(true, charges, s, p);
    ExecCons(true, charges, s, Commit(p), []);
    assert [Commit(p)] + [] == [Commit(p)];
  }

  // ---- the platform row, which the constraint does not bind -------------------

  /** With its first increments of the day serial, the platform's counter is exact too. */
  lemma PlatformCounterIsExactWhenSerial(charges: map<Pid, Charge>, steps: seq<Step>)
    requires InsertsSerial(false, charges, Initial(charges), steps)
    ensures var end := Exec(false, charges, Initial(charges), steps);
      end.Some? ==> Exact(charges, end.value) && LoggedOnce(end.value)
  {
    ScheduleKeepsInv(false, charges, Initial(charges), steps);
  }

  /** Rows are never merged again: a split counter stays split. */
  lemma {:induction false} RowsOnlyGrow(unique: bool, charges: map<Pid, Charge>, s: State, steps: seq<Step>)
    requires charges.Keys == s.stage.Keys
    ensures var end := Exec(unique, charges, s, steps); end.Some? ==> |s.rows| <= |end.value.rows|
    decreases steps
  {
    if steps != [] && Enabled(unique, s, steps[0]) {
      RowsOnlyGrow(unique, charges, Apply(unique, charges, s, steps[0]), steps[1..]);
    }
  }

  /**
    And only then: from any state reached serially, one insert that is not serial can
    be completed, by commits alone, to a state with two rows.
  */
  lemma NonSerialInsertSplitsCounter(charges: map<Pid, Charge>, s: State, p: Pid)
    requires Inv(charges, s) && Enabled(false, s, Insert(p)) && !SerialInsert(s)
    ensures exists commits: seq<Step> ::
      (forall step <- commits :: step.Commit?) &&
      var split := Exec(false, charges, s, [Insert(p)] + commits);
      split.Some? && |split.value.rows| >= 2
  {
    var s1 := Apply(false, charges, s, Insert(p));
    var last := [Commit(p)];
    assert [Commit(p)] + [] == last;
    ExecCons(false, charges, s, Insert(p), last);
    ExecCons(false, charges, s1, Commit(p), []);
    if s.rows == [] {
      var q :| q in s.pending && s.pending[q].Inserted?;
      TwoInsertsCommit(charges, s1, q, p);
      ExecCons(false, charges, s, Insert(p), [Commit(q)] + last);
    } else {
      assert forall step <- last :: step.Commit?;
    }
  }

  lemma TwoInsertsCommit(charges: map<Pid, Charge>, s: State, q: Pid, p: Pid)
    requires charges.Keys == s.stage.Keys && p != q && p in s.pending && q in s.pending
    requires s.pending[p].Inserted? && s.pending[q].Inserted?
    requires Enabled(false, s, Commit(p)) && Enabled(false, s, Commit(q))
    ensures var end := Exec(false, charges, s, [Commit(q)] + [Commit(p)]);
      end.Some? && |end.value.rows| >= 2
  {
    var s1 := Apply(false, charges, s, Commit(q));
    ExecCons(false, charges, s, Commit(q), [Commit(p)]);
    ExecCons(false, charges, s1, Commit(p), []);
    assert [Commit(p)] + [] == [Commit(p)];
  }

  /** The single-row read that every check makes. */
  datatype Read = Nothing | OneRow(row: Row) | Raises

  function ReadRow(rows: seq<Row>): Read {
    if rows == [] then Nothing else if |rows| == 1 then OneRow(rows[0]) else Raises
  }

  lemma {:induction false} ExecJoin(unique: bool, charges: map<Pid, Charge>, s: State, first: seq<Step>, more: seq<Step>)
    requires charges.Keys == s.stage.Keys
    ensures var middle := Exec(unique, charges, s, first);
      middle.Some? ==>
        && charges.Keys == middle.value.stage.Keys
        && Exec(unique, charges, s, first + more) == Exec(unique, charges, middle.value, more)
    decreases first
  {
    if first == [] {
      assert first + more == more;
    } else {
      assert (first + more)[0] == first[0] && (first + more)[1..] == first[1..] + more;
      if Enabled(unique, s, first[0]) { ExecJoin(unique, charges, Apply(unique, charges, s, first[0]), first[1..], more); }
    }
  }

  /** Whatever follows the schedule, the read of the counter raises. */
  ghost predicate FailsFromThenOn(charges: map<Pid, Charge>, s: State, schedule: seq<Step>)
    requires charges.Keys == s.stage.Keys
  {
    && Exec(false, charges, s, schedule).Some?
    && forall more :: var end := Exec(false, charges, s, schedule + more); end.Some? ==> ReadRow(end.value.rows) == Raises
  }

  /** After a non-serial insert, commits alone lead to where every later check fails: no request passes it again that day. */
  lemma SplitCounterFailsEveryCheck(charges: map<Pid, Charge>, s: State, p: Pid)
    requires Inv(charges, s) && Enabled(false, s, Insert(p)) && !SerialInsert(s)
    ensures exists commits: seq<Step> ::
      (forall step <- commits :: step.Commit?) && FailsFromThenOn(charges, s, [Insert(p)] + commits)
  {
    NonSerialInsertSplitsCounter(charges, s, p);
    var commits: seq<Step> :| (forall step <- commits :: step.Commit?) &&
      var split := Exec(false, charges, s, [Insert(p)] + commits);
      split.Some? && |split.value.rows| >= 2;
    var schedule := [Insert(p)] + commits;
    var split := Exec(false, charges, s, schedule).value;
    forall more ensures var end := Exec(false, charges, s, schedule + more); end.Some? ==> ReadRow(end.value.rows) == Raises {
      hide Apply, Enabled, Inv;
      ExecJoin(false, charges, s, schedule, more);
      RowsOnlyGrow(false, charges, split, more);
    }
  }

  /** The states of two raced first requests, and a third that is past its check and has not charged. */
  function Raced(c: Charge, i: nat): State {
    match i
    case 0 => State([], map[], map[0 := Start, 1 := Start, 2 := Start], [])
    case 1 => State([], map[], map[0 := Missed, 1 := Start, 2 := Start], [])
    case 2 => State([], map[], map[0 := Missed, 1 := Missed, 2 := Start], [])
    case 3 => State([], map[0 := Inserted], map[0 := Written, 1 := Missed, 2 := Start], [])
    case 4 => State([], map[0 := Inserted, 1 := Inserted], map[0 := Written, 1 := Written, 2 := Start], [])
    case 5 => State([Opened(c)], map[1 := Inserted], map[0 := Committed, 1 := Written, 2 := Start], [0])
    case _ => State([Opened(c), Opened(c)], map[], map[0 := Committed, 1 := Committed, 2 := Start], [0, 1])
  }

  function Schedule(): seq<Step> {
    [Update(0), Update(1), Insert(0), Insert(1), Commit(0), Commit(1)]
  }

  lemma RacedStep(c: Charge, i: nat)
    requires i < 6
    ensures var charges := map[0 := c, 1 := c, 2 := c];
      charges.Keys == Raced(c, i).stage.Keys && Enabled(false, Raced(c, i), Schedule()[i]) &&
      Apply(false, charges, Raced(c, i), Schedule()[i]) == Raced(c, i + 1)
  {
    if i == 4 { assert Raced(c, 4).pending - {0} == map[1 := Inserted]; }
    if i == 5 { assert Raced(c, 5).pending - {1} == map[]; }
  }

  lemma {:induction false} RacedFrom(c: Charge, i: nat)
    requires i <= 6
    ensures var charges := map[0 := c, 1 := c, 2 := c];
      charges.Keys == Raced(c, i).stage.Keys && Exec(false, charges, Raced(c, i), Schedule()[i..]) == Some(Raced(c, 6))
    decreases 6 - i
  {
    if i < 6 {
      RacedStep(c, i);
      hide Raced, Apply, Enabled;
      RacedFrom(c, i + 1);
      assert Schedule()[i..][1..] == Schedule()[i + 1..];
    }
  }

  /** Two first requests of the day can race to leave two rows. */
  lemma RacedFirstRequests(c: Charge)
    ensures var charges := map[0 := c, 1 := c, 2 := c];
      Exec(false, charges, Initial(charges), Schedule()) == Some(Raced(c, 6)) && Raced(c, 6).rows == [Opened(c), Opened(c)]
  {
    RacedFrom(c, 0);
    assert Schedule()[0..] == Schedule();
    assert Initial(map[0 := c, 1 := c, 2 := c]) == Raced(c, 0);
  }

  /** And a request that was past its check by then is charged twice: four charges recorded for three made. */
  lemma RacedPlatformRowCountsTwice(c: Charge)
    ensures var charges := map[0 := c, 1 := c, 2 := c];
      var end := Exec(false, charges, Raced(c, 6), [Update(2), Commit(2)]);
      end.Some? && |end.value.log| == 3 && end.value.rows == [Added(Opened(c), c), Added(Opened(c), c)]
  {
    var charges := map[0 := c, 1 := c, 2 := c];
    var raced := Raced(c, 6);
    var s1 := Apply(false, charges, raced, Update(2));
    ExecCons(false, charges, raced, Update(2), [Commit(2)]);
    ExecCons(false, charges, s1, Commit(2), []);
  }
}
