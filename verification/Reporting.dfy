/** The usage report over a window of the generation ledger. */
module Reporting {
  import opened Options
  import opened Generation
  import opened GenerationLedger
  import opened Sums

  datatype UsageTotals = UsageTotals(
    total: nat, cached: nat, failed: nat, blocked: nat, input: nat, output: nat, cost: nat,
    byKind: map<string, nat>, byProvider: map<string, nat>)
  {
    /** Requests that reached a provider. */
    function Billable(): int {
      var rest := total - cached - blocked;
      if rest < 0 then 0 else rest
    }
  }

  function CountOf(rows: seq<Ledgered>, status: Status): nat {
    if rows == [] then 0
    else CountOf(rows[..|rows| - 1], status) + if rows[|rows| - 1].status == status then 1 else 0
  }

  function SumOf(rows: seq<Ledgered>, field: Ledgered -> nat): nat {
    if rows == [] then 0 else SumOf(rows[..|rows| - 1], field) + field(rows[|rows| - 1])
  }

  /** GROUP BY: how often each name occurs; rows without a name are not grouped. */
  function GroupBy(rows: seq<Ledgered>, name: Ledgered -> Option<string>): map<string, nat> {
    if rows == [] then map[]
    else
      var groups, last := GroupBy(rows[..|rows| - 1], name), name(rows[|rows| - 1]);
      if last.None? then groups
      else groups[last.value := (if last.value in groups then groups[last.value] else 0) + 1]
  }

  function KindOf(row: Ledgered): Option<string> { Some(row.kind) }

  function ProviderOf(row: Ledgered): Option<string> { row.provider }

  function InputOf(row: Ledgered): nat { row.input }

  function OutputOf(row: Ledgered): nat { row.output }

  function CostOf(row: Ledgered): nat { row.cost }

  function Usage(rows: seq<Ledgered>): UsageTotals {
    UsageTotals(
      |rows|, CountOf(rows, Cached), CountOf(rows, Failed), CountOf(rows, Blocked),
      SumOf(rows, InputOf), SumOf(rows, OutputOf), SumOf(rows, CostOf),
      GroupBy(rows, KindOf), GroupBy(rows, ProviderOf))
  }

  lemma {:induction false} StatusesPartition(rows: seq<Ledgered>)
    ensures CountOf(rows, Succeeded) + CountOf(rows, Failed) + CountOf(rows, Blocked) + CountOf(rows, Cached) == |rows|
  {
    if rows != [] { StatusesPartition(rows[..|rows| - 1]); }
  }

  /** The group sizes add up to the number of labelled rows. */
  lemma {:induction false} GroupsAddUp(rows: seq<Ledgered>, name: Ledgered -> Option<string>, labelled: nat)
    requires labelled == |Labelled(rows, name)|
    ensures SumValues(GroupBy(rows, name)) == labelled
  {
    if rows != [] {
      var before, last := rows[..|rows| - 1], name(rows[|rows| - 1]);
      GroupsAddUp(before, name, |Labelled(before, name)|);
      if last.Some? {
        var groups := GroupBy(before, name);
        SumUpdate(groups, last.value, (if last.value in groups then groups[last.value] else 0) + 1);
      }
    }
  }

  function Labelled(rows: seq<Ledgered>, name: Ledgered -> Option<string>): seq<Ledgered> {
    if rows == [] then []
    else
      var rest := Labelled(rows[..|rows| - 1], name);
      if name(rows[|rows| - 1]).Some? then rest + [rows[|rows| - 1]] else rest
  }

  lemma {:induction false} ProvidersAreSuccesses(rows: seq<Ledgered>)
    requires forall row <- rows :: WellRecorded(row)
    ensures |Labelled(rows, ProviderOf)| == CountOf(rows, Succeeded)
    ensures CountOf(rows, Blocked) == 0
  {
    if rows != [] {
      assert WellRecorded(rows[|rows| - 1]);
      ProvidersAreSuccesses(rows[..|rows| - 1]);
    }
  }

  lemma {:induction false} AllLabelled(rows: seq<Ledgered>, name: Ledgered -> Option<string>)
    requires forall row: Ledgered :: name(row).Some?
    ensures |Labelled(rows, name)| == |rows|
  {
    if rows != [] { AllLabelled(rows[..|rows| - 1], name); }
  }

  /** Any window: the billable requests are the ones that succeeded or failed, and the kinds add up to the total. */
  lemma ReportAddsUp(rows: seq<Ledgered>)
    ensures var u := Usage(rows);
      && u.Billable() == CountOf(rows, Succeeded) + u.failed
      && SumValues(u.byKind) == u.total
  {
    StatusesPartition(rows);
    AllLabelled(rows, KindOf);
    GroupsAddUp(rows, KindOf, |rows|);
  }

  function Window(ledger: seq<Ledgered>, since: Instant): seq<Ledgered> {
    if ledger == [] then []
    else
      var rest := Window(ledger[..|ledger| - 1], since);
      if ledger[|ledger| - 1].at >= since then rest + [ledger[|ledger| - 1]] else rest
  }

  lemma {:induction false} WindowKeepsRows(ledger: seq<Ledgered>, since: Instant)
    ensures forall row <- Window(ledger, since) :: row in ledger && row.at >= since
  {
    if ledger != [] { WindowKeepsRows(ledger[..|ledger| - 1], since); }
  }

  /** The costs of the days from `since` up to but not including `until`. */
  function CostsBetween(ledger: seq<Ledgered>, since: Day, until: Day): nat
    requires since <= until
    decreases until - since
  {
    if since == until then 0 else SucceededCost(ledger, since) + CostsBetween(ledger, since + 1, until)
  }

  lemma {:induction false} CostsBetweenAppend(ledger: seq<Ledgered>, row: Ledgered, since: Day, until: Day)
    requires since <= until && row.Date() < until && (row.cost > 0 ==> row.status.Succeeded?)
    ensures CostsBetween(ledger + [row], since, until) ==
      CostsBetween(ledger, since, until) + if since <= row.Date() then row.cost else 0
    decreases until - since
  {
    if since < until {
      CostAppend(ledger, row, since);
      CostsBetweenAppend(ledger, row, since + 1, until);
    }
  }

  lemma {:induction false} NoCosts(since: Day, until: Day)
    requires since <= until
    ensures CostsBetween([], since, until) == 0
    decreases until - since
  {
    if since < until { NoCosts(since + 1, until); }
  }

  lemma SumAppend(rows: seq<Ledgered>, row: Ledgered)
    ensures SumOf(rows + [row], CostOf) == SumOf(rows, CostOf) + row.cost
  {
    assert (rows + [row])[..|rows|] == rows;
  }

  /** The costs of the window's first day, which it may enter in the middle. */
  function FirstDayCost(ledger: seq<Ledgered>, since: Instant): nat {
    if ledger == [] then 0
    else
      var last := ledger[|ledger| - 1];
      FirstDayCost(ledger[..|ledger| - 1], since)
      + if last.status.Succeeded? && last.Date() == DayOf(since) && since <= last.at then last.cost else 0
  }

  /** A window that begins at midnight has all of its first day. */
  lemma {:induction false} MidnightWindow(ledger: seq<Ledgered>, since: Instant)
    requires since % 86400 == 0
    ensures FirstDayCost(ledger, since) == SucceededCost(ledger, DayOf(since))
  {
    if ledger != [] { MidnightWindow(ledger[..|ledger| - 1], since); }
  }

  lemma WindowAppend(ledger: seq<Ledgered>, row: Ledgered, since: Instant)
    ensures Window(ledger + [row], since) == Window(ledger, since) + if row.at >= since then [row] else []
    ensures FirstDayCost(ledger + [row], since) == FirstDayCost(ledger, since)
      + if row.status.Succeeded? && row.Date() == DayOf(since) && since <= row.at then row.cost else 0
  {
    assert (ledger + [row])[..|ledger|] == ledger;
  }

  lemma {:induction false} WindowCost(ledger: seq<Ledgered>, since: Instant, until: Day)
    requires DayOf(since) < until && forall row <- ledger :: WellRecorded(row) && row.Date() < until
    ensures SumOf(Window(ledger, since), CostOf) ==
      FirstDayCost(ledger, since) + CostsBetween(ledger, DayOf(since) + 1, until)
  {
    if ledger == [] {
      NoCosts(DayOf(since) + 1, until);
    } else {
      hide CostsBetween, SucceededCost, FirstDayCost, Window, SumOf;
      var before, row := ledger[..|ledger| - 1], ledger[|ledger| - 1];
      assert ledger == before + [row] && row in ledger;
      WindowCost(before, since, until);
      CostsBetweenAppend(before, row, DayOf(since) + 1, until);
      WindowAppend(before, row, since);
      SumAppend(Window(before, since), row);
    }
  }

  /**
    In every run, the report of a window has one provider entry per success and no
    blocked request, and costs what the ledger's successes cost: those of the whole
    days in it and those of its first day from its first instant on.
  */
  lemma ReportMatchesRun(cfg: Config, events: seq<Event>, since: Instant, until: Day)
    requires DayOf(since) < until && forall row <- Run(cfg, Empty(), events).ledger :: row.Date() < until
    ensures var ledger := Run(cfg, Empty(), events).ledger;
      var u := Usage(Window(ledger, since));
      && SumValues(u.byProvider) == CountOf(Window(ledger, since), Succeeded)
      && u.blocked == 0
      && u.cost == FirstDayCost(ledger, since) + CostsBetween(ledger, DayOf(since) + 1, until)
  {
    RunRecordsWell(cfg, Empty(), events);
    var ledger := Run(cfg, Empty(), events).ledger;
    var rows := Window(ledger, since);
    WindowKeepsRows(ledger, since);
    ProvidersAreSuccesses(rows);
    GroupsAddUp(rows, ProviderOf, CountOf(rows, Succeeded));
    WindowCost(ledger, since, until);
  }
}
