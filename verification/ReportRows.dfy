/** What each generation adds to the usage report. */
module ReportRows {
  import opened Options
  import opened Generation
  import opened Reporting

  /** The rows with this label. */
  function Positions(rows: seq<Ledgered>, value: string, name: Ledgered -> Option<string>): set<int> {
    set i | 0 <= i < |rows| && name(rows[i]) == Some(value)
  }

  lemma PositionsAppend(rows: seq<Ledgered>, row: Ledgered, value: string, name: Ledgered -> Option<string>)
    ensures |Positions(rows + [row], value, name)| == |Positions(rows, value, name)| + if name(row) == Some(value) then 1 else 0
  {
    assert Positions(rows + [row], value, name) ==
      if name(row) == Some(value) then Positions(rows, value, name) + {|rows|} else Positions(rows, value, name);
  }

  /** Each group counts the rows with its label, and there is a group for each label that occurs. */
  lemma {:induction false} GroupsCountLabels(rows: seq<Ledgered>, value: string, name: Ledgered -> Option<string>)
    ensures var groups := GroupBy(rows, name);
      && (value in groups <==> Positions(rows, value, name) != {})
      && (value in groups ==> groups[value] == |Positions(rows, value, name)|)
  {
    if rows != [] {
      var n := |rows| - 1;
      GroupsCountLabels(rows[..n], value, name);
      PositionsAppend(rows[..n], rows[n], value, name);
      assert rows == rows[..n] + [rows[n]];
    }
  }

  function OfKind(rows: seq<Ledgered>, kind: string): set<int> {
    set i | 0 <= i < |rows| && rows[i].kind == kind
  }

  function AnsweredBy(rows: seq<Ledgered>, provider: string): set<int> {
    set i | 0 <= i < |rows| && rows[i].provider == Some(provider)
  }

  /** The report's groups: one per kind that occurs, and one per provider that answered, each with its count. */
  lemma ReportGroupsExactly(rows: seq<Ledgered>, kind: string, provider: string)
    ensures var u := Usage(rows);
      && (kind in u.byKind <==> OfKind(rows, kind) != {})
      && (kind in u.byKind ==> u.byKind[kind] == |OfKind(rows, kind)|)
      && (provider in u.byProvider <==> AnsweredBy(rows, provider) != {})
      && (provider in u.byProvider ==> u.byProvider[provider] == |AnsweredBy(rows, provider)|)
  {
    GroupsCountLabels(rows, kind, KindOf);
    GroupsCountLabels(rows, provider, ProviderOf);
    assert OfKind(rows, kind) == Positions(rows, kind, KindOf);
    assert AnsweredBy(rows, provider) == Positions(rows, provider, ProviderOf);
  }

  /** A row more in the window adds itself, its tokens and its cost to the totals, and one to its status. */
  lemma OneRowMore(rows: seq<Ledgered>, row: Ledgered)
    ensures var u, v := Usage(rows), Usage(rows + [row]);
      && v.total == u.total + 1
      && v.cached == u.cached + (if row.status == Cached then 1 else 0)
      && v.failed == u.failed + (if row.status == Failed then 1 else 0)
      && v.blocked == u.blocked + (if row.status == Blocked then 1 else 0)
      && v.Billable() - u.Billable() == (if row.status == Succeeded || row.status == Failed then 1 else 0)
      && v.input == u.input + row.input && v.output == u.output + row.output && v.cost == u.cost + row.cost
    ensures var none := Usage([]);
      none.total == 0 && none.cached == 0 && none.failed == 0 && none.blocked == 0
      && none.input == 0 && none.output == 0 && none.cost == 0 && none.Billable() == 0
  {
    assert (rows + [row])[..|rows|] == rows;
    StatusesPartition(rows);
    StatusesPartition(rows + [row]);
  }

  /** The window holds exactly the rows from its first instant on, as often as the ledger does. */
  lemma {:induction false} WindowKeepsExactly(ledger: seq<Ledgered>, since: Instant, row: Ledgered)
    ensures multiset(Window(ledger, since))[row] == if since <= row.at then multiset(ledger)[row] else 0
  {
    if ledger != [] {
      var n := |ledger| - 1;
      assert ledger == ledger[..n] + [ledger[n]];
      WindowKeepsExactly(ledger[..n], since, row);
    }
  }
}
