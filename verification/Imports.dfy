/**
  A bulk import: rows validated one by one against the slugs seen so far, each written
  or reported on its own, and the batch summed up.
*/
module Imports {
  import opened Options
  import opened Strings
  import opened Slug

  /** `hex` is the random fallback drawn for the row, and the last two say what the catalogue and the job queue would do. */
  datatype Row = Row(title: string, isbn: string, price: int, source: string, hex: string, bookRefused: bool, jobRefused: bool)

  datatype Problem = NoTitle | DuplicateTitle | BadIsbn | NegativePrice | UnconvertedPrice | CatalogueRefused | NotQueued

  datatype RowResult = RowResult(ok: bool, error: Option<Problem>, book: bool, job: bool)

  datatype Status = Completed | Failed | Partial

  datatype Batch = Batch(succeeded: nat, failed: nat, errors: seq<RowResult>, status: Status)

  datatype Setup = Setup(env: Env, digit: char -> bool)

  const MAX_SLUG := 200

  function RowSlug(setup: Setup, row: Row): string { Slugify(setup.env, row.title, MAX_SLUG, row.hex) }

  function DigitCount(setup: Setup, s: string): nat {
    if s == "" then 0 else (if setup.digit(s[0]) then 1 else 0) + DigitCount(setup, s[1..])
  }

  /** What is wrong with a row apart from its title. */
  function FieldProblem(setup: Setup, row: Row): Option<Problem> {
    if row.isbn != "" && DigitCount(setup, row.isbn) != 13 then Some(BadIsbn)
    else if row.price < 0 then Some(NegativePrice)
    else if 0 < row.price < 100 then Some(UnconvertedPrice)
    else None
  }

  predicate Titled(row: Row) { Strip(row.title, PythonSpace) != "" }

  function Validate(setup: Setup, row: Row, seen: set<string>): Option<Problem> {
    if !Titled(row) then Some(NoTitle)
    else if RowSlug(setup, row) in seen then Some(DuplicateTitle)
    else FieldProblem(setup, row)
  }

  /** A titled row takes its slug, even when it goes on to fail. */
  function Seen(setup: Setup, row: Row, seen: set<string>): set<string> {
    if Titled(row) then seen + {RowSlug(setup, row)} else seen
  }

  function Process(setup: Setup, row: Row, dryRun: bool, seen: set<string>): RowResult {
    var problem := Validate(setup, row, seen);
    if problem.Some? then RowResult(false, problem, false, false)
    else if dryRun then RowResult(true, None, false, false)
    else if row.bookRefused then RowResult(false, Some(CatalogueRefused), false, false)
    else if row.source == "" then RowResult(true, None, true, false)
    else if row.jobRefused then RowResult(true, Some(NotQueued), true, false)
    else RowResult(true, None, true, true)
  }

  /** The slugs of the titled rows before row n. */
  function Taken(setup: Setup, rows: seq<Row>, n: nat): set<string>
    requires n <= |rows|
  {
    set i | 0 <= i < n && Titled(rows[i]) :: RowSlug(setup, rows[i])
  }

  function ResultAt(setup: Setup, rows: seq<Row>, dryRun: bool, i: nat): RowResult
    requires i < |rows|
  {
    Process(setup, rows[i], dryRun, Taken(setup, rows, i))
  }

  function Accepted(results: seq<RowResult>): nat {
    if results == [] then 0
    else Accepted(results[..|results| - 1]) + if results[|results| - 1].ok then 1 else 0
  }

  function Failures(results: seq<RowResult>): seq<RowResult> {
    if results == [] then []
    else Failures(results[..|results| - 1]) + if results[|results| - 1].ok then [] else [results[|results| - 1]]
  }

  function First<T>(s: seq<T>, n: nat): seq<T> {
    if |s| <= n then s else s[..n]
  }

  lemma {:induction false} EveryRowIsCounted(results: seq<RowResult>)
    ensures Accepted(results) + |Failures(results)| == |results|
  {
    if results != [] { EveryRowIsCounted(results[..|results| - 1]); }
  }

  /** Processes the rows in order; a bad row is reported and the rest proceed. */
  method Run(setup: Setup, rows: seq<Row>, dryRun: bool) returns (results: seq<RowResult>, batch: Batch)
    ensures |results| == |rows| && forall i :: 0 <= i < |rows| ==> results[i] == ResultAt(setup, rows, dryRun, i)
    ensures batch.succeeded == Accepted(results) && batch.succeeded + batch.failed == |rows|
    ensures batch.errors == First(Failures(results), 500)
    ensures batch.status.Completed? <==> forall i :: 0 <= i < |results| ==> results[i].ok
    ensures batch.status.Failed? <==> results != [] && forall i :: 0 <= i < |results| ==> !results[i].ok
  {
    hide Process;
    results := [];
    var seen: set<string> := {};
    for n := 0 to |rows|
      invariant |results| == n && seen == Taken(setup, rows, n)
      invariant forall i :: 0 <= i < n ==> results[i] == ResultAt(setup, rows, dryRun, i)
    {
      results := results + [Process(setup, rows[n], dryRun, seen)];
      TakenGrows(setup, rows, n);
      seen := Seen(setup, rows[n], seen);
    }
    var succeeded := Accepted(results);
    var failed := |results| - succeeded;
    EveryRowIsCounted(results);
    AllOrNone(results);
    var errors := First(Failures(results), 500);
    var status := if failed == 0 then Completed else if succeeded == 0 then Status.Failed else Partial;
    batch := Batch(succeeded, failed, errors, status);
  }

  lemma TakenGrows(setup: Setup, rows: seq<Row>, n: nat)
    requires n < |rows|
    ensures Taken(setup, rows, n + 1) == Seen(setup, rows[n], Taken(setup, rows, n))
  {
    hide Slugify, Strip;
  }

  lemma AcceptedUnfolds(results: seq<RowResult>)
    requires results != []
    ensures Accepted(results) == Accepted(results[..|results| - 1]) + if results[|results| - 1].ok then 1 else 0
  {
  }

  lemma {:induction false} AllOrNone(results: seq<RowResult>)
    ensures Accepted(results) <= |results|
    ensures Accepted(results) == |results| <==> forall i :: 0 <= i < |results| ==> results[i].ok
    ensures Accepted(results) == 0 <==> forall i :: 0 <= i < |results| ==> !results[i].ok
  {
    if results != [] {
      hide Accepted;
      var n := |results| - 1;
      AcceptedUnfolds(results);
      AllOrNone(results[..n]);
      assert forall i :: 0 <= i < n ==> results[..n][i] == results[i];
    }
  }

  /** A dry run accepts a row exactly when it has a title no earlier titled row's slug matches and its fields are right. */
  lemma DryRunAcceptsExactly(setup: Setup, rows: seq<Row>, i: nat)
    requires i < |rows|
    ensures ResultAt(setup, rows, true, i).ok <==>
      && Titled(rows[i]) && FieldProblem(setup, rows[i]).None?
      && forall j :: 0 <= j < i && Titled(rows[j]) ==> RowSlug(setup, rows[j]) != RowSlug(setup, rows[i])
  {
    hide Slugify, Strip, FieldProblem;
    if exists j :: 0 <= j < i && Titled(rows[j]) && RowSlug(setup, rows[j]) == RowSlug(setup, rows[i]) {
      assert RowSlug(setup, rows[i]) in Taken(setup, rows, i);
    }
  }

  /** The accepted rows of one import have pairwise different slugs, each of the catalogue's pattern. */
  lemma AcceptedSlugsAreDistinct(setup: Setup, rows: seq<Row>, dryRun: bool, i: nat, j: nat)
    requires i < j < |rows| && Hex(rows[j].hex)
    requires ResultAt(setup, rows, dryRun, i).ok && ResultAt(setup, rows, dryRun, j).ok
    ensures RowSlug(setup, rows[i]) != RowSlug(setup, rows[j])
    ensures SlugPattern(RowSlug(setup, rows[j])) && |RowSlug(setup, rows[j])| <= MAX_SLUG
  {
    hide Slugify, Strip, FieldProblem;
    SlugifyMatchesPattern(setup.env, rows[j].title, MAX_SLUG, rows[j].hex);
    assert RowSlug(setup, rows[i]) in Taken(setup, rows, j);
    Fallback(setup, rows[j]);
  }

  lemma Fallback(setup: Setup, row: Row)
    requires Hex(row.hex)
    ensures |RowSlug(setup, row)| <= MAX_SLUG
  {
    hide Deterministic;
    DeterministicIsSingle(setup.env, row.title, MAX_SLUG);
  }
}
