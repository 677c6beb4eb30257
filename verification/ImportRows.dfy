/** What an import does with each row. */
module ImportRows {
  import opened Options
  import opened Strings
  import opened Slug
  import opened Imports

  /** The digits of a text. */
  function DigitPositions(setup: Setup, s: string): set<int> {
    set i | 0 <= i < |s| && setup.digit(s[i])
  }

  lemma {:induction false} DigitCountAppend(setup: Setup, s: string, c: char)
    ensures DigitCount(setup, s + [c]) == DigitCount(setup, s) + if setup.digit(c) then 1 else 0
  {
    if s == "" {
      assert s + [c] == [c] && [c][1..] == "";
    } else {
      assert (s + [c])[1..] == s[1..] + [c];
      DigitCountAppend(setup, s[1..], c);
    }
  }

  lemma {:induction false} DigitsAreCounted(setup: Setup, s: string)
    ensures DigitCount(setup, s) == |DigitPositions(setup, s)|
    decreases |s|
  {
    if s == "" {
      assert DigitPositions(setup, s) == {};
    } else {
      var n := |s| - 1;
      assert s == s[..n] + [s[n]];
      DigitsAreCounted(setup, s[..n]);
      DigitCountAppend(setup, s[..n], s[n]);
      assert DigitPositions(setup, s) ==
        if setup.digit(s[n]) then DigitPositions(setup, s[..n]) + {n} else DigitPositions(setup, s[..n]);
    }
  }

  /** A title is missing when it is all blanks. */
  lemma TitledExactly(row: Row)
    ensures Titled(row) <==> exists i :: 0 <= i < |row.title| && !PythonSpace(row.title[i])
  {
    var i, j := StripIsInfix(row.title, PythonSpace);
    var k := StripLeftIsSuffix(row.title, PythonSpace);
    var rest := row.title[k..];
    var l := StripRightIsPrefix(rest, PythonSpace);
    assert k < |row.title| ==> rest[0] == row.title[k] && !PythonSpace(rest[0]) && 0 < l;
  }

  /** An ISBN that is given has thirteen digits, and a price that is not free is at least one whole unit. */
  predicate FieldsAreRight(setup: Setup, row: Row) {
    && (row.isbn == "" || |DigitPositions(setup, row.isbn)| == 13)
    && (row.price == 0 || 100 <= row.price)
  }

  /** The slug of an earlier titled row. */
  predicate Repeats(setup: Setup, rows: seq<Row>, i: nat)
    requires i < |rows|
  {
    exists j :: 0 <= j < i && Titled(rows[j]) && RowSlug(setup, rows[j]) == RowSlug(setup, rows[i])
  }

  /** The row passes validation. */
  predicate Valid(setup: Setup, rows: seq<Row>, i: nat)
    requires i < |rows|
  {
    Titled(rows[i]) && !Repeats(setup, rows, i) && FieldsAreRight(setup, rows[i])
  }

  /**
    What becomes of a row: it is accepted exactly when it is valid and, outside a dry
    run, the catalogue takes it; then a book is created, and a job is queued exactly when
    the row names a file and the queue takes it, which alone is reported and not a failure.
  */
  lemma RowIsHandledExactly(setup: Setup, rows: seq<Row>, dryRun: bool, i: nat)
    requires i < |rows|
    ensures var r, row, valid := ResultAt(setup, rows, dryRun, i), rows[i], Valid(setup, rows, i);
      && (r.ok <==> valid && (dryRun || !row.bookRefused))
      && (r.book <==> r.ok && !dryRun)
      && (r.job <==> r.book && row.source != "" && !row.jobRefused)
      && (r.error.None? <==> r.ok && (r.book && row.source != "" ==> !row.jobRefused))
      && (r.error == Some(NotQueued) <==> r.book && row.source != "" && row.jobRefused)
      && (r.error == Some(CatalogueRefused) <==> valid && !dryRun && row.bookRefused)
  {
    hide Slugify, Strip;
    DigitsAreCounted(setup, rows[i].isbn);
    TakenExactly(setup, rows, i);
  }

  lemma TakenExactly(setup: Setup, rows: seq<Row>, i: nat)
    requires i < |rows|
    ensures RowSlug(setup, rows[i]) in Taken(setup, rows, i) <==> Repeats(setup, rows, i)
  {
    hide Slugify, Strip;
  }

  /** An invalid row is reported for the first thing wrong with it: title, repetition, ISBN, price. */
  lemma FirstProblemIsReported(setup: Setup, rows: seq<Row>, dryRun: bool, i: nat)
    requires i < |rows|
    ensures var e, row := ResultAt(setup, rows, dryRun, i).error, rows[i];
      var isbn := row.isbn == "" || |DigitPositions(setup, row.isbn)| == 13;
      && (e == Some(NoTitle) <==> !Titled(row))
      && (e == Some(DuplicateTitle) <==> Titled(row) && Repeats(setup, rows, i))
      && (e == Some(BadIsbn) <==> Titled(row) && !Repeats(setup, rows, i) && !isbn)
      && (e == Some(NegativePrice) <==> Titled(row) && !Repeats(setup, rows, i) && isbn && row.price < 0)
      && (e == Some(UnconvertedPrice) <==> Titled(row) && !Repeats(setup, rows, i) && isbn && 0 < row.price < 100)
  {
    hide Slugify, Strip;
    DigitsAreCounted(setup, rows[i].isbn);
    TakenExactly(setup, rows, i);
  }

  /** The failures of a batch are its rows that are not accepted, in order. */
  lemma {:induction false} FailuresAreTheRest(results: seq<RowResult>, r: RowResult)
    ensures multiset(Failures(results))[r] == if r.ok then 0 else multiset(results)[r]
  {
    if results != [] {
      var n := |results| - 1;
      FailuresAreTheRest(results[..n], r);
      assert results == results[..n] + [results[n]];
    }
  }

  function AcceptedPositions(results: seq<RowResult>): set<int> {
    set i | 0 <= i < |results| && results[i].ok
  }

  /** And the others are counted. */
  lemma {:induction false} AcceptedAreCounted(results: seq<RowResult>)
    ensures Accepted(results) == |AcceptedPositions(results)|
  {
    if results != [] {
      var n := |results| - 1;
      AcceptedAreCounted(results[..n]);
      OneMore(results[..n], results[n]);
      assert results == results[..n] + [results[n]];
    }
  }

  lemma OneMore(results: seq<RowResult>, r: RowResult)
    ensures |AcceptedPositions(results + [r])| == |AcceptedPositions(results)| + if r.ok then 1 else 0
  {
    var n, before := |results|, AcceptedPositions(results);
    assert AcceptedPositions(results + [r]) == if r.ok then before + {n} else before;
  }
}
