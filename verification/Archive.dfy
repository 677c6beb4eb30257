/** The safety check on an uploaded archive's directory, before anything is unpacked. */
module Archive {
  import opened Arith

  datatype Entry = Entry(name: string, size: nat)

  /** The index is that of the first offending entry. */
  datatype Verdict = Safe(total: nat) | TooManyEntries | UnsafePath(at: nat) | TooLarge(at: nat)

  predicate Separator(c: char) { c == '/' || c == '\\' }

  /** The parts of a path between separators of either kind. */
  function Parts(s: string): (parts: seq<string>)
    ensures parts != []
  {
    if s == "" then [""]
    else if Separator(s[0]) then [""] + Parts(s[1..])
    else var rest := Parts(s[1..]); [[s[0]] + rest[0]] + rest[1..]
  }

  predicate Traverses(name: string) { (name != "" && name[0] == '/') || ".." in Parts(name) }

  function Total(entries: seq<Entry>): nat {
    if entries == [] then 0 else Total(entries[..|entries| - 1]) + entries[|entries| - 1].size
  }

  lemma {:induction false} TotalGrows(entries: seq<Entry>, n: nat)
    requires n <= |entries|
    ensures Total(entries[..n]) <= Total(entries)
    decreases |entries|
  {
    if n < |entries| {
      var m := |entries| - 1;
      TotalGrows(entries[..m], n);
      assert entries[..m][..n] == entries[..n];
    } else {
      assert entries[..n] == entries;
    }
  }

  /** The entry is the first to break a rule, and breaks this one. */
  predicate BreaksAt(entries: seq<Entry>, most: int, i: nat, path: bool)
    requires i < |entries|
  {
    && (forall j :: 0 <= j < i ==> !Traverses(entries[j].name))
    && Total(entries[..i]) <= Max(most, 0)
    && Traverses(entries[i].name) == path
    && (!path ==> Total(entries[..i + 1]) > most)
  }

  /** Stops at the first entry that is unsafe or takes the declared size past the limit. */
  method AssertArchiveSafe(entries: seq<Entry>, maxDecompressed: int, maxEntries: int) returns (verdict: Verdict)
    ensures verdict.TooManyEntries? <==> |entries| > maxEntries
    ensures verdict.UnsafePath? ==> verdict.at < |entries| && BreaksAt(entries, maxDecompressed, verdict.at, true)
    ensures verdict.TooLarge? ==> verdict.at < |entries| && BreaksAt(entries, maxDecompressed, verdict.at, false)
    ensures verdict.Safe? ==> verdict.total == Total(entries)
    ensures verdict.Safe? <==>
      |entries| <= maxEntries && (forall e <- entries :: !Traverses(e.name)) && (entries == [] || Total(entries) <= maxDecompressed)
  {
    hide Traverses;
    if |entries| > maxEntries { return TooManyEntries; }
    var total := 0;
    for i := 0 to |entries|
      invariant total == Total(entries[..i])
      invariant i == 0 || total <= maxDecompressed
      invariant forall j :: 0 <= j < i ==> !Traverses(entries[j].name)
    {
      var entry := entries[i];
      assert entry in entries;
      if Traverses(entry.name) { return UnsafePath(i); }
      assert entries[..i + 1][..i] == entries[..i];
      total := total + entry.size;
      if total > maxDecompressed {
        TotalGrows(entries, i + 1);
        return TooLarge(i);
      }
    }
    assert entries[..|entries|] == entries;
    verdict := Safe(total);
  }

  // ---- what a part is ---------------------------------------------------------

  /** `part` stands in the path from i on, with nothing but a slash or backslash or the ends beside it, and none in it. */
  predicate StandsAt(s: string, part: string, i: nat) {
    && i + |part| <= |s| && s[i..i + |part|] == part && '/' !in part && '\\' !in part
    && (i == 0 || s[i - 1] == '/' || s[i - 1] == '\\')
    && (i + |part| == |s| || s[i + |part|] == '/' || s[i + |part|] == '\\')
  }

  lemma {:induction false} FirstPartStands(s: string)
    ensures StandsAt(s, Parts(s)[0], 0)
  {
    if s != "" && !Separator(s[0]) {
      FirstPartStands(s[1..]);
      var p := Parts(s[1..])[0];
      assert s[0..|p| + 1] == [s[0]] + s[1..][..|p|];
    }
  }

  lemma {:induction false} PartStands(s: string, m: nat) returns (i: nat)
    requires m < |Parts(s)|
    ensures StandsAt(s, Parts(s)[m], i) && (0 < m ==> 0 < i)
  {
    if m == 0 {
      FirstPartStands(s);
      i := 0;
    } else {
      var k := PartStands(s[1..], if Separator(s[0]) then m - 1 else m);
      i := k + 1;
      assert s[i..i + |Parts(s)[m]|] == s[1..][k..k + |Parts(s)[m]|];
    }
  }

  /** Two parts standing at the same place are the same. */
  lemma SamePart(s: string, a: string, b: string, i: nat)
    requires StandsAt(s, a, i) && StandsAt(s, b, i)
    ensures a == b
  {
    assert forall k :: 0 <= k < |a| ==> a[k] == s[i + k];
    assert forall k :: 0 <= k < |b| ==> b[k] == s[i + k];
  }

  lemma {:induction false} StandingIsPart(s: string, part: string, i: nat) returns (m: nat)
    requires StandsAt(s, part, i)
    ensures m < |Parts(s)| && Parts(s)[m] == part && (0 < i ==> 0 < m)
  {
    FirstPartStands(s);
    if i == 0 {
      SamePart(s, part, Parts(s)[0], 0);
      m := 0;
    } else {
      assert s[1..][i - 1..i - 1 + |part|] == s[i..i + |part|];
      m := StandingIsPart(s[1..], part, i - 1);
      if Separator(s[0]) { m := m + 1; }
    }
  }

  /** A path traverses exactly when it starts at the root or two dots stand alone in it. */
  lemma TraversesExactly(name: string)
    ensures Traverses(name) <==> (name != "" && name[0] == '/') || exists i :: StandsAt(name, "..", i)
  {
    if m: nat :| m < |Parts(name)| && Parts(name)[m] == ".." { var i := PartStands(name, m); }
    if i :| StandsAt(name, "..", i) { var m := StandingIsPart(name, "..", i); }
  }
}
