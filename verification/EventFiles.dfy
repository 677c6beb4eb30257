/** Which file a delivery is about, and which events name one. */
module EventFiles {
  import opened Options
  import opened JobModel
  import opened Strings
  import opened EventModel
  import opened EventSafety

  /** The key that the payload names: `source_key`, or, where that is missing or empty, `pdf_key`. */
  predicate Names(payload: Payload, key: string) {
    && key != ""
    && if "source_key" in payload && payload["source_key"] != "" then payload["source_key"] == key
      else "pdf_key" in payload && payload["pdf_key"] == key
  }

  predicate NamesBook(payload: Payload, book: string) {
    && book != ""
    && if "book_id" in payload && payload["book_id"] != "" then payload["book_id"] == book
      else "id" in payload && payload["id"] == book
  }

  /** `text` is `raw` without the blanks around it. */
  ghost predicate IsTrimmed(raw: string, text: string) {
    && (text != "" ==> !WhiteSpace(text[0]) && !WhiteSpace(text[|text| - 1]))
    && exists before, behind :: Around(raw, before, text, behind)
  }

  ghost predicate Around(raw: string, before: string, text: string, behind: string) {
    && raw == before + text + behind
    && (forall i :: 0 <= i < |before| ==> WhiteSpace(before[i])) && (forall i :: 0 <= i < |behind| ==> WhiteSpace(behind[i]))
  }

  lemma TrimmedIsUnique(raw: string, text: string)
    ensures IsTrimmed(raw, text) <==> text == Strip(raw, WhiteSpace)
  {
    if IsTrimmed(raw, text) {
      var before, behind :| Around(raw, before, text, behind);
      StripsBlanks(before, text, behind, WhiteSpace);
    }
    var i := StripLeftIsSuffix(raw, WhiteSpace);
    var rest := raw[i..];
    var j := StripRightIsPrefix(rest, WhiteSpace);
    var kept := Strip(raw, WhiteSpace);
    assert kept == rest[..j];
    assert raw == raw[..i] + kept + rest[j..];
    assert Around(raw, raw[..i], kept, rest[j..]);
    if kept != "" { KeptEnds(raw, i, j); }
  }

  lemma KeptEnds(raw: string, i: nat, j: nat)
    requires i <= |raw| && j <= |raw| - i && 0 < j && Strip(raw, WhiteSpace) == raw[i..][..j]
    ensures var kept := Strip(raw, WhiteSpace); !WhiteSpace(kept[0]) && !WhiteSpace(kept[|kept| - 1])
  {
    var k, l := StripIsInfix(raw, WhiteSpace);
  }

  /** The last part of a key. */
  ghost predicate IsBaseName(key: string, name: string) {
    '/' !in name && (name == key || exists folder :: key == folder + "/" + name)
  }

  lemma {:induction false} FileNameIsBaseName(key: string)
    ensures IsBaseName(key, FileName(key))
    decreases |key|
  {
    if key != "" && '/' in key {
      FileNameIsBaseName(key[1..]);
      BaseNameOfLonger(key, FileName(key[1..]));
    }
  }

  lemma BaseNameOfLonger(key: string, name: string)
    requires key != "" && '/' in key && IsBaseName(key[1..], name)
    ensures IsBaseName(key, name)
  {
    assert key == [key[0]] + key[1..];
    if name == key[1..] {
      assert key[0] == '/';
      assert key == "" + "/" + name;
    } else {
      var folder :| key[1..] == folder + "/" + name;
      assert key == ([key[0]] + folder) + "/" + name;
    }
  }

  lemma {:induction false} BaseNameIsUnique(key: string, name: string)
    requires IsBaseName(key, name)
    ensures name == FileName(key)
    decreases |key|
  {
    if name != key {
      var folder :| key == folder + "/" + name;
      assert key[|folder|] == '/';
      if folder == "" {
        assert key[1..] == name;
      } else {
        assert key[1..] == folder[1..] + "/" + name;
        BaseNameIsUnique(key[1..], name);
      }
    }
  }

  /** What the request schema asks of an event's key and book. */
  ghost predicate Acceptable(setup: Setup, e: Event, source: Key) {
    exists key, book, name, cut ::
      && Names(e.payload, key) && NamesBook(e.payload, book) && setup.isUuid(book)
      && IsTrimmed(key, source) && 1 <= |source| <= 500 && source[0] != '/' && !Contains(source, "..")
      && IsBaseName(key, name) && IsTrimmed(name, cut) && |cut| <= 255
  }

  /** A job is asked for by exactly the created events that name a file and a book. */
  lemma AsksExactly(e: Event)
    ensures AsksForWork(e) <==>
      e.kind == "book.created" && (exists key :: Names(e.payload, key)) && exists book :: NamesBook(e.payload, book)
  {
    if AsksForWork(e) { assert Names(e.payload, RawKey(e)) && NamesBook(e.payload, RawBook(e)); }
  }

  /** Of those, a job is made for exactly the acceptable ones, on the key they name without the blanks around it. */
  lemma AcceptedExactly(setup: Setup, e: Event, source: Key)
    requires AsksForWork(e)
    ensures Accepted(setup, e) == Some(source) <==> Acceptable(setup, e, source)
  {
    hide IsTrimmed, IsBaseName, FileName, Strip, Contains;
    var key, book, name := RawKey(e), RawBook(e), FileName(RawKey(e));
    var cut := Strip(name, WhiteSpace);
    TrimmedIsUnique(key, Strip(key, WhiteSpace));
    TrimmedIsUnique(name, cut);
    FileNameIsBaseName(key);
    assert Names(e.payload, key) && NamesBook(e.payload, book);
    if Acceptable(setup, e, source) {
      var k, b, n, c :|
        && Names(e.payload, k) && NamesBook(e.payload, b) && setup.isUuid(b)
        && IsTrimmed(k, source) && 1 <= |source| <= 500 && source[0] != '/' && !Contains(source, "..")
        && IsBaseName(k, n) && IsTrimmed(n, c) && |c| <= 255;
      TrimmedIsUnique(k, source);
      BaseNameIsUnique(k, n);
      TrimmedIsUnique(n, c);
    }
  }

  // ---- deliveries -------------------------------------------------------------

  /** The file a delivery has come to be about. */
  function FileOf(p: Phase): Option<Key> {
    match p
    case Clear(source) => Some(source)
    case Busy(source, _) => Some(source)
    case Inserted(source, _) => Some(source)
    case Done(source, _) => Some(source)
    case _ => None
  }

  ghost predicate OnTheirFiles(setup: Setup, s: State) {
    forall d <- s.deliveries ::
      && (FileOf(s.deliveries[d].phase).Some? ==> FileOf(s.deliveries[d].phase) == Accepted(setup, s.deliveries[d].event))
      && (HoldsClaim(s.deliveries[d].phase) || s.deliveries[d].phase.Done? ==> AsksForWork(s.deliveries[d].event))
  }

  lemma StepKeepsFiles(setup: Setup, s: State, step: Step)
    requires OnTheirFiles(setup, s) && Enabled(setup, s, step)
    ensures OnTheirFiles(setup, Apply(setup, s, step))
  {
    hide Accepted, AsksForWork, WorkOn, Live, SourceHeld, LedgerHeld;
  }

  lemma {:induction false} RunKeepsFiles(setup: Setup, s: State, steps: seq<Step>)
    requires OnTheirFiles(setup, s) && Exec(setup, s, steps).Some?
    ensures OnTheirFiles(setup, Exec(setup, s, steps).value)
    decreases steps
  {
    hide OnTheirFiles, Apply, Enabled;
    if steps != [] {
      StepKeepsFiles(setup, s, steps[0]);
      RunKeepsFiles(setup, Apply(setup, s, steps[0]), steps[1..]);
    }
  }

  /**
    In every run a committed delivery is of an event that names a file acceptably, and it
    is on that file; so is the job it created, for as long as that is stored.
  */
  lemma CommittedIsOnItsFile(setup: Setup, steps: seq<Step>, d: Did)
    requires Exec(setup, Initial(), steps).Some? && d in Exec(setup, Initial(), steps).value.deliveries
    requires Exec(setup, Initial(), steps).value.deliveries[d].phase.Done?
    ensures var s := Exec(setup, Initial(), steps).value;
      var e, p := s.deliveries[d].event, s.deliveries[d].phase;
      && e.kind == "book.created" && Acceptable(setup, e, p.source)
      && (p.own.Some? && p.own.value in s.jobs ==> s.jobs[p.own.value].source == p.source)
  {
    hide Exec, Acceptable, Accepted;
    RunKeepsFiles(setup, Initial(), steps);
    InitialInv();
    RunKeepsInv(setup, Initial(), steps);
    var s := Exec(setup, Initial(), steps).value;
    AcceptedExactly(setup, s.deliveries[d].event, s.deliveries[d].phase.source);
  }

  /** Two acceptable events are about one file if and only if the keys they name agree but for the blanks around them. */
  lemma SameFileExactly(setup: Setup, a: Event, b: Event, x: Key, y: Key)
    requires AsksForWork(a) && AsksForWork(b) && Acceptable(setup, a, x) && Acceptable(setup, b, y)
    ensures x == y <==> Strip(RawKey(a), WhiteSpace) == Strip(RawKey(b), WhiteSpace)
    ensures Names(a.payload, RawKey(a)) && Names(b.payload, RawKey(b))
  {
    hide Acceptable, Strip, Contains, FileName;
    AcceptedExactly(setup, a, x);
    AcceptedExactly(setup, b, y);
  }

  /** A request over HTTP for the file of a job that a delivery queued leaves everything as it is. */
  lemma RequestMeetsQueuedJob(setup: Setup, s: State, d: Did, source: Key)
    requires Enabled(setup, s, Commit(d)) && s.deliveries[d].phase.Inserted? && s.deliveries[d].phase.source == source
    ensures var after := Apply(setup, s, Commit(d));
      Live(after.jobs, source) && (Enabled(setup, after, Create(source)) ==> Apply(setup, after, Create(source)) == after)
  {
    var after := Apply(setup, s, Commit(d));
    assert ActiveOn(after.jobs, s.deliveries[d].phase.job, source);
  }

  /** A request over HTTP queues a fresh job exactly when its file has no live one. */
  lemma RequestQueuesExactly(setup: Setup, s: State, source: Key)
    requires OneLiveJob(s) && Enabled(setup, s, Create(source))
    ensures var after := Apply(setup, s, Create(source));
      && after.deliveries == s.deliveries && after.ledger == s.ledger
      && if Live(s.jobs, source) then after == s
         else after.jobs == s.jobs[s.next := Fresh(source)] && s.next !in s.jobs && Live(after.jobs, source)
  {
    var after := Apply(setup, s, Create(source));
    if !Live(s.jobs, source) { assert ActiveOn(after.jobs, s.next, source); }
  }

  /** A job can be pruned exactly when it succeeded or was cancelled longer ago than the retention, and pruning takes it alone. */
  lemma PrunedExactly(setup: Setup, s: State, k: Id, now: real)
    ensures Enabled(setup, s, Prune(k, now)) <==>
      && k in s.jobs && (s.jobs[k].status == Succeeded || s.jobs[k].status == Cancelled)
      && s.jobs[k].finished != None && s.jobs[k].finished.value + setup.jobs.retention < now
    ensures Enabled(setup, s, Prune(k, now)) ==> Apply(setup, s, Prune(k, now)) == s.(jobs := s.jobs - {k})
  {
  }

  /** A delivery of an event that asks for nothing, or was committed before, never waits, and is ignored; no other is. */
  lemma IgnoredExactly(setup: Setup, s: State, d: Did)
    requires d in s.deliveries && s.deliveries[d].phase.Received?
    ensures var e := s.deliveries[d].event;
      var idle := !AsksForWork(e) || e.id in s.ledger;
      && (idle ==> Enabled(setup, s, Claim(d)))
      && (Enabled(setup, s, Claim(d)) ==> (Apply(setup, s, Claim(d)).deliveries[d].phase.Ignored? <==> idle))
      && (Enabled(setup, s, Claim(d)) ==> Apply(setup, s, Claim(d)).(deliveries := map[]) == s.(deliveries := map[]))
  {
  }

  /** A job queued on a file that has no live one is live there. */
  lemma FreshIsLive(jobs: map<Id, Job>, next: Id, source: Key)
    ensures Live(jobs[next := Fresh(source)], source)
  {
    assert ActiveOn(jobs[next := Fresh(source)], next, source);
  }

  /** What one undisturbed handling comes to, told from the payload, the ledger and the stored jobs. */
  lemma HandledExactly(setup: Setup, jobs: map<Id, Job>, ledger: set<string>, next: Id, e: Event, source: Key)
    requires AsksForWork(e) && e.id !in ledger
    ensures var h := HandlingOf(setup, jobs, ledger, next, e);
      var (after, claimed, free) := HandledRows(setup, jobs, ledger, next, e, h);
      if Acceptable(setup, e, source) then
        && claimed == ledger + {e.id} && Live(after, source)
        && if Live(jobs, source) then h == AlreadyRunning && after == jobs && free == next
           else h == Handling.Queued(next) && after == jobs[next := Fresh(source)] && free == next + 1
      else if forall s :: !Acceptable(setup, e, s) then h == Rejected && after == jobs && claimed == ledger && free == next
      else true
  {
    hide Acceptable, Accepted, AsksForWork, Live, Fresh;
    AcceptedExactly(setup, e, source);
    if Accepted(setup, e).Some? { AcceptedExactly(setup, e, Accepted(setup, e).value); }
    FreshIsLive(jobs, next, source);
  }
}
