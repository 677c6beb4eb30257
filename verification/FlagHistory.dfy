/**
  The audit trail tells each flag's whole story: its entries chain, replaying them gives
  the stored flag, and pruning only drops the beginning. And a rollout only adds users.
*/
module FlagHistory {
  import opened Options
  import opened FlagModel

  /** One flag's entries, oldest first. */
  function Trail(audits: seq<Audit>, key: string): seq<Audit> {
    if audits == [] then []
    else
      var n := |audits| - 1;
      Trail(audits[..n], key) + (if audits[n].key == key then [audits[n]] else [])
  }

  function Stored(db: Db, key: string): Option<Flag> {
    if key in db.flags then Some(db.flags[key]) else None
  }

  /** Replays a trail over a state; None when an entry does not follow from the one before it. */
  function Replay(trail: seq<Audit>, state: Option<Flag>): Option<Option<Flag>>
    decreases |trail|
  {
    if trail == [] then Some(state)
    else if trail[0].before != state then None
    else Replay(trail[1..], trail[0].after)
  }

  function Untold(trail: seq<Audit>, stored: Option<Flag>): Option<Flag> {
    if trail == [] then stored else trail[0].before
  }

  predicate Labelled(a: Audit) {
    match a.action
    case Created => a.before.None? && a.after.Some?
    case Updated => a.before.Some? && a.after.Some?
    case Deleted => a.before.Some? && a.after.None?
  }

  lemma TrailAppend(audits: seq<Audit>, a: Audit, key: string)
    ensures Trail(audits + [a], key) == Trail(audits, key) + (if a.key == key then [a] else [])
  {
    assert (audits + [a])[..|audits|] == audits;
  }

  lemma {:induction false} ReplayAppend(trail: seq<Audit>, a: Audit, state: Option<Flag>)
    ensures var r := Replay(trail, state);
      Replay(trail + [a], state) == if r.Some? && r.value == a.before then Some(a.after) else None
    decreases |trail|
  {
    if trail == [] {
      assert (trail + [a])[1..] == [];
    } else {
      assert (trail + [a])[1..] == trail[1..] + [a];
      ReplayAppend(trail[1..], a, trail[0].after);
    }
  }

  /** What a request writes to the trail. */
  function Entries(db: Db, now: int, request: Request): seq<Audit> {
    Step(0, db.(audits := []), now, request).audits
  }

  lemma StepWrites(retention: int, db: Db, now: int, request: Request)
    requires !request.PruneAudits?
    ensures var after, entries := Step(retention, db, now, request), Entries(db, now, request);
      && |entries| <= 1 && after.audits == db.audits + entries
      && (entries == [] ==> after.flags == db.flags)
      && (entries != [] ==>
        var a := entries[0];
        && Labelled(a) && a.at == now && a.before == Stored(db, a.key) && a.after == Stored(after, a.key)
        && forall k :: k != a.key ==> Stored(after, k) == Stored(db, k))
  {
  }

  // ---- without pruning --------------------------------------------------------

  function NoPrune(events: seq<Event>): seq<Event> {
    if events == [] then []
    else
      var n := |events| - 1;
      NoPrune(events[..n]) + (if events[n].request.PruneAudits? then [] else [events[n]])
  }

  lemma NoPruneAppend(retention: int, events: seq<Event>, e: Event)
    ensures Run(retention, events + [e]) == Step(retention, Run(retention, events), e.now, e.request)
  {
    assert (events + [e])[..|events|] == events;
  }

  ghost predicate Tells(db: Db, key: string) {
    Replay(Trail(db.audits, key), None) == Some(Stored(db, key)) && forall a <- db.audits :: Labelled(a)
  }

  lemma StepKeepsTelling(retention: int, db: Db, now: int, request: Request, key: string)
    requires Tells(db, key) && !request.PruneAudits?
    ensures Tells(Step(retention, db, now, request), key)
  {
    hide Step, Entries, Trail, Replay, Labelled;
    var after := Step(retention, db, now, request);
    StepWrites(retention, db, now, request);
    var entries := Entries(db, now, request);
    if entries == [] {
      assert after.audits == db.audits;
    } else {
      assert entries == [entries[0]];
      TrailAppend(db.audits, entries[0], key);
      ReplayAppend(Trail(db.audits, key), entries[0], None);
      if key != entries[0].key { assert Trail(after.audits, key) == Trail(db.audits, key); }
    }
  }

  /** The full history of a flag starts from nothing and replays to the stored row, or to its absence. */
  lemma {:induction false} TrailReplaysToStored(retention: int, events: seq<Event>, key: string)
    requires forall e <- events :: !e.request.PruneAudits?
    ensures Tells(Run(retention, events), key)
  {
    if events != [] {
      hide Step, Tells;
      var n := |events| - 1;
      TrailReplaysToStored(retention, events[..n], key);
      StepKeepsTelling(retention, Run(retention, events[..n]), events[n].now, events[n].request, key);
    } else {
      assert Tells(Run(retention, events), key);
    }
  }

  // ---- with pruning -----------------------------------------------------------

  ghost predicate InOrder(audits: seq<Audit>) {
    forall i, j :: 0 <= i < j < |audits| ==> audits[i].at <= audits[j].at
  }

  lemma {:induction false} AllAreKept(audits: seq<Audit>, cutoff: int)
    requires forall a <- audits :: cutoff <= a.at
    ensures Since(audits, cutoff) == audits
  {
    if audits != [] { AllAreKept(audits[1..], cutoff); }
  }

  lemma {:induction false} SinceIsSuffix(audits: seq<Audit>, cutoff: int) returns (dropped: nat)
    requires InOrder(audits)
    ensures dropped <= |audits| && Since(audits, cutoff) == audits[dropped..]
    decreases |audits|
  {
    if audits == [] || cutoff <= audits[0].at {
      dropped := 0;
      AllAreKept(audits, cutoff);
    } else {
      var rest := SinceIsSuffix(audits[1..], cutoff);
      dropped := rest + 1;
    }
  }

  lemma {:induction false} TrailOfSuffix(audits: seq<Audit>, dropped: nat, key: string) returns (k: nat)
    requires dropped <= |audits|
    ensures k <= |Trail(audits, key)| && Trail(audits[dropped..], key) == Trail(audits, key)[k..]
    decreases |audits|
  {
    if dropped == |audits| {
      k := |Trail(audits, key)|;
      assert audits[dropped..] == [];
    } else {
      var n := |audits| - 1;
      hide Trail;
      k := TrailOfSuffix(audits[..n], dropped, key);
      TrailAppend(audits[..n], audits[n], key);
      assert audits == audits[..n] + [audits[n]];
      assert audits[dropped..] == audits[..n][dropped..] + [audits[n]];
      TrailAppend(audits[..n][dropped..], audits[n], key);
    }
  }

  lemma {:induction false} NoPruneKeepsOthers(events: seq<Event>)
    ensures forall e <- NoPrune(events) :: e in events && !e.request.PruneAudits?
    decreases |events|
  {
    if events != [] { NoPruneKeepsOthers(events[..|events| - 1]); }
  }

  /** `db` is `whole` without the first entries of its trail. */
  ghost predicate Retains(db: Db, whole: Db, dropped: nat) {
    db.flags == whole.flags && dropped <= |whole.audits| && db.audits == whole.audits[dropped..]
  }

  ghost predicate Logged(db: Db, now: int) {
    InOrder(db.audits) && forall a <- db.audits :: a.at <= now
  }

  lemma StepKeepsLogged(retention: int, db: Db, last: int, now: int, request: Request)
    requires Logged(db, last) && last <= now && !request.PruneAudits?
    ensures Logged(Step(retention, db, now, request), now)
  {
    hide Step, Entries, Labelled;
    StepWrites(retention, db, now, request);
  }

  lemma StepKeepsRetained(retention: int, db: Db, whole: Db, dropped: nat, now: int, request: Request)
    requires Retains(db, whole, dropped) && !request.PruneAudits?
    ensures Retains(Step(retention, db, now, request), Step(retention, whole, now, request), dropped)
  {
    hide Step, Entries, Labelled;
    StepWrites(retention, db, now, request);
    StepWrites(retention, whole, now, request);
    SameFlagsSameEntries(retention, db, whole, now, request);
  }

  lemma PruneKeepsRetained(retention: int, db: Db, whole: Db, dropped: nat, now: int) returns (more: nat)
    requires Retains(db, whole, dropped) && InOrder(whole.audits)
    ensures Retains(Step(retention, db, now, PruneAudits), whole, more)
  {
    hide Step, Since;
    StepPrunes(retention, db, now);
    var extra := SinceIsSuffix(db.audits, now - retention);
    more := dropped + extra;
    assert db.audits[extra..] == whole.audits[more..];
  }

  lemma Unfold(retention: int, events: seq<Event>)
    requires events != []
    ensures var n := |events| - 1;
      var whole := Run(retention, NoPrune(events[..n]));
      && Run(retention, events) == Step(retention, Run(retention, events[..n]), events[n].now, events[n].request)
      && Run(retention, NoPrune(events))
        == if events[n].request.PruneAudits? then whole else Step(retention, whole, events[n].now, events[n].request)
  {
    hide Step;
    var n := |events| - 1;
    if events[n].request.PruneAudits? {
      assert NoPrune(events) == NoPrune(events[..n]);
    } else {
      NoPruneAppend(retention, NoPrune(events[..n]), events[n]);
    }
  }

  function LastNow(events: seq<Event>): int {
    if events == [] then 0 else events[|events| - 1].now
  }

  lemma {:induction false} WholeIsLogged(retention: int, events: seq<Event>)
    requires Ordered(events)
    ensures Logged(Run(retention, NoPrune(events)), LastNow(events))
    decreases |events|
  {
    if events != [] {
      hide Step, Run, NoPrune;
      var n := |events| - 1;
      var e := events[n];
      var whole := Run(retention, NoPrune(events[..n]));
      WholeIsLogged(retention, events[..n]);
      Unfold(retention, events);
      var last := if n == 0 then e.now else events[n - 1].now;
      assert Logged(whole, last) by { if n == 0 { EmptyRun(retention, events[..n]); } }
      if !e.request.PruneAudits? { StepKeepsLogged(retention, whole, last, e.now, e.request); }
    }
  }

  lemma EmptyRun(retention: int, events: seq<Event>)
    requires events == []
    ensures Run(retention, events) == Run(retention, NoPrune(events)) == Db(map[], [])
  {
  }

  lemma {:induction false} PrunedIsSuffix(retention: int, events: seq<Event>) returns (dropped: nat)
    requires Ordered(events)
    ensures Retains(Run(retention, events), Run(retention, NoPrune(events)), dropped)
    decreases |events|
  {
    hide Step, Run, NoPrune, Retains;
    if events == [] {
      EmptyRun(retention, events);
      var db := Db(map[], []);
      assert Retains(db, db, 0) by { Whole(db); }
      dropped := 0;
    } else {
      var n := |events| - 1;
      var e := events[n];
      var db, whole := Run(retention, events[..n]), Run(retention, NoPrune(events[..n]));
      dropped := PrunedIsSuffix(retention, events[..n]);
      Unfold(retention, events);
      if e.request.PruneAudits? {
        WholeIsLogged(retention, events[..n]);
        dropped := PruneKeepsRetained(retention, db, whole, dropped, e.now);
      } else {
        StepKeepsRetained(retention, db, whole, dropped, e.now, e.request);
      }
    }
  }

  lemma Whole(db: Db)
    ensures Retains(db, db, 0)
  {
  }

  lemma StepPrunes(retention: int, db: Db, now: int)
    ensures Step(retention, db, now, PruneAudits) == db.(audits := Since(db.audits, now - retention))
  {
  }

  lemma SameFlagsSameEntries(retention: int, db: Db, whole: Db, now: int, request: Request)
    requires db.flags == whole.flags && !request.PruneAudits?
    ensures Entries(db, now, request) == Entries(whole, now, request)
    ensures Step(retention, db, now, request).flags == Step(retention, whole, now, request).flags
  {
    assert db.(audits := []) == whole.(audits := []);
  }

  lemma {:induction false} ReplaySuffix(trail: seq<Audit>, k: nat, state: Option<Flag>)
    requires k <= |trail| && Replay(trail, state).Some?
    ensures var rest := trail[k..];
      Replay(rest, Untold(rest, Replay(trail, state).value)) == Replay(trail, state)
    decreases k
  {
    if k > 0 {
      assert trail[1..][k - 1..] == trail[k..];
      ReplaySuffix(trail[1..], k - 1, trail[0].after);
    } else {
      assert trail[0..] == trail;
    }
  }

  /**
    In every run, what pruning leaves of a flag's trail is its end: it chains without a
    gap from its own first entry to the stored row, or to the row's absence.
  */
  lemma RetainedTrailReplaysToStored(retention: int, events: seq<Event>, key: string) returns (k: nat)
    requires Ordered(events)
    ensures var db, whole := Run(retention, events), Run(retention, NoPrune(events));
      var trail := Trail(db.audits, key);
      && k <= |Trail(whole.audits, key)| && trail == Trail(whole.audits, key)[k..]
      && Replay(trail, Untold(trail, Stored(db, key))) == Some(Stored(db, key))
      && (forall a <- trail :: Labelled(a))
  {
    var dropped := PrunedIsSuffix(retention, events);
    var whole := Run(retention, NoPrune(events));
    k := TrailOfSuffix(whole.audits, dropped, key);
    NoPruneKeepsOthers(events);
    TrailReplaysToStored(retention, NoPrune(events), key);
    ReplaySuffix(Trail(whole.audits, key), k, None);
    TrailWithin(Run(retention, events).audits, key);
  }

  lemma {:induction false} TrailWithin(audits: seq<Audit>, key: string)
    ensures forall a <- Trail(audits, key) :: a in audits && a.key == key
    decreases |audits|
  {
    if audits != [] { TrailWithin(audits[..|audits| - 1], key); }
  }

  /** Where a reader of the trail alone ends up: the last entry's after, or nothing. */
  function Told(trail: seq<Audit>): Option<Flag> {
    if trail == [] then None else trail[|trail| - 1].after
  }

  lemma {:induction false} ReplayEndsAtLast(trail: seq<Audit>, state: Option<Flag>)
    requires trail != [] && Replay(trail, state).Some?
    ensures Replay(trail, state) == Some(Told(trail))
    decreases |trail|
  {
    if |trail| > 1 { ReplayEndsAtLast(trail[1..], trail[0].after); }
  }

  /** The trail alone tells the stored row, or its absence, exactly unless every entry of a stored flag is pruned. */
  lemma TrailTellsStoredExactly(retention: int, events: seq<Event>, key: string)
    requires Ordered(events)
    ensures var db := Run(retention, events);
      var trail := Trail(db.audits, key);
      Told(trail) == Stored(db, key) <==> trail != [] || key !in db.flags
  {
    var k := RetainedTrailReplaysToStored(retention, events, key);
    var db := Run(retention, events);
    var trail := Trail(db.audits, key);
    if trail != [] { ReplayEndsAtLast(trail, Untold(trail, Stored(db, key))); }
  }

  // ---- rollout ----------------------------------------------------------------

  /** Who a flag is on for: nobody when off; listed users; and those in a bucket below the rollout. */
  lemma OnForExactly(env: Env, flags: map<string, Flag>, key: string, user: Option<Id>)
    requires Normal(env, key) in flags
    ensures var f := flags[Normal(env, key)];
      Evaluate(env, flags, key, user).enabled <==>
        f.enabled && (if user.None? then f.rollout >= 100
          else user.value in f.allowlist || BucketOf(env, key, user.value) < f.rollout)
  {
    hide Normal;
  }

  function WithRollout(flags: map<string, Flag>, k: string, rollout: int): map<string, Flag>
    requires k in flags
  {
    flags[k := flags[k].(rollout := rollout)]
  }

  /** The flag is at rollout p and on for the user. */
  predicate OnAt(env: Env, flags: map<string, Flag>, key: string, user: Option<Id>, p: int) {
    Normal(env, key) in flags && flags[Normal(env, key)].rollout == p && Evaluate(env, flags, key, user).enabled
  }

  /** Changing the rollout from p to q takes the feature from no user, whatever the hash. */
  ghost predicate TakesFromNobody(p: int, q: int) {
    forall env, flags, key, user :: OnAt(env, flags, key, user, p) ==>
      OnAt(env, WithRollout(flags, Normal(env, key), q), key, user, q)
  }

  /** Raising a rollout only adds users, and nothing but raising it does. */
  lemma RaisingExactlyTakesFromNobody(p: int, q: int)
    requires 0 <= p <= 100 && 0 <= q <= 100
    ensures TakesFromNobody(p, q) <==> p <= q
  {
    hide Evaluate, Normal;
    if p <= q {
      forall env, flags, key, user | OnAt(env, flags, key, user, p)
        ensures OnAt(env, WithRollout(flags, Normal(env, key), q), key, user, q)
      {
        OnForExactly(env, flags, key, user);
        OnForExactly(env, WithRollout(flags, Normal(env, key), q), key, user);
      }
    } else {
      var env := Env((key, user) => q, s => s);
      var k := Normal(env, "");
      var flags := map[k := Flag(true, "", p, [])];
      OnForExactly(env, flags, "", Some(0));
      OnForExactly(env, WithRollout(flags, k, q), "", Some(0));
      assert OnAt(env, flags, "", Some(0), p);
    }
  }
}
