/**
  The daily counters against the ledger, and the usage report computed from the
  ledger.
*/
module GenerationLedger {
  import opened Options
  import opened Generation
  import opened Sums

  // ---- the platform counter is the ledger -------------------------------------

  function SucceededCost(ledger: seq<Ledgered>, day: Day): nat {
    if ledger == [] then 0
    else
      var last := ledger[|ledger| - 1];
      SucceededCost(ledger[..|ledger| - 1], day) + if last.status.Succeeded? && last.Date() == day then last.cost else 0
  }

  function EmbeddedCost(embeddings: seq<Embedded>, day: Day): nat {
    if embeddings == [] then 0
    else
      var last := embeddings[|embeddings| - 1];
      EmbeddedCost(embeddings[..|embeddings| - 1], day) + if last.day == day then last.cost else 0
  }

  lemma CostAppend(ledger: seq<Ledgered>, row: Ledgered, day: Day)
    ensures SucceededCost(ledger + [row], day) ==
      SucceededCost(ledger, day) + if row.status.Succeeded? && row.Date() == day then row.cost else 0
  {
    assert (ledger + [row])[..|ledger|] == ledger;
  }

  lemma EmbeddedAppend(embeddings: seq<Embedded>, charge: Embedded, day: Day)
    ensures EmbeddedCost(embeddings + [charge], day) ==
      EmbeddedCost(embeddings, day) + if charge.day == day then charge.cost else 0
  {
    assert (embeddings + [charge])[..|embeddings|] == embeddings;
  }

  ghost predicate BalancedOn(s: State, day: Day) {
    Spent(s, day, Platform) == SucceededCost(s.ledger, day) + EmbeddedCost(s.embeddings, day)
  }

  ghost predicate Balanced(s: State) {
    forall day: Day :: BalancedOn(s, day)
  }

  /** The event is a generation that misses the cache, is admitted and answered, and is committed. */
  predicate Completes(cfg: Config, s: State, e: Event) {
    && e.Generation? && e.env.completion.Some? && !e.env.crashes
    && (e.request.force || FromCache(cfg, s, e.request.key, e.env).1.None?)
    && CheckPasses(cfg, s, e.env.days.check, e.request.user)
    && e.env.providers && !e.env.tooLarge
  }

  /** A completed, costing call for which midnight fell between the counter and the ledger row. */
  predicate Split(cfg: Config, s: State, e: Event) {
    Completes(cfg, s, e) && e.env.completion.value.cost > 0 && DayOf(e.env.days.row) != e.env.days.platform
  }

  lemma RecordSpends(cfg: Config, s: State, user: Option<User>, cost: nat, input: nat, output: nat, days: Days, day: Day)
    requires cfg.trackingEnabled
    ensures Spent(Record(cfg, s, user, cost, input, output, days), day, Platform) ==
      Spent(s, day, Platform) + if day == days.platform then cost else 0
  {
  }

  lemma CompletionSpends(cfg: Config, s: State, e: Event, day: Day)
    requires Completes(cfg, s, e) && cfg.trackingEnabled
    ensures var after, c := Step(cfg, s, e).0, e.env.completion.value;
      && Spent(after, day, Platform) == Spent(s, day, Platform) + (if day == e.env.days.platform then c.cost else 0)
      && SucceededCost(after.ledger, day) == SucceededCost(s.ledger, day) + (if day == DayOf(e.env.days.row) then c.cost else 0)
      && after.embeddings == s.embeddings
  {
    var c, request, env := e.env.completion.value, e.request, e.env;
    var looked := if request.force then s else FromCache(cfg, s, request.key, env).0;
    var row := Ledgered(request.kind, Succeeded, request.user, Some(c.provider), c.cost, c.input, c.output, env.days.row);
    RecordSpends(cfg, Append(looked, row), request.user, c.cost, c.input, c.output, env.days, day);
    CostAppend(s.ledger, row, day);
    hide Record, CheckPasses;
  }

  lemma NonCompletionSpendsNothing(cfg: Config, s: State, request: Request, env: Env, day: Day)
    requires !Completes(cfg, s, Generation(request, env))
    ensures var after := Generate(cfg, s, request, env).0;
      && after.counters == s.counters && after.embeddings == s.embeddings
      && SucceededCost(after.ledger, day) == SucceededCost(s.ledger, day)
  {
    hide Record, CheckPasses;
    CostAppend(s.ledger, Ledgered(request.kind, Cached, request.user, None, 0, 0, 0, env.days.row), day);
    CostAppend(s.ledger, Ledgered(request.kind, Failed, request.user, None, 0, 0, 0, env.days.row), day);
  }

  lemma EmbeddingKeepsBalance(cfg: Config, s: State, check: Day, at: Day, cost: nat, input: nat, answered: bool, day: Day)
    requires cfg.trackingEnabled && BalancedOn(s, day)
    ensures BalancedOn(Embed(cfg, s, check, at, cost, input, answered), day)
  {
    RecordSpends(cfg, s, None, cost, input, 0, Days(check, 0, at, at), day);
    EmbeddedAppend(s.embeddings, Embedded(at, cost), day);
    hide Record, CheckPasses;
  }

  /** A step keeps every day's platform counter equal to its ledger exactly when it does not split a call. */
  lemma BalanceBreaksExactlyWhenSplit(cfg: Config, s: State, e: Event)
    requires cfg.trackingEnabled && Balanced(s)
    ensures Balanced(Step(cfg, s, e).0) <==> !Split(cfg, s, e)
  {
    hide Generate, Embed;
    var after := Step(cfg, s, e).0;
    if Completes(cfg, s, e) {
      forall day: Day
        ensures BalancedOn(after, day) <==>
          (day == e.env.days.platform <==> day == DayOf(e.env.days.row)) || e.env.completion.value.cost == 0
      {
        assert BalancedOn(s, day);
        CompletionSpends(cfg, s, e, day);
      }
      assert Split(cfg, s, e) ==> !BalancedOn(after, DayOf(e.env.days.row));
    } else {
      forall day: Day ensures BalancedOn(after, day) {
        assert BalancedOn(s, day);
        if e.Generation? { NonCompletionSpendsNothing(cfg, s, e.request, e.env, day); }
        if e.Embedding? { EmbeddingKeepsBalance(cfg, s, e.checkDay, e.day, e.cost, e.input, e.answered, day); }
      }
    }
  }

  // ---- user counters stay within the platform's -------------------------------

  /** What each user's counter of the day holds. */
  function UserCosts(counters: map<(Day, Scope), Counter>, day: Day): map<User, nat> {
    map k | k in counters && k.0 == day && k.1.Of? :: k.1.user := counters[k].cost
  }

  ghost predicate CoveredOn(s: State, day: Day) {
    SumValues(UserCosts(s.counters, day)) <= Spent(s, day, Platform)
  }

  ghost predicate Covered(s: State) {
    forall day: Day :: CoveredOn(s, day)
  }

  /**
    The two increments of a completed call fall on different days, and the user's is more
    than the platform is ahead of the users on its day.
  */
  ghost predicate Uncovers(cfg: Config, s: State, e: Event) {
    && Completes(cfg, s, e) && e.request.user.Some? && e.env.days.platform != e.env.days.user
    && Spent(s, e.env.days.user, Platform)
      < SumValues(UserCosts(s.counters, e.env.days.user)) + e.env.completion.value.cost
  }

  lemma UserCostsUpdate(counters: map<(Day, Scope), Counter>, at: Day, user: User, row: Counter, day: Day)
    ensures UserCosts(counters[(at, Of(user)) := row], day) ==
      if day == at then UserCosts(counters, day)[user := row.cost] else UserCosts(counters, day)
  {
    var after := counters[(at, Of(user)) := row];
    forall u: User
      ensures u in UserCosts(after, day) <==> (day, Of(u)) in after
      ensures u in UserCosts(after, day) ==> UserCosts(after, day)[u] == after[(day, Of(u))].cost
      ensures u in UserCosts(counters, day) <==> (day, Of(u)) in counters
      ensures u in UserCosts(counters, day) ==> UserCosts(counters, day)[u] == counters[(day, Of(u))].cost
    {
      UserCostsMember(after, day, u);
      UserCostsMember(counters, day, u);
    }
    hide UserCosts;
  }

  lemma UserIncrement(s: State, at: Day, user: User, cost: nat, input: nat, output: nat, day: Day)
    ensures var after := Increment(s, at, Of(user), cost, input, output);
      SumValues(UserCosts(after.counters, day)) ==
      SumValues(UserCosts(s.counters, day)) + if day == at then cost else 0
  {
    hide UserCosts;
    var total := Spent(s, at, Of(user)) + cost;
    var after := Increment(s, at, Of(user), cost, input, output);
    var row := after.counters[(at, Of(user))];
    assert row.cost == total && after.counters == s.counters[(at, Of(user)) := row];
    UserCostsUpdate(s.counters, at, user, row, day);
    UserCostsMember(s.counters, at, user);
    SumUpdate(UserCosts(s.counters, at), user, total);
  }

  lemma UserCostsMember(counters: map<(Day, Scope), Counter>, day: Day, user: User)
    ensures user in UserCosts(counters, day) <==> (day, Of(user)) in counters
    ensures user in UserCosts(counters, day) ==> UserCosts(counters, day)[user] == counters[(day, Of(user))].cost
  {
    if (day, Of(user)) in counters { assert (day, Of(user)).1.user == user; }
  }

  lemma PlatformIncrement(s: State, at: Day, cost: nat, input: nat, output: nat, day: Day)
    ensures UserCosts(Increment(s, at, Platform, cost, input, output).counters, day) == UserCosts(s.counters, day)
  {
  }

  lemma RecordAdds(cfg: Config, s: State, user: Option<User>, cost: nat, input: nat, output: nat, days: Days, day: Day)
    requires cfg.trackingEnabled
    ensures var after := Record(cfg, s, user, cost, input, output, days);
      && Spent(after, day, Platform) == Spent(s, day, Platform) + (if day == days.platform then cost else 0)
      && SumValues(UserCosts(after.counters, day))
        == SumValues(UserCosts(s.counters, day)) + if user.Some? && day == days.user then cost else 0
  {
    hide UserCosts;
    var s1 := Increment(s, days.platform, Platform, cost, input, output);
    RecordSpends(cfg, s, user, cost, input, output, days, day);
    PlatformIncrement(s, days.platform, cost, input, output, day);
    if user.Some? { UserIncrement(s1, days.user, user.value, cost, input, output, day); }
  }

  lemma CompletionCounters(cfg: Config, s: State, e: Event)
    requires Completes(cfg, s, e)
    ensures var c := e.env.completion.value;
      Step(cfg, s, e).0.counters == Record(cfg, s, e.request.user, c.cost, c.input, c.output, e.env.days).counters
  {
    hide CheckPasses, Record;
    var c, request, env := e.env.completion.value, e.request, e.env;
    var looked := if request.force then s else FromCache(cfg, s, request.key, env).0;
    var row := Ledgered(request.kind, Succeeded, request.user, Some(c.provider), c.cost, c.input, c.output, env.days.row);
    RecordReadsCounters(cfg, s, Append(looked, row), request.user, c.cost, c.input, c.output, env.days);
  }

  lemma RecordReadsCounters(cfg: Config, s: State, t: State, user: Option<User>, cost: nat, input: nat, output: nat, days: Days)
    requires s.counters == t.counters
    ensures Record(cfg, s, user, cost, input, output, days).counters == Record(cfg, t, user, cost, input, output, days).counters
  {
  }

  lemma PruneStaysCovered(cfg: Config, s: State, cutoff: Day, day: Day)
    requires CoveredOn(s, day)
    ensures CoveredOn(Step(cfg, s, PruneBudgets(cutoff)).0, day)
  {
    var after := Step(cfg, s, PruneBudgets(cutoff)).0;
    SumSubmap(UserCosts(after.counters, day), UserCosts(s.counters, day));
  }

  lemma CompletionUncovers(cfg: Config, s: State, e: Event)
    requires cfg.trackingEnabled && Covered(s) && e.Generation? && e.env.completion.Some? && Completes(cfg, s, e)
    ensures Covered(Step(cfg, s, e).0) <==> !Uncovers(cfg, s, e)
  {
    hide Generate, Record, Completes, UserCosts;
    var c, days, after := e.env.completion.value, e.env.days, Step(cfg, s, e).0;
    CompletionCounters(cfg, s, e);
    forall day: Day
      ensures CoveredOn(after, day) <==>
        SumValues(UserCosts(s.counters, day)) + (if e.request.user.Some? && day == days.user then c.cost else 0)
        <= Spent(s, day, Platform) + if day == days.platform then c.cost else 0
    {
      RecordAdds(cfg, s, e.request.user, c.cost, c.input, c.output, days, day);
    }
    if Uncovers(cfg, s, e) {
      assert !CoveredOn(after, days.user);
    } else {
      forall day: Day ensures CoveredOn(after, day) { assert CoveredOn(s, day); }
    }
  }

  lemma OtherStepsStayCovered(cfg: Config, s: State, e: Event)
    requires cfg.trackingEnabled && Covered(s) && !Completes(cfg, s, e)
    ensures Covered(Step(cfg, s, e).0)
  {
    hide Generate, Record, CheckPasses, Completes, UserCosts;
    var after := Step(cfg, s, e).0;
    forall day: Day ensures CoveredOn(after, day) {
      assert CoveredOn(s, day);
      match e
      case Generation(request, env) => NonCompletionSpendsNothing(cfg, s, request, env, day);
      case Embedding(check, at, cost, input, _) => RecordAdds(cfg, s, None, cost, input, 0, Days(check, 0, at, at), day);
      case PruneBudgets(cutoff) => PruneStaysCovered(cfg, s, cutoff, day);
      case _ =>
    }
  }

  /** A step leaves no day on which users outspent the platform, exactly unless it uncovers the user's day. */
  lemma CoverBreaksExactlyWhenUncovered(cfg: Config, s: State, e: Event)
    requires cfg.trackingEnabled && Covered(s)
    ensures Covered(Step(cfg, s, e).0) <==> !Uncovers(cfg, s, e)
  {
    hide Covered, Step, CheckPasses, FromCache;
    if Completes(cfg, s, e) { CompletionUncovers(cfg, s, e); } else { OtherStepsStayCovered(cfg, s, e); }
  }

  // ---- over whole runs --------------------------------------------------------

  /** No call of the run has midnight fall between its counter and its row, or uncovers its user's day. */
  ghost predicate Daily(cfg: Config, s: State, events: seq<Event>)
    decreases events
  {
    events == [] ||
    (!Split(cfg, s, events[0]) && !Uncovers(cfg, s, events[0]) && Daily(cfg, Step(cfg, s, events[0]).0, events[1..]))
  }

  /** The books are in order in every state of the run. */
  ghost predicate BooksKept(cfg: Config, s: State, events: seq<Event>)
    decreases events
  {
    Balanced(s) && Covered(s) && (events != [] ==> BooksKept(cfg, Step(cfg, s, events[0]).0, events[1..]))
  }

  /** What the ledger can hold: providers on exactly the succeeded rows, cost only on those, nothing blocked. */
  predicate WellRecorded(row: Ledgered) {
    row.provider.Some? == row.status.Succeeded? && (row.cost > 0 ==> row.status.Succeeded?) && !row.status.Blocked?
  }

  lemma StepRecordsWell(cfg: Config, s: State, e: Event)
    requires forall row <- s.ledger :: WellRecorded(row)
    ensures forall row <- Step(cfg, s, e).0.ledger :: WellRecorded(row)
  {
    hide Record, CheckPasses;
  }

  lemma {:induction false} RunRecordsWell(cfg: Config, s: State, events: seq<Event>)
    requires forall row <- s.ledger :: WellRecorded(row)
    ensures forall row <- Run(cfg, s, events).ledger :: WellRecorded(row)
    decreases events
  {
    hide Step;
    if events != [] {
      StepRecordsWell(cfg, s, events[0]);
      RunRecordsWell(cfg, Step(cfg, s, events[0]).0, events[1..]);
    }
  }

  /** A run keeps the books in every one of its states if and only if it is daily. */
  lemma {:induction false} BooksAreKeptExactly(cfg: Config, s: State, events: seq<Event>)
    requires cfg.trackingEnabled && Balanced(s) && Covered(s)
    ensures BooksKept(cfg, s, events) <==> Daily(cfg, s, events)
    decreases events
  {
    hide Step, Balanced, Covered, Split, Uncovers;
    if events != [] {
      var after := Step(cfg, s, events[0]).0;
      BalanceBreaksExactlyWhenSplit(cfg, s, events[0]);
      CoverBreaksExactlyWhenUncovered(cfg, s, events[0]);
      if Balanced(after) && Covered(after) { BooksAreKeptExactly(cfg, after, events[1..]); }
    }
  }

  lemma {:induction false} KeptToTheEnd(cfg: Config, s: State, events: seq<Event>)
    requires BooksKept(cfg, s, events)
    ensures Balanced(Run(cfg, s, events)) && Covered(Run(cfg, s, events))
    decreases events
  {
    hide Step, Balanced, Covered;
    if events != [] { KeptToTheEnd(cfg, Step(cfg, s, events[0]).0, events[1..]); }
  }

  /**
    In every daily run each day's platform
    counter is what the ledger and the embeddings cost that day, and at least the sum
    of the user counters kept for it.
  */
  lemma CountersMatchLedger(cfg: Config, events: seq<Event>, day: Day)
    requires cfg.trackingEnabled && Daily(cfg, Empty(), events)
    ensures var end := Run(cfg, Empty(), events);
      && Spent(end, day, Platform) == SucceededCost(end.ledger, day) + EmbeddedCost(end.embeddings, day)
      && SumValues(UserCosts(end.counters, day)) <= Spent(end, day, Platform)
  {
    forall day: Day ensures BalancedOn(Empty(), day) && CoveredOn(Empty(), day) {
      assert UserCosts(Empty().counters, day) == map[];
    }
    BooksAreKeptExactly(cfg, Empty(), events);
    KeptToTheEnd(cfg, Empty(), events);
    var end := Run(cfg, Empty(), events);
    assert BalancedOn(end, day) && CoveredOn(end, day);
  }
}
