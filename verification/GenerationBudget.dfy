/**
  What the budget check of the generation path itself does: calls made one after another
  stay within one cost of each ceiling, and no call is turned away below both.
*/
module GenerationBudget {
  import opened Arith
  import opened Options
  import opened Generation

  function Limit(cfg: Config, scope: Scope): int {
    match scope
    case Platform => cfg.platformLimit
    case Of(_) => cfg.userLimit
  }

  /** The most that a day's counter of the scope comes to when no call costs more than c. */
  function Most(cfg: Config, scope: Scope, c: nat): nat {
    if Limit(cfg, scope) <= 0 then 0 else Limit(cfg, scope) - 1 + c
  }

  /** The call reads one day and costs at most c; old counters are kept. */
  predicate Plain(e: Event, c: nat) {
    match e
    case Generation(_, env) =>
      && env.days.platform == env.days.check && env.days.user == env.days.check
      && (env.completion.Some? ==> env.completion.value.cost <= c)
    case Embedding(checkDay, day, cost, _, _) => day == checkDay && cost <= c
    case PruneBudgets(_) => false
    case _ => true
  }

  ghost predicate Within(cfg: Config, s: State, c: nat) {
    forall day: Day, scope: Scope :: Spent(s, day, scope) <= Most(cfg, scope, c)
  }

  lemma RecordAddsExactly(cfg: Config, s: State, user: Option<User>, cost: nat, input: nat, output: nat, days: Days, day: Day, scope: Scope)
    requires cfg.trackingEnabled
    ensures Spent(Record(cfg, s, user, cost, input, output, days), day, scope) == Spent(s, day, scope) +
      match scope
      case Platform => if day == days.platform then cost else 0
      case Of(u) => if user == Some(u) && day == days.user then cost else 0
  {
  }

  lemma GenerateKeepsWithin(cfg: Config, s: State, request: Request, env: Env, c: nat)
    requires cfg.trackingEnabled && Within(cfg, s, c) && Plain(Event.Generation(request, env), c)
    ensures Within(cfg, Generate(cfg, s, request, env).0, c)
  {
    hide Record;
    var after := Generate(cfg, s, request, env).0;
    forall day: Day, scope: Scope ensures Spent(after, day, scope) <= Most(cfg, scope, c) {
      assert Spent(s, day, scope) <= Most(cfg, scope, c);
      if env.completion.Some? {
        var x, looked := env.completion.value, if request.force then s else FromCache(cfg, s, request.key, env).0;
        var row := Ledgered(request.kind, Succeeded, request.user, Some(x.provider), x.cost, x.input, x.output, env.days.row);
        RecordAddsExactly(cfg, Append(looked, row), request.user, x.cost, x.input, x.output, env.days, day, scope);
      }
    }
  }

  lemma SameCounters(cfg: Config, s: State, after: State, c: nat)
    requires Within(cfg, s, c) && after.counters == s.counters
    ensures Within(cfg, after, c)
  {
    forall day: Day, scope: Scope ensures Spent(after, day, scope) <= Most(cfg, scope, c) {
      assert Spent(s, day, scope) <= Most(cfg, scope, c);
    }
  }

  lemma StepKeepsWithin(cfg: Config, s: State, e: Event, c: nat)
    requires cfg.trackingEnabled && Within(cfg, s, c) && Plain(e, c)
    ensures Within(cfg, Step(cfg, s, e).0, c)
  {
    hide Record, Generate;
    match e
    case Generation(request, env) => GenerateKeepsWithin(cfg, s, request, env, c);
    case Embedding(checkDay, day, cost, input, _) =>
      var after := Step(cfg, s, e).0;
      forall d: Day, scope: Scope ensures Spent(after, d, scope) <= Most(cfg, scope, c) {
        assert Spent(s, d, scope) <= Most(cfg, scope, c);
        RecordAddsExactly(cfg, s, None, cost, input, 0, Days(checkDay, 0, day, day), d, scope);
      }
    case Evict(_) => SameCounters(cfg, s, Step(cfg, s, e).0, c);
    case PruneCache(_) => SameCounters(cfg, s, Step(cfg, s, e).0, c);
  }

  /** In every run of such calls, no day's counter passes its own scope's ceiling less one plus one cost. */
  lemma {:induction false} SerialSpendIsWithin(cfg: Config, s: State, events: seq<Event>, c: nat)
    requires cfg.trackingEnabled && Within(cfg, s, c) && forall e <- events :: Plain(e, c)
    ensures Within(cfg, Run(cfg, s, events), c)
    decreases events
  {
    hide Step, Within, Plain;
    if events != [] {
      StepKeepsWithin(cfg, s, events[0], c);
      SerialSpendIsWithin(cfg, Step(cfg, s, events[0]).0, events[1..], c);
    }
  }

  lemma SerialSpendStaysNearCeiling(cfg: Config, events: seq<Event>, c: nat, day: Day, scope: Scope)
    requires cfg.trackingEnabled && forall e <- events :: Plain(e, c)
    ensures Spent(Run(cfg, Empty(), events), day, scope) <= Most(cfg, scope, c)
  {
    hide Run;
    assert Within(cfg, Empty(), c);
    SerialSpendIsWithin(cfg, Empty(), events, c);
  }

  // ---- what a call comes to ---------------------------------------------------

  /** A result for the key is found, in Redis or in the table. */
  predicate Found(cfg: Config, s: State, request: Request, env: Env) {
    cfg.cacheEnabled && !request.force && ((env.redisReads && request.key in s.redis) || request.key in s.table)
  }

  /** A counter the call is charged to has reached its own ceiling. */
  predicate Reached(cfg: Config, s: State, day: Day, user: Option<User>) {
    cfg.trackingEnabled &&
    (cfg.platformLimit <= Spent(s, day, Platform) || (user.Some? && cfg.userLimit <= Spent(s, day, Of(user.value))))
  }

  /**
    A call is turned away for the budget if and only if its result is not found and a
    counter it is charged to has reached its own ceiling; below, it is served, or fails
    for one of the other reasons, each exactly in its case.
  */
  lemma OutcomeExactly(cfg: Config, s: State, request: Request, env: Env)
    ensures var outcome := Generate(cfg, s, request, env).1;
      var reached := Reached(cfg, s, env.days.check, request.user);
      if Found(cfg, s, request, env) then
        if env.crashes then outcome == Crashed else outcome.Served? && outcome.cached && outcome.cost == 0
      else
        && (outcome == BudgetExhausted <==> reached)
        && (outcome == NoProvider <==> !reached && !env.providers)
        && (outcome == InputTooLarge <==> !reached && env.providers && env.tooLarge)
        && (outcome == Crashed <==> !reached && env.providers && !env.tooLarge && env.crashes)
        && (outcome == ProviderFailed <==>
          !reached && env.providers && !env.tooLarge && !env.crashes && env.completion.None?)
        && (outcome.Served? ==>
          && env.completion.Some? && !outcome.cached
          && outcome.entry == env.completion.value.entry && outcome.cost == env.completion.value.cost)
  {
    hide Record;
  }

  /** What a served call leaves behind: its ledger row, its charges, and its result unless there was one. */
  lemma ServedCallIsRecorded(cfg: Config, s: State, request: Request, env: Env)
    requires cfg.trackingEnabled && !Found(cfg, s, request, env) && Generate(cfg, s, request, env).1.Served?
    ensures var (after, outcome) := Generate(cfg, s, request, env);
      var c := env.completion.value;
      && after.ledger == s.ledger + [Ledgered(request.kind, Succeeded, request.user, Some(c.provider), c.cost, c.input, c.output, env.days.row)]
      && Spent(after, env.days.platform, Platform) == Spent(s, env.days.platform, Platform) + c.cost
      && (request.user.Some? ==>
        var scope := Of(request.user.value); Spent(after, env.days.user, scope) == Spent(s, env.days.user, scope) + c.cost)
      && request.key in after.table
      && (request.key !in s.table ==>
        && after.table[request.key] == CachedRow(c.entry, None)
        && (env.redisWrites ==> request.key in after.redis && after.redis[request.key] == c.entry))
      && (forall k <- s.table :: k in after.table && after.table[k] == s.table[k])
      && after.table.Keys == s.table.Keys + {request.key}
  {
    hide Record;
    var c, looked := env.completion.value, if request.force then s else FromCache(cfg, s, request.key, env).0;
    var row := Ledgered(request.kind, Succeeded, request.user, Some(c.provider), c.cost, c.input, c.output, env.days.row);
    RecordAddsExactly(cfg, Append(looked, row), request.user, c.cost, c.input, c.output, env.days, env.days.platform, Platform);
    if request.user.Some? {
      RecordAddsExactly(cfg, Append(looked, row), request.user, c.cost, c.input, c.output, env.days, env.days.user, Of(request.user.value));
    }
  }

  /** A counter counts the requests and the tokens with the cost. */
  lemma RecordCounts(cfg: Config, s: State, user: Option<User>, cost: nat, input: nat, output: nat, days: Days)
    requires cfg.trackingEnabled
    ensures var after := Record(cfg, s, user, cost, input, output, days);
      var key := (days.platform, Platform);
      var was := if key in s.counters then s.counters[key] else Counter(0, 0, 0, 0);
      && key in after.counters
      && after.counters[key] == Counter(was.cost + cost, was.requests + 1, was.input + input, was.output + output)
      && after.counters.Keys == s.counters.Keys + {key} + (if user.Some? then {(days.user, Of(user.value))} else {})
      && (user.Some? ==>
        var mine := (days.user, Of(user.value));
        var own := if mine in s.counters then s.counters[mine] else Counter(0, 0, 0, 0);
        after.counters[mine] == Counter(own.cost + cost, own.requests + 1, own.input + input, own.output + output))
  {
  }

  /** A found result and a failed call leave one ledger row without cost and tokens, and no charge. */
  lemma UnchargedCallsAreRecorded(cfg: Config, s: State, request: Request, env: Env)
    ensures var (after, outcome) := Generate(cfg, s, request, env);
      var cached := outcome.Served? && outcome.cached;
      && (cached || outcome == ProviderFailed ==>
        && after.ledger == s.ledger + [Ledgered(request.kind, if cached then Cached else Failed, request.user, None, 0, 0, 0, env.days.row)]
        && after.counters == s.counters && after.table == s.table)
      && (!outcome.Served? && outcome != ProviderFailed ==>
        after.ledger == s.ledger && after.counters == s.counters && after.table == s.table)
  {
    hide Record;
  }

  /** An embedding is charged to the platform alone, exactly when it is answered and the platform is below its ceiling. */
  lemma EmbeddingIsChargedExactly(cfg: Config, s: State, checkDay: Day, day: Day, cost: nat, input: nat, answered: bool)
    requires cfg.trackingEnabled
    ensures var after := Embed(cfg, s, checkDay, day, cost, input, answered);
      if answered && Spent(s, checkDay, Platform) < cfg.platformLimit then
        && Spent(after, day, Platform) == Spent(s, day, Platform) + cost
        && after.embeddings == s.embeddings + [Embedded(day, cost)]
        && after.counters.Keys == s.counters.Keys + {(day, Platform)}
        && (forall k <- s.counters :: k != (day, Platform) ==> after.counters[k] == s.counters[k])
        && after.ledger == s.ledger && after.table == s.table && after.redis == s.redis
      else after == s
  {
    hide Record;
    RecordAddsExactly(cfg, s, None, cost, input, 0, Days(checkDay, 0, day, day), day, Platform);
    RecordCounts(cfg, s, None, cost, input, 0, Days(checkDay, 0, day, day));
    OnlyItsRows(cfg, s, None, cost, input, 0, Days(checkDay, 0, day, day));
  }

  lemma OnlyItsRows(cfg: Config, s: State, user: Option<User>, cost: nat, input: nat, output: nat, days: Days)
    requires cfg.trackingEnabled
    ensures var after := Record(cfg, s, user, cost, input, output, days);
      forall k <- s.counters :: k != (days.platform, Platform) && (user.Some? ==> k != (days.user, Of(user.value))) ==>
        k in after.counters && after.counters[k] == s.counters[k]
  {
  }

  /** Nothing is charged while tracking is off. */
  lemma UntrackedIsFree(cfg: Config, s: State, user: Option<User>, cost: nat, input: nat, output: nat, days: Days)
    requires !cfg.trackingEnabled
    ensures Record(cfg, s, user, cost, input, output, days) == s && !Reached(cfg, s, days.check, user)
  {
  }

  /** The budget sweep takes exactly the users' rows of days before its cutoff. */
  lemma OldUserRowsArePruned(cfg: Config, s: State, cutoff: Day, day: Day, scope: Scope)
    ensures var after := Step(cfg, s, PruneBudgets(cutoff)).0;
      && after == s.(counters := after.counters)
      && ((day, scope) in after.counters <==> (day, scope) in s.counters && (scope == Platform || cutoff <= day))
      && ((day, scope) in after.counters ==> after.counters[(day, scope)] == s.counters[(day, scope)])
  {
  }

  /** The cache sweep takes exactly the rows past an expiry, and an eviction exactly the keys evicted. */
  lemma SweptRowsExactly(cfg: Config, s: State, now: int, keys: set<Key>, key: Key)
    ensures var after := Step(cfg, s, PruneCache(now)).0;
      && after == s.(table := after.table)
      && (key in after.table <==> key in s.table && (s.table[key].expires.Some? ==> now <= s.table[key].expires.value))
      && (key in after.table ==> after.table[key] == s.table[key])
    ensures var after := Step(cfg, s, Evict(keys)).0;
      && after == s.(redis := after.redis)
      && (key in after.redis <==> key in s.redis && key !in keys) && (key in after.redis ==> after.redis[key] == s.redis[key])
  {
  }
}
