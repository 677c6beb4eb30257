/** `Generator` and `BudgetService`, updating the cache tiers, the counters and the ledger in place. */
module GeneratorService {
  import opened Options
  import opened Generation

  class Generator {
    const cfg: Config
    var table: map<Key, CachedRow>
    var redis: map<Key, Entry>
    var counters: map<(Day, Scope), Counter>
    var ledger: seq<Ledgered>
    ghost var embeddings: seq<Embedded>

    constructor (cfg: Config)
      ensures this.cfg == cfg && Tables() == Empty()
    {
      this.cfg := cfg;
      table, redis, counters, ledger, embeddings := map[], map[], map[], [], [];
    }

    ghost function Tables(): State
      reads this
    {
      State(table, redis, counters, ledger, embeddings)
    }

    // ---- cache ----------------------------------------------------------------

    method Warm(key: Key, entry: Entry, env: Env)
      modifies this`redis
      ensures Tables() == Generation.Warm(old(Tables()), key, entry, env)
    {
      if env.redisWrites {
        redis := redis[key := entry];
      }
    }

    method FromCache(key: Key, env: Env) returns (hit: Option<Entry>)
      modifies this`redis
      ensures (Tables(), hit) == Generation.FromCache(cfg, old(Tables()), key, env)
    {
      if !cfg.cacheEnabled { return None; }
      if env.redisReads && key in redis { return Some(redis[key]); }
      if key !in table { return None; }
      var row := table[key];
      Warm(key, row.entry, env);
      hit := Some(row.entry);
    }

    method Store(key: Key, entry: Entry, env: Env)
      modifies this`redis, this`table
      ensures Tables() == Generation.Store(old(Tables()), key, entry, env)
    {
      if key in table { return; }
      table := table[key := CachedRow(entry, None)];
      Warm(key, entry, env);
    }

    // ---- budget ---------------------------------------------------------------

    /** What the counter of a day and scope holds; a missing row is zero. */
    method SpentOn(day: Day, scope: Scope) returns (spent: nat)
      ensures spent == Spent(Tables(), day, scope)
    {
      spent := if (day, scope) in counters then counters[(day, scope)].cost else 0;
    }

    method Check(day: Day, user: Option<User>) returns (passes: bool)
      ensures passes == CheckPasses(cfg, Tables(), day, user)
    {
      if !cfg.trackingEnabled { return true; }
      var platform := SpentOn(day, Platform);
      if platform >= cfg.platformLimit { return false; }
      if user.Some? {
        var personal := SpentOn(day, Of(user.value));
        if personal >= cfg.userLimit { return false; }
      }
      passes := true;
    }

    method Increment(day: Day, scope: Scope, cost: nat, input: nat, output: nat)
      modifies this`counters
      ensures Tables() == Generation.Increment(old(Tables()), day, scope, cost, input, output)
    {
      if (day, scope) in counters {
        var row := counters[(day, scope)];
        counters := counters[(day, scope) :=
          Counter(row.cost + cost, row.requests + 1, row.input + input, row.output + output)];
        return;
      }
      counters := counters[(day, scope) := Counter(cost, 1, input, output)];
    }

    method Record(user: Option<User>, cost: nat, input: nat, output: nat, days: Days)
      modifies this`counters
      ensures Tables() == Generation.Record(cfg, old(Tables()), user, cost, input, output, days)
    {
      if !cfg.trackingEnabled { return; }
      Increment(days.platform, Platform, cost, input, output);
      if user.Some? {
        Increment(days.user, Of(user.value), cost, input, output);
      }
    }

    // ---- generation -----------------------------------------------------------

    method Append(row: Ledgered)
      modifies this`ledger
      ensures Tables() == Generation.Append(old(Tables()), row)
    {
      ledger := ledger + [row];
    }

    method Generate(request: Request, env: Env) returns (outcome: Outcome)
      modifies this
      ensures (Tables(), outcome) == Generation.Generate(cfg, old(Tables()), request, env)
    {
      var table0, counters0, ledger0 := table, counters, ledger;
      outcome := Attempt(request, env);
      if env.crashes && (outcome.Served? || outcome.ProviderFailed?) {
        table, counters, ledger := table0, counters0, ledger0;
        outcome := Crashed;
      }
    }

    /** The call up to, and apart from, the loss of its transaction. */
    method Attempt(request: Request, env: Env) returns (outcome: Outcome)
      modifies this`table, this`redis, this`counters, this`ledger
      ensures var (after, result) := Generation.Generate(cfg, old(Tables()), request, env.(crashes := false));
        Tables() == after && outcome == result
    {
      if !request.force {
        var hit := FromCache(request.key, env);
        if hit.Some? {
          Append(Ledgered(request.kind, Cached, request.user, None, 0, 0, 0, env.days.row));
          return Served(hit.value, 0, true);
        }
      }
      var passes := Check(env.days.check, request.user);
      if !passes { return BudgetExhausted; }
      if !env.providers { return NoProvider; }
      if env.tooLarge { return InputTooLarge; }
      match env.completion {
        case None =>
          Append(Ledgered(request.kind, Failed, request.user, None, 0, 0, 0, env.days.row));
          outcome := ProviderFailed;
        case Some(c) =>
          Append(Ledgered(request.kind, Succeeded, request.user, Some(c.provider), c.cost, c.input, c.output, env.days.row));
          Record(request.user, c.cost, c.input, c.output, env.days);
          Store(request.key, c.entry, env);
          outcome := Served(c.entry, c.cost, false);
      }
    }

    // ---- the rest -------------------------------------------------------------

    method Embed(checkDay: Day, day: Day, cost: nat, input: nat, answered: bool)
      modifies this`counters, this`embeddings
      ensures Tables() == Generation.Embed(cfg, old(Tables()), checkDay, day, cost, input, answered)
    {
      var passes := Check(checkDay, None);
      if !passes || !answered { return; }
      Record(None, cost, input, 0, Days(checkDay, 0, day, day));
      embeddings := embeddings + [Embedded(day, cost)];
    }

    method PruneBudgets(cutoff: Day) returns (removed: nat)
      modifies this`counters
      ensures Tables() == Step(cfg, old(Tables()), Event.PruneBudgets(cutoff)).0
      ensures removed == |old(counters)| - |counters|
    {
      var stale := set k | k in counters && k.0 < cutoff && k.1.Of?;
      assert counters.Keys == (counters - stale).Keys + stale;
      assert |counters.Keys| == |(counters - stale).Keys| + |stale|;
      counters := counters - stale;
      removed := |stale|;
    }
  }
}
