/**
  The AI service's generation path as pure state transformers: the two-tier result
  cache, the daily counters, and the ledger of generations. Cost is an exact number
  of micro-dollars, a cache key stands for the fingerprint it is the digest of, and a
  call reads the clock separately for the check, the ledger row, and each counter.
*/
module Generation {
  import opened Options

  type Key = nat
  type User = nat
  type Day = nat

  /** Seconds. */
  type Instant = nat

  function DayOf(at: Instant): Day { at / 86400 }

  datatype Config = Config(cacheEnabled: bool, trackingEnabled: bool, platformLimit: int, userLimit: int)

  datatype Entry = Entry(content: Option<string>, data: map<string, string>, model: Option<string>)

  datatype CachedRow = CachedRow(entry: Entry, expires: Option<int>)

  datatype Scope = Platform | Of(user: User)

  datatype Counter = Counter(cost: nat, requests: nat, input: nat, output: nat)

  datatype Status = Succeeded | Failed | Blocked | Cached

  datatype Ledgered = Ledgered(
    kind: string, status: Status, user: Option<User>, provider: Option<string>,
    cost: nat, input: nat, output: nat, at: Instant)
  {
    function Date(): Day { DayOf(at) }
  }

  datatype Embedded = Embedded(day: Day, cost: nat)

  /** `embeddings` is a history of the embedding charges, which leave no ledger row. */
  datatype State = State(
    table: map<Key, CachedRow>, redis: map<Key, Entry>, counters: map<(Day, Scope), Counter>,
    ledger: seq<Ledgered>, embeddings: seq<Embedded>)

  datatype Request = Request(kind: string, key: Key, user: Option<User>, force: bool)

  datatype Completion = Completion(entry: Entry, provider: string, cost: nat, input: nat, output: nat)

  datatype Days = Days(check: Day, row: Instant, platform: Day, user: Day)

  /** What the surroundings do during one call; `crashes` is a process lost just before the commit. */
  datatype Env = Env(
    redisReads: bool, redisWrites: bool, providers: bool, tooLarge: bool,
    completion: Option<Completion>, crashes: bool, days: Days)

  datatype Outcome =
    | Served(entry: Entry, cost: nat, cached: bool)
    | BudgetExhausted | NoProvider | InputTooLarge | ProviderFailed | Crashed

  // ---- cache ------------------------------------------------------------------

  function Warm(s: State, key: Key, entry: Entry, env: Env): State {
    if env.redisWrites then s.(redis := s.redis[key := entry]) else s
  }

  function FromCache(cfg: Config, s: State, key: Key, env: Env): (State, Option<Entry>) {
    if !cfg.cacheEnabled then (s, None)
    else if env.redisReads && key in s.redis then (s, Some(s.redis[key]))
    else if key in s.table then (Warm(s, key, s.table[key].entry, env), Some(s.table[key].entry))
    else (s, None)
  }

  /** The insert loses to an existing row for the key, and then Redis is not warmed either. */
  function Store(s: State, key: Key, entry: Entry, env: Env): State {
    if key in s.table then s
    else Warm(s.(table := s.table[key := CachedRow(entry, None)]), key, entry, env)
  }

  // ---- budget -----------------------------------------------------------------

  function Spent(s: State, day: Day, scope: Scope): nat {
    if (day, scope) in s.counters then s.counters[(day, scope)].cost else 0
  }

  predicate CheckPasses(cfg: Config, s: State, day: Day, user: Option<User>) {
    !cfg.trackingEnabled ||
    (Spent(s, day, Platform) < cfg.platformLimit && (user.Some? ==> Spent(s, day, Of(user.value)) < cfg.userLimit))
  }

  function Increment(s: State, day: Day, scope: Scope, cost: nat, input: nat, output: nat): State {
    var row := if (day, scope) in s.counters then s.counters[(day, scope)] else Counter(0, 0, 0, 0);
    s.(counters := s.counters[(day, scope) :=
      Counter(row.cost + cost, row.requests + 1, row.input + input, row.output + output)])
  }

  function Record(cfg: Config, s: State, user: Option<User>, cost: nat, input: nat, output: nat, days: Days): (after: State)
    ensures after == s.(counters := after.counters)
  {
    if !cfg.trackingEnabled then s
    else
      var s1 := Increment(s, days.platform, Platform, cost, input, output);
      if user.None? then s1 else Increment(s1, days.user, Of(user.value), cost, input, output)
  }

  // ---- one generation ---------------------------------------------------------

  function Append(s: State, row: Ledgered): State {
    s.(ledger := s.ledger + [row])
  }

  /** A rolled-back transaction leaves only what was written to Redis meanwhile. */
  function Finish(before: State, after: State, outcome: Outcome, env: Env): (State, Outcome) {
    if env.crashes then (before.(redis := after.redis), Crashed) else (after, outcome)
  }

  function Completed(cfg: Config, s: State, request: Request, env: Env, c: Completion): State {
    var row := Ledgered(request.kind, Succeeded, request.user, Some(c.provider), c.cost, c.input, c.output, env.days.row);
    Store(Record(cfg, Append(s, row), request.user, c.cost, c.input, c.output, env.days), request.key, c.entry, env)
  }

  function Call(cfg: Config, s: State, request: Request, env: Env): (State, Outcome) {
    if !CheckPasses(cfg, s, env.days.check, request.user) then (s, BudgetExhausted)
    else if !env.providers then (s, NoProvider)
    else if env.tooLarge then (s, InputTooLarge)
    else
      match env.completion
      case None =>
        var row := Ledgered(request.kind, Failed, request.user, None, 0, 0, 0, env.days.row);
        Finish(s, Append(s, row), ProviderFailed, env)
      case Some(c) => Finish(s, Completed(cfg, s, request, env, c), Served(c.entry, c.cost, false), env)
  }

  function Generate(cfg: Config, s: State, request: Request, env: Env): (State, Outcome) {
    var (looked, hit) := if request.force then (s, None) else FromCache(cfg, s, request.key, env);
    match hit
    case Some(entry) =>
      var row := Ledgered(request.kind, Cached, request.user, None, 0, 0, 0, env.days.row);
      Finish(s, Append(looked, row), Served(entry, 0, true), env)
    case None => Call(cfg, looked, request, env)
  }

  // ---- everything that happens to the tables ----------------------------------

  datatype Event =
    | Generation(request: Request, env: Env)
    | Embedding(checkDay: Day, day: Day, cost: nat, input: nat, answered: bool)
    | Evict(keys: set<Key>)
    | PruneCache(now: int)
    | PruneBudgets(cutoff: Day)

  function Embed(cfg: Config, s: State, checkDay: Day, day: Day, cost: nat, input: nat, answered: bool): State {
    if !CheckPasses(cfg, s, checkDay, None) || !answered then s
    else
      var charged := Record(cfg, s, None, cost, input, 0, Days(checkDay, 0, day, day));
      charged.(embeddings := s.embeddings + [Embedded(day, cost)])
  }

  function Step(cfg: Config, s: State, e: Event): (State, Option<Outcome>) {
    match e
    case Generation(request, env) => var (after, outcome) := Generate(cfg, s, request, env); (after, Some(outcome))
    case Embedding(checkDay, day, cost, input, answered) => (Embed(cfg, s, checkDay, day, cost, input, answered), None)
    case Evict(keys) => (s.(redis := s.redis - keys), None)
    case PruneCache(now) =>
      (s.(table := map k | k in s.table && !(s.table[k].expires.Some? && s.table[k].expires.value < now) :: s.table[k]), None)
    case PruneBudgets(cutoff) =>
      (s.(counters := map k | k in s.counters && !(k.0 < cutoff && k.1.Of?) :: s.counters[k]), None)
  }

  function Empty(): State {
    State(map[], map[], map[], [], [])
  }

  function Run(cfg: Config, s: State, events: seq<Event>): State
    decreases events
  {
    if events == [] then s else Run(cfg, Step(cfg, s, events[0]).0, events[1..])
  }
}
