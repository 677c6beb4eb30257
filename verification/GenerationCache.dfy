/**
  The Redis-plus-table cache refines a write-once map from keys to results: once a
  result is committed for a key, every later unforced generation returns it and costs
  nothing, through evictions, Redis failures, forced refreshes and prunes. This holds
  in exactly the runs in which no process is lost between warming Redis with a new
  result and committing it.
*/
module GenerationCache {
  import opened Options
  import opened Generation

  /** What Redis holds is what the table holds. */
  ghost predicate Coherent(s: State) {
    forall k <- s.redis :: k in s.table && s.redis[k] == s.table[k].entry
  }

  /** Stored results carry no expiry, so the cache prune matches none of them. */
  ghost predicate NeverExpires(s: State) {
    forall k <- s.table :: s.table[k].expires.None?
  }

  /** The abstract cache. */
  function Committed(s: State): map<Key, Entry> {
    map k | k in s.table :: s.table[k].entry
  }

  /** A new result reaches Redis, and then its transaction is lost. */
  predicate Torn(cfg: Config, s: State, e: Event) {
    && e.Generation? && e.env.crashes && e.env.completion.Some? && e.env.redisWrites
    && e.env.providers && !e.env.tooLarge
    && e.request.key !in s.table
    && (e.request.force || FromCache(cfg, s, e.request.key, e.env).1.None?)
    && CheckPasses(cfg, s, e.env.days.check, e.request.user)
  }

  ghost predicate Extends(s: State, after: State) {
    forall k <- s.table :: k in after.table && after.table[k] == s.table[k]
  }

  lemma GenerateExtends(cfg: Config, s: State, request: Request, env: Env)
    requires NeverExpires(s)
    ensures var after := Generate(cfg, s, request, env).0; NeverExpires(after) && Extends(s, after)
  {
    hide Record, CheckPasses;
  }

  /** Committed results are never lost or replaced. */
  lemma CommittedOnlyGrows(cfg: Config, s: State, e: Event)
    requires NeverExpires(s)
    ensures var after := Step(cfg, s, e).0; NeverExpires(after) && Extends(s, after)
  {
    hide Generate, Record, CheckPasses;
    match e
    case Generation(request, env) => GenerateExtends(cfg, s, request, env);
    case _ =>
  }

  lemma GenerateCoherence(cfg: Config, s: State, request: Request, env: Env)
    requires Coherent(s)
    ensures Coherent(Generate(cfg, s, request, env).0) <==> !Torn(cfg, s, Generation(request, env))
  {
    hide Record, CheckPasses;
    if Torn(cfg, s, Generation(request, env)) {
      var after := Generate(cfg, s, request, env).0;
      assert request.key in after.redis && request.key !in after.table;
    }
  }

  /** One step keeps the tiers coherent exactly when it is not a torn store. */
  lemma CoherenceBreaksExactlyWhenTorn(cfg: Config, s: State, e: Event)
    requires Coherent(s) && NeverExpires(s)
    ensures Coherent(Step(cfg, s, e).0) <==> !Torn(cfg, s, e)
  {
    hide Generate, Record, CheckPasses;
    match e
    case Generation(request, env) => GenerateCoherence(cfg, s, request, env);
    case _ =>
  }

  predicate Untorn(cfg: Config, s: State, events: seq<Event>)
    decreases events
  {
    events == [] || (!Torn(cfg, s, events[0]) && Untorn(cfg, Step(cfg, s, events[0]).0, events[1..]))
  }

  lemma {:induction false} RunStaysCoherent(cfg: Config, s: State, events: seq<Event>)
    requires Coherent(s) && NeverExpires(s) && Untorn(cfg, s, events)
    ensures var end := Run(cfg, s, events);
      Coherent(end) && NeverExpires(end) && Extends(s, end)
    decreases events
  {
    hide Step, Torn;
    if events != [] {
      CommittedOnlyGrows(cfg, s, events[0]);
      CoherenceBreaksExactlyWhenTorn(cfg, s, events[0]);
      RunStaysCoherent(cfg, Step(cfg, s, events[0]).0, events[1..]);
    }
  }

  /** A hit answers with the committed result, charges nothing, and is recorded as cached. */
  lemma HitServesCommitted(cfg: Config, s: State, request: Request, env: Env)
    requires cfg.cacheEnabled && Coherent(s) && request.key in s.table && !request.force && !env.crashes
    ensures var (after, outcome) := Generate(cfg, s, request, env);
      && outcome == Served(Committed(s)[request.key], 0, true)
      && after.counters == s.counters && after.table == s.table && after.embeddings == s.embeddings
      && |after.ledger| == |s.ledger| + 1 && after.ledger[..|s.ledger|] == s.ledger
      && after.ledger[|s.ledger|].status.Cached? && after.ledger[|s.ledger|].cost == 0
  {
  }

  /**
    From the first commit of a result for a key on, every unforced generation of that
    key returns that result at zero cost, whatever happened in between, even with the
    budget exhausted or no provider available.
  */
  lemma CommittedResultIsServedForever(cfg: Config, before: seq<Event>, between: seq<Event>, request: Request, env: Env)
    requires cfg.cacheEnabled && !request.force && !env.crashes
    requires Untorn(cfg, Empty(), before) && Untorn(cfg, Run(cfg, Empty(), before), between)
    requires request.key in Run(cfg, Empty(), before).table
    ensures var stored := Run(cfg, Empty(), before);
      var now := Run(cfg, stored, between);
      var (after, outcome) := Generate(cfg, now, request, env);
      outcome == Served(Committed(stored)[request.key], 0, true) && after.counters == now.counters
  {
    RunStaysCoherent(cfg, Empty(), before);
    RunStaysCoherent(cfg, Run(cfg, Empty(), before), between);
    HitServesCommitted(cfg, Run(cfg, Run(cfg, Empty(), before), between), request, env);
  }

  /** A completed generation that is not lost commits its result, unless one was committed before. */
  lemma CompletionCommits(cfg: Config, s: State, request: Request, env: Env)
    requires NeverExpires(s)
    ensures var (after, outcome) := Generate(cfg, s, request, env);
      outcome.Served? && !outcome.cached ==>
        request.key in after.table &&
        after.table[request.key].entry == if request.key in s.table then s.table[request.key].entry else outcome.entry
  {
  }

  /**
    What a torn store leads to: its result is served from Redis though it was never
    committed, and after an eviction a different result is served, and committed, for
    the same key.
  */
  lemma TornStoreServesTwoResults(cfg: Config, s: State, request: Request, env: Env, second: Completion)
    requires cfg.cacheEnabled && !request.force && Torn(cfg, s, Generation(request, env))
    requires second.entry != env.completion.value.entry
    ensures var first := env.completion.value.entry;
      var calm := env.(crashes := false, redisReads := true, completion := Some(second));
      var s1 := Generate(cfg, s, request, env).0;
      var (s2, o2) := Generate(cfg, s1, request, calm);
      var (s3, o3) := Generate(cfg, Step(cfg, s2, Evict({request.key})).0, request, calm);
      && o2 == Served(first, 0, true) && request.key !in s2.table
      && o3 == Served(second.entry, second.cost, false) && Committed(s3)[request.key] == second.entry != first
  {
  }
}
