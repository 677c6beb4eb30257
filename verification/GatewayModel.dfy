/**
  The gateway's route choice and response cache. Requests overlap: each looks in the
  cache, is answered by its upstream, and stores the answer, with other requests,
  evictions and invalidations in between.
*/
module GatewayModel {
  import opened Options
  import opened Strings

  type Key = string

  datatype Caller = Anonymous | User(id: string)

  datatype Route = Route(prefix: string, requireAuth: bool, ttl: int, varyOnUser: bool, stream: bool)

  datatype Request = Request(verb: string, path: string, query: string, caller: Caller, noCache: bool)

  type Header = (string, string)

  /** Header names arrive lower-cased, in order, with repeats. */
  datatype Response = Response(status: int, headers: seq<Header>, body: string)

  datatype Cached = Cached(status: int, headers: map<string, string>, body: string)

  datatype Setup = Setup(routes: seq<Route>, enabled: bool, maxBody: int, digest: string -> Key)

  // ---- routes -----------------------------------------------------------------

  predicate Matches(r: Route, path: string) {
    path == r.prefix || r.prefix + "/" <= path
  }

  /** The longest matching prefix, the first of them in table order. */
  function Best(routes: seq<Route>, path: string): Option<Route> {
    if routes == [] then None
    else
      var n := |routes| - 1;
      var best := Best(routes[..n], path);
      if Matches(routes[n], path) && (best.None? || |routes[n].prefix| > |best.value.prefix|) then Some(routes[n]) else best
  }

  // ---- keys -------------------------------------------------------------------

  function Scope(route: Route, caller: Caller): Option<string> {
    match caller
    case Anonymous => Some("anon")
    case User(id) => if route.varyOnUser then Some("u:" + id) else None
  }

  function Material(verb: string, path: string, query: string, scope: string): string {
    verb + "\n" + path + "\n" + query + "\n" + scope
  }

  /** The cache key of a request, or None when it neither reads nor writes the cache. */
  function KeyOf(setup: Setup, req: Request): Option<Key> {
    var route := Best(setup.routes, req.path);
    if route.None? || route.value.ttl <= 0 || req.noCache || (req.verb != "GET" && req.verb != "HEAD") then None
    else match Scope(route.value, req.caller)
      case None => None
      case Some(scope) => Some(setup.digest(Material(req.verb, req.path, req.query, scope)))
  }

  // ---- what is stored ---------------------------------------------------------

  /** Later entries replace earlier ones of the same name. */
  function Dict(headers: seq<Header>): map<string, string> {
    if headers == [] then map[]
    else var n := |headers| - 1; Dict(headers[..n])[headers[n].0 := headers[n].1]
  }

  predicate Declines(cacheControl: string) {
    var value := Lower(cacheControl);
    Contains(value, "no-store") || Contains(value, "private")
  }

  predicate Storable(setup: Setup, r: Response) {
    var headers := Dict(r.headers);
    && setup.enabled
    && r.status in {200, 203, 404}
    && |r.body| <= setup.maxBody
    && "set-cookie" !in headers && "www-authenticate" !in headers
    && ("cache-control" in headers ==> !Declines(headers["cache-control"]))
  }

  function Kept(r: Response): Cached {
    Cached(r.status, Dict(r.headers) - {"x-request-id", "x-trace-id", "x-cache", "date"}, r.body)
  }

  // ---- overlapping requests ---------------------------------------------------

  datatype Exchange = Exchange(request: Request, response: Response)

  /** A stored response and which upstream answer it came from. */
  datatype Entry = Entry(cached: Cached, origin: nat)

  datatype Pending = Pending(request: Request, key: Option<Key>, answer: Option<nat>)

  datatype Hit = Hit(request: Request, entry: Entry)

  datatype State = State(entries: map<Key, Entry>, open: map<nat, Pending>, log: seq<Exchange>)

  datatype Step =
    | Begin(id: nat, request: Request, readable: bool)
    | Answer(id: nat, response: Response)
    | Finish(id: nat, writable: bool)
    | Evict(key: Key)
    /** The scan deletes the keys it reaches; a failure of Redis ends it and is swallowed. */
    | Invalidate(reached: set<Key>)

  predicate OneLine(s: string) { '\n' !in s }

  /** What the protocol guarantees of a request's query and caller; a decoded path may hold any character. */
  predicate Wellformed(req: Request) {
    OneLine(req.query) && (req.caller.User? ==> OneLine(req.caller.id))
  }

  predicate Admitted(setup: Setup, req: Request) {
    var route := Best(setup.routes, req.path);
    Wellformed(req) && route.Some? && (route.value.requireAuth ==> req.caller.User?)
  }

  predicate Enabled(setup: Setup, s: State, step: Step) {
    match step
    case Begin(id, req, _) => id !in s.open && Admitted(setup, req)
    case Answer(id, _) => id in s.open && s.open[id].answer.None?
    case Finish(id, _) => id in s.open && s.open[id].answer.Some? && s.open[id].answer.value < |s.log|
    case Evict(_) => true
    case Invalidate(_) => true
  }

  /** The cached response a request beginning now is given; an unreadable cache is a miss. */
  function Looked(setup: Setup, s: State, req: Request, readable: bool): Option<Hit> {
    var key := KeyOf(setup, req);
    if setup.enabled && readable && key.Some? && key.value in s.entries then Some(Hit(req, s.entries[key.value])) else None
  }

  function Streams(setup: Setup, req: Request): bool {
    var route := Best(setup.routes, req.path);
    route.Some? && route.value.stream
  }

  function Apply(setup: Setup, s: State, step: Step): State
    requires Enabled(setup, s, step)
  {
    match step
    case Begin(id, req, readable) =>
      if Looked(setup, s, req, readable).Some? then s
      else s.(open := s.open[id := Pending(req, KeyOf(setup, req), None)])
    case Answer(id, response) =>
      s.(log := s.log + [Exchange(s.open[id].request, response)], open := s.open[id := s.open[id].(answer := Some(|s.log|))])
    case Finish(id, writable) =>
      var p := s.open[id];
      var r := s.log[p.answer.value].response;
      var rest := s.(open := s.open - {id});
      if p.key.Some? && writable && !Streams(setup, p.request) && Storable(setup, r)
      then rest.(entries := s.entries[p.key.value := Entry(Kept(r), p.answer.value)])
      else rest
    case Evict(key) => s.(entries := s.entries - {key})
    case Invalidate(reached) => s.(entries := s.entries - reached)
  }

  function Initial(): State {
    State(map[], map[], [])
  }

  function Exec(setup: Setup, s: State, steps: seq<Step>): Option<State>
    decreases steps
  {
    if steps == [] then Some(s)
    else if Enabled(setup, s, steps[0]) then Exec(setup, Apply(setup, s, steps[0]), steps[1..])
    else None
  }
}
