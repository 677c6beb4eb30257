/**
  Every cache hit repeats an earlier upstream answer to the same question from the same
  caller, and exactly which invalidations hits can lag behind.
*/
module GatewaySafety {
  import opened Options
  import opened GatewayModel

  // ---- routes -----------------------------------------------------------------

  predicate Distinct(routes: seq<Route>) {
    forall i, j :: 0 <= i < j < |routes| ==> routes[i].prefix != routes[j].prefix
  }

  /** The route chosen matches and no matching prefix in the table is longer. */
  lemma {:induction false} BestIsLongest(routes: seq<Route>, path: string)
    ensures var best := Best(routes, path);
      && (best.Some? ==> best.value in routes && Matches(best.value, path))
      && (forall r <- routes :: Matches(r, path) ==> best.Some? && |r.prefix| <= |best.value.prefix|)
  {
    if routes != [] {
      var n := |routes| - 1;
      BestIsLongest(routes[..n], path);
      assert routes == routes[..n] + [routes[n]];
    }
  }

  /** With distinct prefixes the choice does not depend on the order of the table. */
  lemma OrderDoesNotMatter(routes: seq<Route>, reordered: seq<Route>, path: string)
    requires Distinct(routes) && (forall r :: r in routes <==> r in reordered)
    ensures Best(routes, path) == Best(reordered, path)
  {
    BestIsLongest(routes, path);
    BestIsLongest(reordered, path);
    var a, b := Best(routes, path), Best(reordered, path);
    if a.Some? && b.Some? {
      assert |a.value.prefix| == |b.value.prefix|;
      assert a.value.prefix == path[..|a.value.prefix|] == b.value.prefix;
    }
  }

  // ---- keys -------------------------------------------------------------------

  ghost predicate Injective(digest: string -> Key) {
    forall a, b :: digest(a) == digest(b) ==> a == b
  }

  lemma {:induction false} FirstLineIsUnique(a: string, x: string, b: string, y: string)
    requires OneLine(a) && OneLine(b) && a + "\n" + x == b + "\n" + y
    ensures a == b && x == y
  {
    if a == "" || b == "" {
      assert (a + "\n" + x)[0] == (b + "\n" + y)[0];
      assert a == "" == b;
      assert (a + "\n" + x)[1..] == x && (b + "\n" + y)[1..] == y;
    } else {
      assert (a + "\n" + x)[0] == a[0] && (b + "\n" + y)[0] == b[0];
      assert (a + "\n" + x)[1..] == a[1..] + "\n" + x && (b + "\n" + y)[1..] == b[1..] + "\n" + y;
      FirstLineIsUnique(a[1..], x, b[1..], y);
    }
  }

  lemma {:induction false} LastLineIsUnique(x: string, a: string, y: string, b: string)
    requires OneLine(a) && OneLine(b) && x + "\n" + a == y + "\n" + b
    ensures a == b && x == y
    decreases a
  {
    var s, t := x + "\n" + a, y + "\n" + b;
    if a == "" || b == "" {
      assert s[|s| - 1] == t[|t| - 1];
      assert a == "" == b;
      assert s[..|s| - 1] == x && t[..|t| - 1] == y;
    } else {
      var m, n := |a| - 1, |b| - 1;
      assert s[|s| - 1] == a[m] && t[|t| - 1] == b[n];
      assert s[..|s| - 1] == x + "\n" + a[..m] && t[..|t| - 1] == y + "\n" + b[..n];
      LastLineIsUnique(x, a[..m], y, b[..n]);
    }
  }

  /** The four parts can be read back from the key material although the path may hold line breaks. */
  lemma MaterialIsUnambiguous(m: string, p: string, q: string, s: string, m': string, p': string, q': string, s': string)
    requires OneLine(m) && OneLine(q) && OneLine(s) && OneLine(m') && OneLine(q') && OneLine(s')
    requires Material(m, p, q, s) == Material(m', p', q', s')
    ensures m == m' && p == p' && q == q' && s == s'
  {
    LastLineIsUnique(m + "\n" + p + "\n" + q, s, m' + "\n" + p' + "\n" + q', s');
    LastLineIsUnique(m + "\n" + p, q, m' + "\n" + p', q');
    FirstLineIsUnique(m, p, m', p');
  }

  lemma ScopeNamesCaller(route: Route, c: Caller, d: Caller)
    requires Scope(route, c).Some? && Scope(route, c) == Scope(route, d)
    ensures c == d
  {
    assert "anon"[0] == 'a';
    assert c.User? ==> ("u:" + c.id)[0] == 'u';
    assert d.User? ==> ("u:" + d.id)[0] == 'u';
    if c.User? && d.User? {
      assert ("u:" + c.id)[2..] == c.id && ("u:" + d.id)[2..] == d.id;
    }
  }

  /** Same method, path, query and caller. */
  predicate SameQuestion(a: Request, b: Request) {
    a.verb == b.verb && a.path == b.path && a.query == b.query && a.caller == b.caller
  }

  lemma KeysAskTheSame(setup: Setup, a: Request, b: Request)
    requires Injective(setup.digest) && Wellformed(a) && Wellformed(b)
    requires KeyOf(setup, a).Some? && KeyOf(setup, a) == KeyOf(setup, b)
    ensures SameQuestion(a, b)
  {
    hide Material, Best;
    var ra, rb := Best(setup.routes, a.path).value, Best(setup.routes, b.path).value;
    MaterialIsUnambiguous(a.verb, a.path, a.query, Scope(ra, a.caller).value, b.verb, b.path, b.query, Scope(rb, b.caller).value);
    ScopeNamesCaller(ra, a.caller, b.caller);
  }

  // ---- every hit repeats an answer --------------------------------------------

  /** A stored response is the answer it came from, to a request with its key. */
  ghost predicate FromLog(setup: Setup, s: State, key: Key) {
    key in s.entries &&
    var e := s.entries[key];
    && e.origin < |s.log| && KeyOf(setup, s.log[e.origin].request) == Some(key) && Admitted(setup, s.log[e.origin].request)
    && Storable(setup, s.log[e.origin].response) && e.cached == Kept(s.log[e.origin].response)
  }

  ghost predicate Answered(setup: Setup, s: State, id: nat) {
    id in s.open &&
    var p := s.open[id];
    && Admitted(setup, p.request) && p.key == KeyOf(setup, p.request)
    && (p.answer.Some? ==> p.answer.value < |s.log| && s.log[p.answer.value].request == p.request)
  }

  ghost predicate Inv(setup: Setup, s: State) {
    && (forall key <- s.entries :: FromLog(setup, s, key))
    && (forall id <- s.open :: Answered(setup, s, id))
  }

  lemma StepKeepsInv(setup: Setup, s: State, step: Step)
    requires Inv(setup, s) && Enabled(setup, s, step)
    ensures Inv(setup, Apply(setup, s, step))
  {
    hide KeyOf, Storable, Kept, Best, Streams, Admitted;
  }

  lemma {:induction false} RunKeepsInv(setup: Setup, s: State, steps: seq<Step>)
    requires Inv(setup, s) && Exec(setup, s, steps).Some?
    ensures Inv(setup, Exec(setup, s, steps).value)
    decreases steps
  {
    hide Inv, Apply, Enabled;
    if steps != [] {
      StepKeepsInv(setup, s, steps[0]);
      RunKeepsInv(setup, Apply(setup, s, steps[0]), steps[1..]);
    }
  }

  lemma {:induction false} DictHas(headers: seq<Header>, name: string)
    ensures name in Dict(headers) <==> exists h <- headers :: h.0 == name
  {
    if headers != [] {
      var n := |headers| - 1;
      DictHas(headers[..n], name);
      assert headers == headers[..n] + [headers[n]];
    }
  }

  /**
    In every run a hit gives the status and body of an earlier upstream answer to a
    request with the same method, path, query and caller, and that answer set no cookie.
  */
  lemma HitRepeatsAnswer(setup: Setup, steps: seq<Step>, req: Request, readable: bool)
    requires Injective(setup.digest) && Exec(setup, Initial(), steps).Some? && Admitted(setup, req)
    ensures var s := Exec(setup, Initial(), steps).value;
      var hit := Looked(setup, s, req, readable);
      hit.Some? ==>
        && hit.value.entry.origin < |s.log|
        && var x := s.log[hit.value.entry.origin];
        && SameQuestion(x.request, req)
        && hit.value.entry.cached.status == x.response.status && hit.value.entry.cached.body == x.response.body
        && "set-cookie" !in hit.value.entry.cached.headers && (forall h <- x.response.headers :: h.0 != "set-cookie")
  {
    hide Exec, KeyOf, Dict;
    RunKeepsInv(setup, Initial(), steps);
    var s := Exec(setup, Initial(), steps).value;
    var hit := Looked(setup, s, req, readable);
    if hit.Some? {
      var key := KeyOf(setup, req).value;
      assert FromLog(setup, s, key);
      var x := s.log[hit.value.entry.origin];
      KeysAskTheSame(setup, x.request, req);
      DictHas(x.response.headers, "set-cookie");
    }
  }

  // ---- opting out -------------------------------------------------------------

  predicate OptsOut(r: Response) {
    exists h <- r.headers :: h.0 == "cache-control" && Declines(h.1)
  }

  /** Nothing but a cache-control header could keep the response out of the cache. */
  predicate OtherwiseStorable(setup: Setup, r: Response) {
    && setup.enabled && r.status in {200, 203, 404} && |r.body| <= setup.maxBody
    && forall h <- r.headers :: h.0 != "set-cookie" && h.0 != "www-authenticate"
  }

  /** Header number i is the last of its name. */
  predicate LastOfItsName(headers: seq<Header>, i: nat) {
    i < |headers| && forall j :: i < j < |headers| ==> headers[j].0 != headers[i].0
  }

  lemma {:induction false} LastValueIsKept(headers: seq<Header>, i: nat)
    requires LastOfItsName(headers, i)
    ensures headers[i].0 in Dict(headers) && Dict(headers)[headers[i].0] == headers[i].1
    decreases |headers|
  {
    var n := |headers| - 1;
    if i < n { LastValueIsKept(headers[..n], i); }
  }

  lemma {:induction false} SomeIsLast(headers: seq<Header>, name: string) returns (i: nat)
    requires exists h <- headers :: h.0 == name
    ensures LastOfItsName(headers, i) && headers[i].0 == name
    decreases |headers|
  {
    var n := |headers| - 1;
    assert headers == headers[..n] + [headers[n]];
    if headers[n].0 == name { i := n; } else { i := SomeIsLast(headers[..n], name); }
  }

  /**
    An otherwise storable response whose upstream wishes it not to be stored is stored
    all the same exactly when its last cache-control header does not say so.
  */
  lemma OptOutIsOverlookedExactly(setup: Setup, r: Response) returns (i: nat)
    requires OtherwiseStorable(setup, r) && OptsOut(r)
    ensures LastOfItsName(r.headers, i) && r.headers[i].0 == "cache-control"
    ensures Storable(setup, r) <==> !Declines(r.headers[i].1)
  {
    hide Declines, Dict;
    i := SomeIsLast(r.headers, "cache-control");
    LastValueIsKept(r.headers, i);
    DictHas(r.headers, "set-cookie");
    DictHas(r.headers, "www-authenticate");
  }

  // ---- invalidation -----------------------------------------------------------

  /** An open request has an answer that will be stored when Redis takes it. */
  predicate AwaitsStore(setup: Setup, s: State, id: nat) {
    id in s.open && s.open[id].key.Some? && s.open[id].answer.Some? && s.open[id].answer.value < |s.log|
    && !Streams(setup, s.open[id].request) && Storable(setup, s.log[s.open[id].answer.value].response)
  }

  /** No hit of the run comes from one of the first `mark` answers. */
  predicate HitsSince(setup: Setup, mark: nat, s: State, steps: seq<Step>)
    decreases steps
  {
    steps == [] || (Enabled(setup, s, steps[0]) ==>
      && (steps[0].Begin? ==>
        var hit := Looked(setup, s, steps[0].request, steps[0].readable);
        hit.Some? ==> mark <= hit.value.entry.origin)
      && HitsSince(setup, mark, Apply(setup, s, steps[0]), steps[1..]))
  }

  /** Nothing answered before the invalidation is served after it, whatever follows. */
  ghost predicate TakesEffect(setup: Setup, s: State, reached: set<Key>) {
    forall steps :: HitsSince(setup, |s.log|, Apply(setup, s, Invalidate(reached)), steps)
  }

  /** What is stored, or still to be stored, was answered from `mark` on. */
  ghost predicate Since(setup: Setup, s: State, mark: nat) {
    && mark <= |s.log|
    && (forall key <- s.entries :: mark <= s.entries[key].origin)
    && (forall id <- s.open :: AwaitsStore(setup, s, id) ==> mark <= s.open[id].answer.value)
  }

  lemma StepKeepsSince(setup: Setup, s: State, step: Step, mark: nat)
    requires Inv(setup, s) && Since(setup, s, mark) && Enabled(setup, s, step)
    ensures Since(setup, Apply(setup, s, step), mark)
  {
    hide KeyOf, Storable, Kept, Best, Streams, Admitted;
    var after := Apply(setup, s, step);
    forall id <- after.open | AwaitsStore(setup, after, id) ensures mark <= after.open[id].answer.value {
      assert id in s.open ==> Answered(setup, s, id);
      assert id in s.open && after.open[id] == s.open[id] ==> AwaitsStore(setup, s, id);
    }
  }

  lemma {:induction false} SinceHits(setup: Setup, s: State, mark: nat, steps: seq<Step>)
    requires Inv(setup, s) && Since(setup, s, mark)
    ensures HitsSince(setup, mark, s, steps)
    decreases steps
  {
    if steps != [] && Enabled(setup, s, steps[0]) {
      hide Inv, Apply, Enabled, KeyOf;
      StepKeepsInv(setup, s, steps[0]);
      StepKeepsSince(setup, s, steps[0], mark);
      SinceHits(setup, Apply(setup, s, steps[0]), mark, steps[1..]);
    }
  }

  lemma FreshId(s: State) returns (id: nat)
    ensures id !in s.open
  {
    id := Above(s.open.Keys);
  }

  lemma {:induction false} Above(ids: set<nat>) returns (top: nat)
    ensures forall i <- ids :: i < top
  {
    if ids == {} {
      top := 0;
    } else {
      var i :| i in ids;
      var rest := Above(ids - {i});
      assert ids == ids - {i} + {i};
      top := if i < rest then rest else i + 1;
    }
  }

  /** An entry the scan did not reach is hit by a repetition of the request it was stored for. */
  lemma LeftBehind(setup: Setup, s: State, reached: set<Key>, key: Key) returns (steps: seq<Step>)
    requires Inv(setup, s) && key in s.entries && key !in reached
    ensures !HitsSince(setup, |s.log|, Apply(setup, s, Invalidate(reached)), steps)
  {
    var id := FreshId(s);
    assert FromLog(setup, s, key);
    steps := [Begin(id, s.log[s.entries[key].origin].request, true)];
  }

  /** An answer that was waiting is stored after the invalidation and hit by a repetition of its request. */
  lemma StoredTooLate(setup: Setup, s: State, reached: set<Key>, id: nat) returns (steps: seq<Step>)
    requires Inv(setup, s) && AwaitsStore(setup, s, id)
    ensures !HitsSince(setup, |s.log|, Apply(setup, s, Invalidate(reached)), steps)
  {
    hide KeyOf, Best, Kept, Streams, Admitted;
    assert Answered(setup, s, id);
    var p := s.open[id];
    var begin := Begin(id, p.request, true);
    steps := [Finish(id, true), begin];
    var s1 := Apply(setup, s, Invalidate(reached));
    var s2 := Apply(setup, s1, Finish(id, true));
    assert Enabled(setup, s1, Finish(id, true)) && steps[1..] == [begin];
    assert s2.entries[p.key.value] == Entry(Kept(s.log[p.answer.value].response), p.answer.value);
    assert Enabled(setup, s2, begin) && Looked(setup, s2, p.request, true) == Some(Hit(p.request, s2.entries[p.key.value]));
    assert !HitsSince(setup, |s.log|, s2, [begin]);
  }

  /**
    In every reachable state an invalidation takes effect if and only if its scan
    reached every entry and no received answer is still to be stored.
  */
  lemma InvalidationTakesEffectExactly(setup: Setup, s: State, reached: set<Key>)
    requires Inv(setup, s)
    ensures TakesEffect(setup, s, reached) <==> s.entries.Keys <= reached && forall id <- s.open :: !AwaitsStore(setup, s, id)
  {
    hide AwaitsStore, HitsSince;
    var after := Apply(setup, s, Invalidate(reached));
    if key :| key in s.entries && key !in reached {
      var steps := LeftBehind(setup, s, reached, key);
    } else if id :| id in s.open && AwaitsStore(setup, s, id) {
      var steps := StoredTooLate(setup, s, reached, id);
    } else {
      forall steps ensures HitsSince(setup, |s.log|, after, steps) {
        StepKeepsInv(setup, s, Invalidate(reached));
        NothingAwaits(setup, s, reached);
        SinceHits(setup, after, |s.log|, steps);
      }
    }
  }

  lemma NothingAwaits(setup: Setup, s: State, reached: set<Key>)
    requires s.entries.Keys <= reached && forall id <- s.open :: !AwaitsStore(setup, s, id)
    ensures Since(setup, Apply(setup, s, Invalidate(reached)), |s.log|)
  {
    hide Storable, Streams;
    var after := Apply(setup, s, Invalidate(reached));
    forall id <- after.open ensures !AwaitsStore(setup, after, id) { assert !AwaitsStore(setup, s, id); }
  }
}
