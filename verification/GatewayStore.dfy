/** Exactly what is cached, under which question, and how long it is served. */
module GatewayStore {
  import opened Options
  import opened Strings
  import opened GatewayModel
  import opened GatewaySafety

  /** The response has a header of this name. */
  predicate Has(headers: seq<Header>, name: string) { exists h <- headers :: h.0 == name }

  /** The last header of the name says this. */
  predicate Says(headers: seq<Header>, name: string, value: string) {
    exists i :: 0 <= i < |headers| && headers[i] == (name, value) && LastOfItsName(headers, i)
  }

  lemma DictSays(headers: seq<Header>, name: string, value: string)
    ensures name in Dict(headers) && Dict(headers)[name] == value <==> Says(headers, name, value)
  {
    DictHas(headers, name);
    if name in Dict(headers) {
      var i := SomeIsLast(headers, name);
      LastValueIsKept(headers, i);
    }
    if Says(headers, name, value) {
      var i :| 0 <= i < |headers| && headers[i] == (name, value) && LastOfItsName(headers, i);
      LastValueIsKept(headers, i);
    }
  }

  /** One of the two words, in any case. */
  predicate Forbids(value: string) { Contains(Lower(value), "private") || Contains(Lower(value), "no-store") }

  /** A response may be cached if and only if it is of a cacheable status and size, sets no cookie, asks for no sign-in, and does not decline. */
  lemma StorableExactly(setup: Setup, r: Response)
    ensures Storable(setup, r) <==>
      && setup.enabled && (r.status == 200 || r.status == 203 || r.status == 404) && |r.body| <= setup.maxBody
      && !Has(r.headers, "set-cookie") && !Has(r.headers, "www-authenticate")
      && !exists value :: Says(r.headers, "cache-control", value) && Forbids(value)
  {
    hide Contains, Lower, Dict, Says;
    DictHas(r.headers, "set-cookie");
    DictHas(r.headers, "www-authenticate");
    var headers := Dict(r.headers);
    if "cache-control" in headers { DictSays(r.headers, "cache-control", headers["cache-control"]); }
    forall value | Says(r.headers, "cache-control", value)
      ensures "cache-control" in headers && headers["cache-control"] == value
    {
      DictSays(r.headers, "cache-control", value);
    }
  }

  /** The stored copy has the status, the body, and of each header but the four that are made afresh the last value. */
  lemma KeptExactly(r: Response, name: string, value: string)
    ensures var c := Kept(r);
      && c.status == r.status && c.body == r.body
      && (name in c.headers && c.headers[name] == value <==>
        Says(r.headers, name, value)
        && name != "x-request-id" && name != "x-trace-id" && name != "x-cache" && name != "date")
  {
    DictSays(r.headers, name, value);
  }

  /** A request takes part in caching if and only if its route caches, it reads, it does not ask for a fresh answer, and it is anonymous or its route varies by user. */
  lemma KeyedExactly(setup: Setup, req: Request)
    ensures KeyOf(setup, req).Some? <==>
      && Best(setup.routes, req.path).Some? && 0 < Best(setup.routes, req.path).value.ttl
      && (req.verb == "GET" || req.verb == "HEAD") && !req.noCache
      && (req.caller == Anonymous || Best(setup.routes, req.path).value.varyOnUser)
  {
    hide Best, Material;
  }

  /** Two requests that take part have one key if and only if they ask the same. */
  lemma SameKeyExactly(setup: Setup, a: Request, b: Request)
    requires Injective(setup.digest) && Wellformed(a) && Wellformed(b) && KeyOf(setup, a).Some? && KeyOf(setup, b).Some?
    ensures KeyOf(setup, a) == KeyOf(setup, b) <==> SameQuestion(a, b)
  {
    hide Injective;
    if KeyOf(setup, a) == KeyOf(setup, b) { KeysAskTheSame(setup, a, b); }
  }

  /** The step replaces or removes the entry. */
  predicate Disturbs(setup: Setup, s: State, step: Step, key: Key) {
    match step
    case Finish(id, writable) => writable && id in s.open && s.open[id].key == Some(key)
    case Evict(k) => k == key
    case Invalidate(reached) => key in reached
    case _ => false
  }

  predicate Undisturbed(setup: Setup, s: State, steps: seq<Step>, key: Key)
    decreases steps
  {
    steps == [] || (Enabled(setup, s, steps[0]) ==>
      !Disturbs(setup, s, steps[0], key) && Undisturbed(setup, Apply(setup, s, steps[0]), steps[1..], key))
  }

  lemma StepKeepsEntry(setup: Setup, s: State, step: Step, key: Key)
    requires Enabled(setup, s, step) && key in s.entries && !Disturbs(setup, s, step, key)
    ensures key in Apply(setup, s, step).entries && Apply(setup, s, step).entries[key] == s.entries[key]
  {
    hide Best, Storable, Kept;
  }

  lemma {:induction false} EntryStays(setup: Setup, s: State, steps: seq<Step>, key: Key)
    requires key in s.entries && Undisturbed(setup, s, steps, key) && Exec(setup, s, steps).Some?
    ensures var end := Exec(setup, s, steps).value; key in end.entries && end.entries[key] == s.entries[key]
    decreases steps
  {
    hide Apply, Enabled, Disturbs;
    if steps != [] {
      StepKeepsEntry(setup, s, steps[0], key);
      EntryStays(setup, Apply(setup, s, steps[0]), steps[1..], key);
    }
  }

  /** A finished request leaves its answer in the cache if and only if it takes part, Redis takes it, its route does not stream and the answer may be cached. */
  lemma FinishStoresExactly(setup: Setup, s: State, id: nat, writable: bool)
    requires Inv(setup, s) && Enabled(setup, s, Finish(id, writable))
    ensures var p, after := s.open[id], Apply(setup, s, Finish(id, writable));
      var r, route := s.log[p.answer.value].response, Best(setup.routes, p.request.path);
      && after.open == s.open - {id} && after.log == s.log && route.Some?
      && if KeyOf(setup, p.request).Some? && writable && !route.value.stream && Storable(setup, r)
         then after.entries == s.entries[KeyOf(setup, p.request).value := Entry(Kept(r), p.answer.value)]
         else after.entries == s.entries
  {
    hide Best, Storable, Kept, KeyOf;
    assert Answered(setup, s, id);
  }

  /**
    Once an answer is stored, the same question is given it, from any state reached
    without disturbing the entry, and is not sent on.
  */
  lemma RepeatedQuestionIsHit(setup: Setup, s: State, id: nat, steps: seq<Step>, req: Request, again: nat)
    requires Inv(setup, s) && Enabled(setup, s, Finish(id, true)) && KeyOf(setup, s.open[id].request).Some?
    requires !Streams(setup, s.open[id].request) && Storable(setup, s.log[s.open[id].answer.value].response)
    requires Exec(setup, Apply(setup, s, Finish(id, true)), steps).Some?
    requires Undisturbed(setup, Apply(setup, s, Finish(id, true)), steps, KeyOf(setup, s.open[id].request).value)
    requires SameQuestion(req, s.open[id].request) && !req.noCache && Admitted(setup, req)
    ensures var end := Exec(setup, Apply(setup, s, Finish(id, true)), steps).value;
      var hit := Looked(setup, end, req, true);
      && hit.Some? && hit.value.entry == Entry(Kept(s.log[s.open[id].answer.value].response), s.open[id].answer.value)
      && hit.value.request == req
      && (again !in end.open ==> Apply(setup, end, Begin(again, req, true)) == end)
  {
    hide Exec, Undisturbed, Best, Kept, Material;
    assert Answered(setup, s, id);
    var key := KeyOf(setup, s.open[id].request).value;
    var stored := Apply(setup, s, Finish(id, true));
    EntryStays(setup, stored, steps, key);
    assert KeyOf(setup, req) == Some(key);
  }

  /** An unreadable or disabled cache, or a question without an entry, is sent on. */
  lemma MissIsSentOnExactly(setup: Setup, s: State, req: Request, readable: bool, id: nat)
    requires Enabled(setup, s, Begin(id, req, readable))
    ensures var key := KeyOf(setup, req);
      var served := setup.enabled && readable && key.Some? && key.value in s.entries;
      Apply(setup, s, Begin(id, req, readable)) == if served then s else s.(open := s.open[id := Pending(req, key, None)])
  {
    hide Best, KeyOf;
  }

  /** A request is admitted if and only if a route matches its path, and a route that requires a caller has one. */
  lemma AdmittedExactly(setup: Setup, req: Request)
    requires Wellformed(req)
    ensures Admitted(setup, req) <==>
      && (exists r <- setup.routes :: Matches(r, req.path))
      && (Best(setup.routes, req.path).Some? && Best(setup.routes, req.path).value.requireAuth ==> req.caller != Anonymous)
  {
    BestIsLongest(setup.routes, req.path);
  }

  /** A prefix matches a path if and only if it is the path or is followed in it by a slash. */
  lemma MatchesExactly(r: Route, path: string)
    ensures Matches(r, path) <==>
      |r.prefix| <= |path| && path[..|r.prefix|] == r.prefix && (|path| == |r.prefix| || path[|r.prefix|] == '/')
  {
    if r.prefix + "/" <= path {
      assert path[..|r.prefix|] == (r.prefix + "/")[..|r.prefix|] && path[|r.prefix|] == (r.prefix + "/")[|r.prefix|];
    }
    if |r.prefix| < |path| && path[..|r.prefix|] == r.prefix && path[|r.prefix|] == '/' {
      assert r.prefix + "/" == path[..|r.prefix| + 1];
    }
  }

  /** Of the longest matching routes the first in the table is chosen. */
  lemma {:induction false} FirstOfTheLongest(routes: seq<Route>, path: string) returns (i: nat)
    requires Best(routes, path).Some?
    ensures i < |routes| && routes[i] == Best(routes, path).value && Matches(routes[i], path)
    ensures forall j :: 0 <= j < i && Matches(routes[j], path) ==> |routes[j].prefix| < |routes[i].prefix|
    ensures forall j :: i < j < |routes| && Matches(routes[j], path) ==> |routes[j].prefix| <= |routes[i].prefix|
    decreases |routes|
  {
    var n := |routes| - 1;
    if Best(routes[..n], path).Some? {
      var k := FirstOfTheLongest(routes[..n], path);
      assert forall j :: 0 <= j < n ==> routes[..n][j] == routes[j];
      i := if Best(routes, path) == Best(routes[..n], path)
        && !(Matches(routes[n], path) && |routes[n].prefix| > |routes[k].prefix|) then k else n;
    } else {
      BestIsLongest(routes[..n], path);
      assert forall j :: 0 <= j < n ==> routes[j] in routes[..n];
      i := n;
    }
  }

  /** An answer is taken by exactly the open requests without one, and is the next of the log. */
  lemma AnsweredExactly(setup: Setup, s: State, id: nat, response: Response)
    ensures Enabled(setup, s, Answer(id, response)) <==> id in s.open && s.open[id].answer == None
    ensures Enabled(setup, s, Answer(id, response)) ==>
      var after := Apply(setup, s, Answer(id, response));
      && after.log == s.log + [Exchange(s.open[id].request, response)] && after.entries == s.entries
      && after.open == s.open[id := s.open[id].(answer := Some(|s.log|))]
  {
  }

  /** A request that misses, is answered and finishes runs through, and the same question then hits. */
  lemma WholeRequestThenHit(setup: Setup, s: State, id: nat, req: Request, response: Response)
    requires Inv(setup, s) && id !in s.open && Admitted(setup, req) && KeyOf(setup, req).Some? && KeyOf(setup, req).value !in s.entries
    requires !Streams(setup, req) && Storable(setup, response)
    ensures var key := KeyOf(setup, req).value;
      var steps := [Begin(id, req, true), Answer(id, response), Finish(id, true)];
      var end := Exec(setup, s, steps);
      && end.Some? && end.value.open == s.open && end.value.log == s.log + [Exchange(req, response)]
      && end.value.entries == s.entries[key := Entry(Kept(response), |s.log|)]
      && Looked(setup, end.value, req, true) == Some(Hit(req, Entry(Kept(response), |s.log|)))
  {
    hide Best, Kept, Storable, Streams, KeyOf, Admitted;
    var begin, answer, finish := Begin(id, req, true), Answer(id, response), Finish(id, true);
    var s1 := Apply(setup, s, begin);
    var s2 := Apply(setup, s1, answer);
    var s3 := Apply(setup, s2, finish);
    assert [begin, answer, finish][1..] == [answer, finish] && [answer, finish][1..] == [finish] && [finish][1..] == [];
    assert setup.enabled by { StorableExactly(setup, response); }
    assert Exec(setup, s3, []) == Some(s3);
    assert Exec(setup, s2, [finish]) == Some(s3);
    assert Exec(setup, s1, [answer, finish]) == Some(s3);
    assert s3.open == s.open;
  }

  /** An eviction takes its key and nothing else, whenever it comes; so does an invalidation with the keys it reaches. */
  lemma EvictedExactly(setup: Setup, s: State, key: Key, reached: set<Key>, other: Key)
    ensures Enabled(setup, s, Evict(key)) && Enabled(setup, s, Invalidate(reached))
    ensures var after := Apply(setup, s, Evict(key));
      after == s.(entries := after.entries) && (other in after.entries <==> other in s.entries && other != key)
    ensures var after := Apply(setup, s, Invalidate(reached));
      after == s.(entries := after.entries) && (other in after.entries <==> other in s.entries && other !in reached)
  {
  }
}
