/**
  The gateway serving one request at a time: route choice, cache lookup, forwarding, and
  storing, over the cached entries it updates in place.
*/
module GatewayService {
  import opened Arith
  import opened Options
  import opened GatewayModel
  import opened GatewaySafety

  /** What a caller is given. */
  datatype Reply = Reply(status: int, body: string, hit: bool) | NoRoute | TokenRequired

  /** Answer number i is to the same question, with this status and body. */
  predicate Repeats(log: seq<Exchange>, i: nat, req: Request, status: int, body: string) {
    i < |log| && SameQuestion(log[i].request, req) && log[i].response.status == status && log[i].response.body == body
  }

  class Gateway {
    const setup: Setup
    var entries: map<Key, Cached>
    ghost var origins: map<Key, nat>
    ghost var log: seq<Exchange>

    ghost function View(): State
      reads this
    {
      Joined(entries, origins, log)
    }

    ghost predicate Valid()
      reads this
    {
      origins.Keys == entries.Keys && Inv(setup, View())
    }

    constructor (setup: Setup)
      ensures Valid() && this.setup == setup && View() == Initial()
    {
      this.setup := setup;
      entries, origins, log := map[], map[], [];
    }

    /** The longest matching prefix. */
    method Resolve(path: string) returns (best: Option<Route>)
      ensures best == Best(setup.routes, path)
    {
      best := None;
      for i := 0 to |setup.routes|
        invariant best == Best(setup.routes[..i], path)
      {
        var route := setup.routes[i];
        assert setup.routes[..i + 1][..i] == setup.routes[..i];
        var matches := path == route.prefix || route.prefix + "/" <= path;
        if matches && (best.None? || |route.prefix| > |best.value.prefix|) { best := Some(route); }
      }
      assert setup.routes[..|setup.routes|] == setup.routes;
    }

    /** Stores a response unless it must not be; a failed write changes nothing. */
    method Store(key: Key, response: Response, ttl: int, writable: bool, ghost origin: nat)
      requires origins.Keys == entries.Keys
      modifies this`entries, this`origins
      ensures entries == if ttl > 0 && writable && Storable(setup, response) then old(entries)[key := Kept(response)] else old(entries)
      ensures origins == if ttl > 0 && writable && Storable(setup, response) then old(origins)[key := origin] else old(origins)
    {
      hide Declines;
      if !setup.enabled || ttl <= 0 { return; }
      if response.status !in {200, 203, 404} { return; }
      if |response.body| > setup.maxBody { return; }
      var headers := Dict(response.headers);
      if "set-cookie" in headers || "www-authenticate" in headers { return; }
      if "cache-control" in headers && Declines(headers["cache-control"]) { return; }
      if writable {
        entries := entries[key := Kept(response)];
        origins := origins[key := origin];
      }
    }

    /** Scans and deletes the entries; Redis fails after `reach` of them, which is swallowed. */
    method InvalidateAll(reach: nat) returns (deleted: nat)
      requires Valid()
      modifies this`entries, this`origins
      ensures Valid() && deleted == Min(reach, |old(entries)|) && deleted + |entries| == |old(entries)|
      ensures View() == Apply(setup, old(View()), Invalidate(old(entries).Keys - entries.Keys))
      ensures |old(entries)| <= reach ==> entries == map[]
    {
      hide Inv, Apply, Joined;
      deleted := 0;
      ghost var all := entries;
      ghost var reached: set<Key> := {};
      while entries != map[] && deleted < reach
        invariant origins.Keys == entries.Keys && reached <= all.Keys
        invariant entries == all - reached && origins == old(origins) - reached
        invariant deleted + |entries| == |all| && deleted <= reach
        decreases |entries|
      {
        var key :| key in entries;
        reached := reached + {key};
        OneFewer(entries, key);
        entries, origins := entries - {key}, origins - {key};
        deleted := deleted + 1;
      }
      assert all.Keys - entries.Keys == reached;
      StepKeepsInv(setup, old(View()), Invalidate(reached));
      JoinedWithout(setup, all, old(origins), log, reached);
    }

    /**
      Serves one request; `answer` is what the upstream would say. A hit repeats what an
      upstream once answered to the same question from the same caller.
    */
    method Handle(req: Request, answer: Response, readable: bool, writable: bool) returns (reply: Reply)
      requires Valid() && Wellformed(req) && Injective(setup.digest)
      modifies this`entries, this`origins, this`log
      ensures Valid()
      ensures reply.Reply? <==> Admitted(setup, req)
      ensures reply.Reply? && reply.hit ==>
        View() == old(View()) && exists i :: Repeats(log, i, req, reply.status, reply.body)
      ensures reply.Reply? && !reply.hit ==>
        reply.status == answer.status && reply.body == answer.body
        && View() == Served(setup, old(View()), req, answer, KeyOf(setup, req), writable)
      ensures reply.Reply? ==> reply.hit == Looked(setup, old(View()), req, readable).Some?
    {
      hide Inv, Best, Declines, Dict, Matches, Material, Injective, SameQuestion, Kept, Storable, Served;
      var route := Resolve(req.path);
      if route.None? { return NoRoute; }
      if route.value.requireAuth && req.caller.Anonymous? { return TokenRequired; }

      var key := KeyFor(req, route.value);
      if key.Some? && setup.enabled && readable && key.value in entries {
        var hit := entries[key.value];
        HitIsOld(req, key.value);
        return Reply(hit.status, hit.body, true);
      }
      MissIsServed(req, answer, key, writable);
      Forward(req, answer, route.value, key, writable);
      reply := Reply(answer.status, answer.body, false);
    }

    /** The key under which the request is looked up and stored, if it is. */
    method KeyFor(req: Request, route: Route) returns (key: Option<Key>)
      requires Best(setup.routes, req.path) == Some(route)
      ensures key == KeyOf(setup, req)
    {
      hide Best, Material;
      key := None;
      if route.ttl > 0 && (req.verb == "GET" || req.verb == "HEAD") && !req.noCache {
        var scope := Scope(route, req.caller);
        if scope.Some? { key := Some(setup.digest(Material(req.verb, req.path, req.query, scope.value))); }
      }
    }

    /** Takes the upstream's answer and stores it when it may be. */
    method Forward(req: Request, answer: Response, route: Route, key: Option<Key>, writable: bool)
      requires Valid() && Best(setup.routes, req.path) == Some(route) && key == KeyOf(setup, req)
      modifies this`entries, this`origins, this`log
      ensures origins.Keys == entries.Keys && View() == Served(setup, old(View()), req, answer, key, writable)
    {
      hide Inv, Best, Storable, Kept, Material;
      log := log + [Exchange(req, answer)];
      if key.Some? && !route.stream {
        Store(key.value, answer, route.ttl, writable, |log| - 1);
      }
    }

    lemma HitIsOld(req: Request, key: Key)
      requires Valid() && Wellformed(req) && Injective(setup.digest) && KeyOf(setup, req) == Some(key) && key in entries
      ensures exists i :: Repeats(log, i, req, entries[key].status, entries[key].body)
    {
      hide KeyOf, Dict, Storable;
      assert FromLog(setup, View(), key);
      var x := log[View().entries[key].origin];
      KeysAskTheSame(setup, x.request, req);
      assert Repeats(log, View().entries[key].origin, req, entries[key].status, entries[key].body);
    }

    lemma MissIsServed(req: Request, answer: Response, key: Option<Key>, writable: bool)
      requires Valid() && Admitted(setup, req) && key == KeyOf(setup, req)
      ensures Inv(setup, Served(setup, View(), req, answer, key, writable))
    {
      hide Inv, Best, Admitted, Storable, KeyOf;
      var s := View();
      var s1 := s.(open := map[0 := Pending(req, key, None)]);
      assert Inv(setup, s1) by { OpenKeepsInv(setup, s, req); }
      StepKeepsInv(setup, s1, Answer(0, answer));
      var s2 := Apply(setup, s1, Answer(0, answer));
      StepKeepsInv(setup, s2, Finish(0, writable));
      assert Apply(setup, s2, Finish(0, writable)) == Served(setup, s, req, answer, key, writable);
    }
  }

  /** The stored responses with the answers they came from. */
  ghost function Joined(entries: map<Key, Cached>, origins: map<Key, nat>, log: seq<Exchange>): State {
    State(map k | k in entries && k in origins :: Entry(entries[k], origins[k]), map[], log)
  }

  lemma JoinedWithout(setup: Setup, entries: map<Key, Cached>, origins: map<Key, nat>, log: seq<Exchange>, reached: set<Key>)
    ensures Joined(entries - reached, origins - reached, log) == Apply(setup, Joined(entries, origins, log), Invalidate(reached))
  {
  }

  lemma OneFewer<K, V>(m: map<K, V>, k: K)
    requires k in m
    ensures |m - {k}| + 1 == |m|
  {
    assert m.Keys == (m - {k}).Keys + {k};
    assert |m.Keys| == |(m - {k}).Keys| + 1;
  }

  lemma OpenKeepsInv(setup: Setup, s: State, req: Request)
    requires Inv(setup, s) && Admitted(setup, req) && s.open == map[]
    ensures Inv(setup, s.(open := map[0 := Pending(req, KeyOf(setup, req), None)]))
  {
    hide KeyOf, Best;
  }

  /** One request answered with nothing in between. */
  ghost function Served(setup: Setup, s: State, req: Request, answer: Response, key: Option<Key>, writable: bool): State {
    State(
      if key.Some? && writable && !Streams(setup, req) && Storable(setup, answer)
        then s.entries[key.value := Entry(Kept(answer), |s.log|)] else s.entries,
      map[], s.log + [Exchange(req, answer)])
  }
}
