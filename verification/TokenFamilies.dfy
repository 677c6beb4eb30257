/**
  What every run of logins, rotations, revocations and sweeps keeps: each family is a
  single parent chain over one user and one session, it is revoked as a whole or not
  at all, and a replay ends it for good.
*/
module TokenFamilies {
  import opened Options
  import opened TokenModel

  // ---- the invariant ----------------------------------------------------------

  /** Ids in use have been drawn, and every token belongs to a stored session of its user. */
  ghost predicate Linked(db: Db) {
    && (forall k <- db.sessions :: k < db.next)
    && (forall k <- db.tokens ::
      var t := db.tokens[k];
      && k < db.next && t.family < db.next && t.session in db.sessions
      && t.user == db.sessions[t.session].user)
  }

  /** Timestamps are consistent with the configured lifetime. */
  ghost predicate Dated(cfg: Config, db: Db, now: int) {
    && (forall k <- db.sessions ::
      var s := db.sessions[k];
      s.created <= now && s.expires == s.created + cfg.refreshTtl)
    && (forall k <- db.tokens ::
      var t := db.tokens[k];
      t.created <= now && t.expires == t.created + cfg.refreshTtl)
    && (forall k <- db.tokens :: db.tokens[k].session in db.sessions ==>
      db.sessions[db.tokens[k].session].created <= db.tokens[k].created <= db.sessions[db.tokens[k].session].expires)
  }

  /** Two stored tokens of one family. */
  ghost predicate Kin(db: Db, j: Id, k: Id) {
    j in db.tokens && k in db.tokens && db.tokens[j].family == db.tokens[k].family
  }

  /** Tokens of one family share their session and are revoked together; keys follow issue order. */
  ghost predicate Uniform(db: Db) {
    forall j: Id, k: Id :: Kin(db, j, k) ==>
      && db.tokens[j].session == db.tokens[k].session
      && db.tokens[j].revoked.Some? == db.tokens[k].revoked.Some?
      && (j <= k ==> db.tokens[j].created <= db.tokens[k].created)
  }

  /** `p` is the stored token of k's family issued last before k. */
  ghost predicate Precedes(db: Db, p: Id, k: Id) {
    Kin(db, p, k) && p < k && forall j: Id :: Kin(db, j, k) && j < k ==> j <= p
  }

  /**
    A token's parent is the family member issued just before it, only the oldest has
    none, and exactly the newest is unused.
  */
  ghost predicate ChainedAt(db: Db, k: Id)
    requires k in db.tokens
  {
    && (db.tokens[k].parent.Some? ==> Precedes(db, db.tokens[k].parent.value, k))
    && (db.tokens[k].parent.None? ==> forall j: Id :: Kin(db, j, k) ==> k <= j)
    && (db.tokens[k].used.Some? <==> exists j: Id :: Kin(db, k, j) && k < j)
  }

  ghost predicate Chained(db: Db) {
    forall k: Id {:trigger ChainedAt(db, k)} :: k in db.tokens ==> ChainedAt(db, k)
  }

  ghost predicate Inv(cfg: Config, db: Db, now: int) {
    Linked(db) && Dated(cfg, db, now) && Uniform(db) && Chained(db)
  }

  // ---- one step keeps it ------------------------------------------------------

  /** A token's place in its chain depends only on which relatives are stored. */
  lemma SameKinSameChain(db: Db, after: Db, k: Id)
    requires k in db.tokens && k in after.tokens && ChainedAt(db, k)
    requires after.tokens[k].parent == db.tokens[k].parent && after.tokens[k].used.Some? == db.tokens[k].used.Some?
    requires forall j: Id :: Kin(after, j, k) == Kin(db, j, k)
    ensures ChainedAt(after, k)
  {
    forall j: Id ensures Kin(after, k, j) == Kin(db, k, j) {
      assert Kin(after, j, k) == Kin(db, j, k);
    }
  }

  lemma LoginKeepsInv(cfg: Config, db: Db, now: int, user: Id, delay: nat)
    requires Inv(cfg, db, now)
    ensures Inv(cfg, StartSession(cfg, db, now, user, delay).0, now)
  {
    var after := StartSession(cfg, db, now, user, delay).0;
    var first := db.next + 2;
    assert after.tokens == db.tokens[first := after.tokens[first]];
    forall j: Id, k: Id | Kin(after, j, k) ensures Kin(db, j, k) || j == k == first {}
    forall k <- after.tokens ensures ChainedAt(after, k) {
      if k != first {
        forall j: Id ensures Kin(after, j, k) == Kin(db, j, k) {}
        SameKinSameChain(db, after, k);
      }
    }
  }

  lemma RotateKeepsDates(cfg: Config, db: Db, now: int, raw: Id, csrf: Option<Id>, delay: nat)
    requires Inv(cfg, db, now) && raw in db.tokens && Objection(db, now, raw, csrf).None?
    ensures var after := Rotate(cfg, db, now, raw, csrf, delay).0; Linked(after) && Dated(cfg, after, now)
  {
  }

  /** A token that is still unused is the newest of its family. */
  lemma UnusedIsNewest(db: Db, raw: Id, j: Id)
    requires raw in db.tokens && ChainedAt(db, raw) && db.tokens[raw].used.None? && Kin(db, j, raw)
    ensures j <= raw
  {
    if raw < j { assert Kin(db, raw, j); }
  }

  /** `after` holds one more token, the child of the token it marks as used. */
  ghost predicate Extends(db: Db, after: Db, now: int, raw: Id, child: Id) {
    && raw in db.tokens && child !in db.tokens && child in after.tokens && raw in after.tokens
    && after.tokens == db.tokens[raw := after.tokens[raw]][child := after.tokens[child]]
    && after.tokens[raw] == db.tokens[raw].(used := Some(now))
    && after.tokens[child].family == db.tokens[raw].family
    && after.tokens[child].parent == Some(raw) && after.tokens[child].used.None?
    && (forall k <- db.tokens :: k < child)
  }

  lemma ExtendedKin(db: Db, after: Db, now: int, raw: Id, child: Id, j: Id, k: Id)
    requires Extends(db, after, now, raw, child)
    ensures Kin(after, j, k) ==
      (if j == child then k == child || Kin(db, raw, k) else if k == child then Kin(db, j, raw) else Kin(db, j, k))
  {
  }

  lemma ExtendingKeepsChain(db: Db, after: Db, now: int, raw: Id, child: Id, k: Id)
    requires Extends(db, after, now, raw, child) && Chained(db) && db.tokens[raw].used.None? && k in after.tokens
    ensures ChainedAt(after, k)
  {
    if k == child {
      ExtendedKin(db, after, now, raw, child, raw, child);
      forall j: Id | Kin(after, j, child) && j < child ensures j <= raw {
        ExtendedKin(db, after, now, raw, child, j, child);
        UnusedIsNewest(db, raw, j);
      }
      forall j: Id | Kin(after, child, j) ensures j <= child {}
    } else {
      forall j: Id | j != child ensures Kin(after, j, k) == Kin(db, j, k) && Kin(after, k, j) == Kin(db, k, j) {
        ExtendedKin(db, after, now, raw, child, j, k);
        ExtendedKin(db, after, now, raw, child, k, j);
      }
      ExtendedKin(db, after, now, raw, child, k, child);
      assert ChainedAt(db, k) && ChainedAt(db, raw);
      assert Kin(db, raw, k) == Kin(db, k, raw);
      if Kin(db, raw, k) {
        UnusedIsNewest(db, raw, k);
      }
    }
  }

  lemma RotateKeepsChains(cfg: Config, db: Db, now: int, raw: Id, csrf: Option<Id>, delay: nat)
    requires Inv(cfg, db, now) && raw in db.tokens && Objection(db, now, raw, csrf).None?
    ensures var after := Rotate(cfg, db, now, raw, csrf, delay).0; Uniform(after) && Chained(after)
  {
    var after := Rotate(cfg, db, now, raw, csrf, delay).0;
    var child := db.next;
    assert Extends(db, after, now, raw, child);
    forall k <- after.tokens ensures ChainedAt(after, k) {
      ExtendingKeepsChain(db, after, now, raw, child, k);
    }
    forall j: Id, k: Id | Kin(after, j, k)
      ensures after.tokens[j].session == after.tokens[k].session
      ensures after.tokens[j].revoked.Some? == after.tokens[k].revoked.Some?
      ensures j <= k ==> after.tokens[j].created <= after.tokens[k].created
    {
      ExtendedKin(db, after, now, raw, child, j, k);
    }
  }

  /** A bulk revocation changes nothing but revocation stamps. */
  ghost predicate OnlyStamped(db: Db, after: Db) {
    && after.tokens.Keys == db.tokens.Keys && after.sessions.Keys == db.sessions.Keys
    && after.next == db.next
    && (forall k <- db.tokens ::
      after.tokens[k].(revoked := None) == db.tokens[k].(revoked := None))
    && (forall k <- db.sessions ::
      after.sessions[k].(revoked := None) == db.sessions[k].(revoked := None))
  }

  lemma StampingKeepsInv(cfg: Config, db: Db, after: Db, now: int)
    requires Inv(cfg, db, now) && OnlyStamped(db, after)
    requires forall j: Id, k: Id :: Kin(db, j, k) ==> after.tokens[j].revoked.Some? == after.tokens[k].revoked.Some?
    ensures Inv(cfg, after, now)
  {
    assert forall k <- db.tokens :: after.tokens[k] == db.tokens[k].(revoked := after.tokens[k].revoked);
    assert forall k <- db.sessions :: after.sessions[k] == db.sessions[k].(revoked := after.sessions[k].revoked);
    forall j: Id, k: Id ensures Kin(after, j, k) == Kin(db, j, k) {}
    forall k <- after.tokens ensures ChainedAt(after, k) {
      SameKinSameChain(db, after, k);
    }
  }

  /** Within a family the sweep takes a prefix: what is younger than a survivor survives. */
  lemma SweepTakesPrefix(cfg: Config, db: Db, now: int, cutoff: int, j: Id, k: Id)
    requires Inv(cfg, db, now) && Kin(db, j, k) && j < k && Survives(db, j, cutoff)
    ensures Survives(db, k, cutoff)
  {
  }

  lemma SweptKin(db: Db, cutoff: int, i: Id, j: Id)
    ensures Kin(SweepRows(db, cutoff), i, j) == (Kin(db, i, j) && Survives(db, i, cutoff) && Survives(db, j, cutoff))
  {
  }

  lemma ParentOutlives(cfg: Config, db: Db, now: int, cutoff: int, j: Id, k: Id)
    requires Inv(cfg, db, now) && Kin(db, j, k) && j < k && Survives(db, j, cutoff)
    ensures var parent := db.tokens[k].parent;
      parent.Some? && j <= parent.value && parent.value in db.tokens && Survives(db, parent.value, cutoff)
  {
    assert ChainedAt(db, k);
    var parent := db.tokens[k].parent.value;
    if j < parent {
      assert Kin(db, j, parent);
      SweepTakesPrefix(cfg, db, now, cutoff, j, parent);
    }
  }

  lemma SweepKeepsParent(cfg: Config, db: Db, now: int, cutoff: int, k: Id)
    requires Inv(cfg, db, now) && k in db.tokens && Survives(db, k, cutoff)
    ensures var after, parent := SweepRows(db, cutoff), KeptParent(db, db.tokens[k].parent, cutoff);
      && (parent.Some? ==> Precedes(after, parent.value, k))
      && (parent.None? ==> forall j: Id :: Kin(after, j, k) ==> k <= j)
  {
    var after, kept := SweepRows(db, cutoff), KeptParent(db, db.tokens[k].parent, cutoff);
    forall j: Id | Kin(after, j, k) && j < k ensures kept.Some? && j <= kept.value {
      SweptKin(db, cutoff, j, k);
      ParentOutlives(cfg, db, now, cutoff, j, k);
    }
    if kept.Some? {
      assert ChainedAt(db, k);
      SweptKin(db, cutoff, kept.value, k);
    }
  }

  lemma SweepKeepsChain(cfg: Config, db: Db, now: int, cutoff: int, k: Id)
    requires Inv(cfg, db, now) && k in db.tokens && Survives(db, k, cutoff)
    ensures ChainedAt(SweepRows(db, cutoff), k)
  {
    var after := SweepRows(db, cutoff);
    SweepKeepsParent(cfg, db, now, cutoff, k);
    assert ChainedAt(db, k);
    if db.tokens[k].used.Some? {
      var j: Id :| Kin(db, k, j) && k < j;
      SweepTakesPrefix(cfg, db, now, cutoff, k, j);
      SweptKin(db, cutoff, k, j);
    }
    if j: Id :| Kin(after, k, j) && k < j {
      SweptKin(db, cutoff, k, j);
    }
  }

  lemma SweepKeepsInv(cfg: Config, db: Db, now: int, cutoff: int)
    requires Inv(cfg, db, now)
    ensures Inv(cfg, SweepRows(db, cutoff), now)
  {
    var after := SweepRows(db, cutoff);
    forall k <- after.tokens ensures ChainedAt(after, k) {
      SweepKeepsChain(cfg, db, now, cutoff, k);
    }
    forall j: Id, k: Id | Kin(after, j, k) ensures Kin(db, j, k) {}
  }

  lemma InvAges(cfg: Config, db: Db, now: int, later: int)
    requires Inv(cfg, db, now) && now <= later
    ensures Inv(cfg, db, later)
  {
  }

  lemma RefreshKeepsInv(cfg: Config, db: Db, now: int, raw: Id, csrf: Option<Id>, delay: nat)
    requires Inv(cfg, db, now)
    ensures Inv(cfg, RefreshRequest(cfg, db, now, raw, csrf, delay).0, now)
  {
    if raw in db.tokens {
      if Objection(db, now, raw, csrf).None? {
        RotateKeepsDates(cfg, db, now, raw, csrf, delay);
        RotateKeepsChains(cfg, db, now, raw, csrf, delay);
      } else {
        StampingKeepsInv(cfg, db, RevokeFamilyRows(db, db.tokens[raw].family, now), now);
      }
    }
  }

  lemma RevokeFamilyKeepsInv(cfg: Config, db: Db, now: int, family: Id)
    requires Inv(cfg, db, now)
    ensures Inv(cfg, RevokeFamilyRows(db, family, now), now)
  {
    hide Linked, Dated, Chained;
    StampingKeepsInv(cfg, db, RevokeFamilyRows(db, family, now), now);
  }

  lemma RevokeSessionKeepsInv(cfg: Config, db: Db, now: int, session: Id)
    requires Inv(cfg, db, now)
    ensures Inv(cfg, RevokeSessionRows(db, session, now), now)
  {
    hide Linked, Dated, Chained;
    StampingKeepsInv(cfg, db, RevokeSessionRows(db, session, now), now);
  }

  lemma RevokeUserKeepsInv(cfg: Config, db: Db, now: int, user: Id)
    requires Inv(cfg, db, now)
    ensures Inv(cfg, RevokeUserRows(db, user, now), now)
  {
    hide Dated, Chained;
    var after := RevokeUserRows(db, user, now);
    forall j: Id, k: Id | Kin(db, j, k)
      ensures after.tokens[j].revoked.Some? == after.tokens[k].revoked.Some?
    {
      assert db.tokens[j].user == db.tokens[k].user;
    }
    StampingKeepsInv(cfg, db, after, now);
  }

  lemma SetUserKeepsInv(cfg: Config, db: Db, now: int, user: Id, status: User)
    requires Inv(cfg, db, now)
    ensures Inv(cfg, db.(users := db.users[user := status]), now)
  {
    StampingKeepsInv(cfg, db, db.(users := db.users[user := status]), now);
  }

  lemma StepKeepsInv(cfg: Config, db: Db, now: int, request: Request)
    requires Inv(cfg, db, now)
    ensures Inv(cfg, Step(cfg, db, now, request).0, now)
  {
    hide Inv;
    match request
    case Login(user, delay) => LoginKeepsInv(cfg, db, now, user, delay);
    case Refresh(raw, csrf, delay) => RefreshKeepsInv(cfg, db, now, raw, csrf, delay);
    case RevokeFamily(family) => RevokeFamilyKeepsInv(cfg, db, now, family);
    case RevokeSession(session) => RevokeSessionKeepsInv(cfg, db, now, session);
    case RevokeAll(user) => RevokeUserKeepsInv(cfg, db, now, user);
    case SetUser(user, status) => SetUserKeepsInv(cfg, db, now, user, status);
    case Sweep => SweepKeepsInv(cfg, db, now, now - cfg.retention);
  }

  /** Every reachable state satisfies the family invariant. */
  lemma {:induction false} RunKeepsInv(cfg: Config, db: Db, now: int, events: seq<Event>)
    requires Inv(cfg, db, now) && Ordered(events, now)
    ensures Inv(cfg, Run(cfg, db, events), LastTime(events, now))
    decreases events
  {
    if events != [] {
      InvAges(cfg, db, now, events[0].now);
      StepKeepsInv(cfg, db, events[0].now, events[0].request);
      RunKeepsInv(cfg, Step(cfg, db, events[0].now, events[0].request).0, events[0].now, events[1..]);
    }
  }

  // ---- what the invariant means for a family ----------------------------------

  /**
    In every reachable state two tokens of a family belong to the same user and
    session, at most one of them is unused, and no token has two children.
  */
  lemma FamilyIsOneChain(cfg: Config, users: map<Id, User>, start: int, events: seq<Event>, j: Id, k: Id)
    requires Ordered(events, start)
    ensures var db := Run(cfg, Empty(users), events);
      j in db.tokens && k in db.tokens && j < k && db.tokens[j].family == db.tokens[k].family ==>
        && db.tokens[j].user == db.tokens[k].user && db.tokens[j].session == db.tokens[k].session
        && db.tokens[j].used.Some? && db.tokens[j].parent != db.tokens[k].parent
        && db.tokens[k].parent.Some? && j <= db.tokens[k].parent.value < k
  {
    assert Inv(cfg, Empty(users), start);
    RunKeepsInv(cfg, Empty(users), start, events);
    var db := Run(cfg, Empty(users), events);
    if j in db.tokens && k in db.tokens && j < k && db.tokens[j].family == db.tokens[k].family {
      assert Kin(db, j, k) && ChainedAt(db, j) && ChainedAt(db, k);
    }
  }

  // ---- replay -----------------------------------------------------------------

  /** No stored token of the family is live, and the family's id will not be drawn again. */
  ghost predicate FamilyEnded(db: Db, family: Id) {
    family < db.next && forall k <- db.tokens :: db.tokens[k].family == family ==> db.tokens[k].revoked.Some?
  }

  ghost predicate NoneOf(family: Id, grants: seq<Option<Issued>>) {
    forall i :: 0 <= i < |grants| && grants[i].Some? ==> grants[i].value.family != family
  }

  lemma StepKeepsFamilyEnded(cfg: Config, db: Db, now: int, request: Request, family: Id)
    requires FamilyEnded(db, family)
    ensures FamilyEnded(Step(cfg, db, now, request).0, family)
    ensures var outcome := Step(cfg, db, now, request).1; outcome.Granted? ==> outcome.issued.family != family
  {
  }

  lemma {:induction false} EndedFamilyGrantsNothing(cfg: Config, db: Db, family: Id, events: seq<Event>)
    requires FamilyEnded(db, family)
    ensures NoneOf(family, Grants(cfg, db, events))
    decreases events
  {
    if events != [] {
      var (after, outcome) := Step(cfg, db, events[0].now, events[0].request);
      StepKeepsFamilyEnded(cfg, db, events[0].now, events[0].request, family);
      EndedFamilyGrantsNothing(cfg, after, family, events[1..]);
      if !events[0].request.Sweep? {
        var head := if outcome.Granted? then Some(outcome.issued) else None;
        assert Grants(cfg, db, events) == [head] + Grants(cfg, after, events[1..]);
      }
    }
  }

  /**
    Presenting a consumed token is refused, leaves sessions and every other family as
    they were, and, when the refused request's effects are kept, no continuation
    ever grants another pair in that family.
  */
  lemma ReplayEndsFamily(cfg: Config, db: Db, now: int, raw: Id, csrf: Option<Id>, delay: nat, continuation: seq<Event>)
    requires Linked(db) && raw in db.tokens && db.tokens[raw].used.Some?
    ensures var (after, outcome) := RefreshRequest(cfg, db, now, raw, csrf, delay);
      var family := db.tokens[raw].family;
      && outcome == Refused(TokenReused)
      && after.sessions == db.sessions && after.users == db.users && after.tokens.Keys == db.tokens.Keys
      && (forall k <- db.tokens :: db.tokens[k].family != family ==> after.tokens[k] == db.tokens[k])
      && (!cfg.rollbackOnRaise ==> NoneOf(family, Grants(cfg, after, continuation)))
  {
    var after := RefreshRequest(cfg, db, now, raw, csrf, delay).0;
    if !cfg.rollbackOnRaise {
      EndedFamilyGrantsNothing(cfg, after, db.tokens[raw].family, continuation);
    }
  }

  ghost predicate ReplayEndsEveryFamily(cfg: Config) {
    forall users, start, events, raw, csrf, delay, now, continuation: seq<Event> ::
      Ordered(events, start) ==>
      var db := Run(cfg, Empty(users), events);
      raw in db.tokens && db.tokens[raw].used.Some? ==>
      NoneOf(db.tokens[raw].family, Grants(cfg, RefreshRequest(cfg, db, now, raw, csrf, delay).0, continuation))
  }

  /** A login, a rotation, a replay, and a second rotation by the holder of the successor. */
  lemma RolledBackReplayGrantsAgain(cfg: Config)
    requires cfg.rollbackOnRaise
    ensures !ReplayEndsEveryFamily(cfg)
  {
    var users := map[0 := User(true, false, false)];
    var login, rotation := Event(0, Login(0, 0)), Event(0, Refresh(2, None, 0));
    var events, continuation := [login, rotation], [Event(0, Refresh(4, None, 0))];
    var d1 := Step(cfg, Empty(users), 0, login.request).0;
    var d2 := Step(cfg, d1, 0, rotation.request).0;
    assert events[1..] == [rotation] && [rotation][1..] == [];
    assert Run(cfg, Empty(users), events) == Run(cfg, d1, [rotation]) == Run(cfg, d2, []) == d2;
    assert Ordered([rotation], 0) && Ordered(events, 0);
    assert 2 in d2.tokens && d2.tokens[2].used.Some? && d2.tokens[2].family == 1;
    var d3 := RefreshRequest(cfg, d2, 0, 2, None, 0).0;
    var (d4, outcome) := Step(cfg, d3, 0, continuation[0].request);
    assert Objection(d3, 0, 4, None).None?;
    var grants := Grants(cfg, d3, continuation);
    assert outcome.Granted? && outcome.issued.family == 1;
    assert continuation[1..] == [];
    assert grants[0] == Some(outcome.issued);
  }

  /**
    Reuse detection ends the family in every run exactly when the effects of the
    refused request are kept.
  */
  lemma ReplayEndsFamilyExactlyWhenKept(cfg: Config)
    ensures ReplayEndsEveryFamily(cfg) <==> !cfg.rollbackOnRaise
  {
    if cfg.rollbackOnRaise {
      RolledBackReplayGrantsAgain(cfg);
    } else {
      forall users, start, events, raw, csrf, delay, now, continuation: seq<Event> | Ordered(events, start)
        ensures var db := Run(cfg, Empty(users), events);
          raw in db.tokens && db.tokens[raw].used.Some? ==>
          NoneOf(db.tokens[raw].family, Grants(cfg, RefreshRequest(cfg, db, now, raw, csrf, delay).0, continuation))
      {
        RunKeepsInv(cfg, Empty(users), start, events);
        var db := Run(cfg, Empty(users), events);
        if raw in db.tokens && db.tokens[raw].used.Some? {
          ReplayEndsFamily(cfg, db, now, raw, csrf, delay, continuation);
        }
      }
    }
  }
}
