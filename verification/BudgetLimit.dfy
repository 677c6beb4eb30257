/**
  How far recorded spend can pass a daily ceiling, exactly. Requests are checked before the
  model call and recorded after it; in between, other requests commit and the day may
  change. Both ceilings are read, and both counters are dated, at separate instants,
  and the two increments of a request become visible together when it commits.
*/
module BudgetLimit {
  import opened Arith
  import opened Options

  type Rid = nat
  type User = nat
  type Day = nat

  datatype Config = Config(platformLimit: int, userLimit: int)

  datatype Scope = Platform | Of(user: User)

  datatype Stage =
    | HalfChecked
    | Running
    | PlatformDated(cost: nat, platformDay: Day)
    | Dated(cost: nat, platformDay: Day, userDay: Day)

  datatype Flight = Flight(user: Option<User>, stage: Stage)

  /** `counters` holds the committed spend; a day and scope without a row have spent nothing. */
  datatype State = State(today: Day, counters: map<(Day, Scope), nat>, flights: map<Rid, Flight>)

  datatype Event =
    | NextDay
    | CheckPlatform(rid: Rid, user: Option<User>)
    | CheckUser(rid: Rid)
    | DatePlatform(rid: Rid, cost: nat)
    | DateUser(rid: Rid)
    | Commit(rid: Rid)
    | Drop(rid: Rid)

  function Spent(s: State, day: Day, scope: Scope): nat {
    if (day, scope) in s.counters then s.counters[(day, scope)] else 0
  }

  function Limit(cfg: Config, scope: Scope): int {
    match scope
    case Platform => cfg.platformLimit
    case Of(_) => cfg.userLimit
  }

  /** A ceiling is exhausted as soon as it is reached. */
  predicate Exhausted(cfg: Config, s: State, scope: Scope) {
    Spent(s, s.today, scope) >= Limit(cfg, scope)
  }

  predicate Enabled(s: State, e: Event) {
    match e
    case NextDay => true
    case CheckPlatform(rid, _) => rid !in s.flights
    case CheckUser(rid) => rid in s.flights && s.flights[rid].stage.HalfChecked? && s.flights[rid].user.Some?
    case DatePlatform(rid, _) => rid in s.flights && s.flights[rid].stage.Running?
    case DateUser(rid) => rid in s.flights && s.flights[rid].stage.PlatformDated? && s.flights[rid].user.Some?
    case Commit(rid) => rid in s.flights && s.flights[rid].stage.Dated?
    case Drop(rid) => rid in s.flights
  }

  function Charge(counters: map<(Day, Scope), nat>, day: Day, scope: Scope, cost: nat): map<(Day, Scope), nat> {
    counters[(day, scope) := (if (day, scope) in counters then counters[(day, scope)] else 0) + cost]
  }

  function Apply(cfg: Config, s: State, e: Event): State
    requires Enabled(s, e)
  {
    match e
    case NextDay => s.(today := s.today + 1)
    case CheckPlatform(rid, user) =>
      if Exhausted(cfg, s, Platform) then s
      else s.(flights := s.flights[rid := Flight(user, if user.None? then Running else HalfChecked)])
    case CheckUser(rid) =>
      var f := s.flights[rid];
      if Exhausted(cfg, s, Of(f.user.value)) then s.(flights := s.flights - {rid})
      else s.(flights := s.flights[rid := f.(stage := Running)])
    case DatePlatform(rid, cost) =>
      var f := s.flights[rid];
      var stage := if f.user.None? then Dated(cost, s.today, s.today) else PlatformDated(cost, s.today);
      s.(flights := s.flights[rid := f.(stage := stage)])
    case DateUser(rid) =>
      var f := s.flights[rid];
      s.(flights := s.flights[rid := f.(stage := Dated(f.stage.cost, f.stage.platformDay, s.today))])
    case Commit(rid) =>
      var f := s.flights[rid];
      var charged := Charge(s.counters, f.stage.platformDay, Platform, f.stage.cost);
      s.(counters := if f.user.None? then charged else Charge(charged, f.stage.userDay, Of(f.user.value), f.stage.cost),
         flights := s.flights - {rid})
    case Drop(rid) => s.(flights := s.flights - {rid})
  }

  /**
    A request is in flight from when it finds the platform below its ceiling until it
    commits, is dropped, or finds its user's ceiling reached; no other step brings it in or out.
  */
  lemma InFlightExactly(cfg: Config, s: State, e: Event, r: Rid)
    requires Enabled(s, e)
    ensures r in Apply(cfg, s, e).flights <==>
      if r in s.flights then
        && e != Commit(r) && e != Drop(r)
        && (e == CheckUser(r) ==> Spent(s, s.today, Of(s.flights[r].user.value)) < cfg.userLimit)
      else e.CheckPlatform? && e.rid == r && Spent(s, s.today, Platform) < cfg.platformLimit
    ensures r in s.flights <==> Enabled(s, Drop(r))
  {
  }

  // ---- the bound --------------------------------------------------------------

  /** Past the check of `scope`, not committed, and the charge may still fall on `day`. */
  predicate MayCharge(f: Flight, today: Day, day: Day, scope: Scope) {
    match scope
    case Platform =>
      if f.stage.HalfChecked? || f.stage.Running? then day == today else f.stage.platformDay == day
    case Of(user) => !f.stage.HalfChecked? && MayChargeUser(f, today, day, user)
  }

  /** Past the platform's check, and the user's charge may still fall on `day`. */
  predicate MayChargeUser(f: Flight, today: Day, day: Day, user: User) {
    f.user == Some(user) && if f.stage.Dated? then f.stage.userDay == day else day == today
  }

  /** The user's charge may still fall on `day`, and the platform's falls on an earlier one. */
  predicate Straddles(f: Flight, today: Day, day: Day, user: User) {
    MayChargeUser(f, today, day, user) && (f.stage.PlatformDated? || f.stage.Dated?) && f.stage.platformDay < day
  }

  function Chargers(s: State, day: Day, scope: Scope): set<Rid> {
    set r | r in s.flights && MayCharge(s.flights[r], s.today, day, scope)
  }

  function UserChargers(s: State, day: Day, user: User): set<Rid> {
    set r | r in s.flights && MayChargeUser(s.flights[r], s.today, day, user)
  }

  function Straddlers(s: State, day: Day, user: User): set<Rid> {
    set r | r in s.flights && Straddles(s.flights[r], s.today, day, user)
  }

  /** Requests of the scope between its check and their commit. */
  function InFlight(s: State, scope: Scope): set<Rid> {
    set r | r in s.flights && (scope.Platform? || s.flights[r].user == Some(scope.user))
  }

  /** The most that a set of requests can still add. */
  function Reserve(c: nat, requests: set<Rid>): nat {
    c * |requests|
  }

  /** Charges are dated in order, none later than today, and none costs more than `c`. */
  ghost predicate InOrder(s: State, c: nat) {
    && (forall day, other :: (day, other) in s.counters ==> day <= s.today)
    && (forall r <- s.flights ::
      var stage := s.flights[r].stage;
      && (stage.PlatformDated? || stage.Dated? ==> stage.cost <= c && stage.platformDay <= s.today)
      && (stage.Dated? ==> stage.platformDay <= stage.userDay <= s.today)
      && (stage.PlatformDated? || stage.HalfChecked? ==> s.flights[r].user.Some?))
  }

  /** Committed spend plus what requests past the scope's own check may still add. */
  ghost predicate Bounded(cfg: Config, s: State, scope: Scope, k: nat, c: nat) {
    forall day: Day {:trigger Spent(s, day, scope)} ::
      Spent(s, day, scope) + Reserve(c, Chargers(s, day, scope)) <= Limit(cfg, scope) - 1 + c * k
  }

  /** A user outspends the platform on a day only by charges the platform has on the day before. */
  ghost predicate Offset(s: State, user: User, k: nat, c: nat) {
    forall day: Day {:trigger Spent(s, day, Of(user))} ::
      Spent(s, day, Of(user)) + Reserve(c, Straddlers(s, day, user)) <= Spent(s, day, Platform) + c * k
  }

  /** So the platform's ceiling bounds the user too. */
  ghost predicate Capped(cfg: Config, s: State, user: User, k: nat, c: nat) {
    forall day: Day {:trigger Spent(s, day, Of(user))} ::
      Spent(s, day, Of(user)) + Reserve(c, UserChargers(s, day, user)) <= cfg.platformLimit - 1 + 2 * (c * k)
  }

  lemma Within(small: set<Rid>, large: set<Rid>, c: nat)
    requires small <= large
    ensures |small| <= |large| && Reserve(c, small) <= Reserve(c, large)
  {
    var rest := large - small;
    assert large == small + rest;
    assert |large| == |small| + |rest|;
  }

  lemma AtMost(s: set<Rid>, k: nat, c: nat)
    requires |s| <= k
    ensures Reserve(c, s) <= c * k
  {
  }

  /** A set of requests in flight can add at most k times c. */
  lemma FewCanAdd(s: State, requests: set<Rid>, scope: Scope, k: nat, c: nat)
    requires requests <= InFlight(s, scope) && |InFlight(s, scope)| <= k
    ensures Reserve(c, requests) <= c * k
  {
    Within(requests, InFlight(s, scope), c);
    AtMost(InFlight(s, scope), k, c);
  }

  lemma OneLess(s: set<Rid>, r: Rid, c: nat)
    requires r in s
    ensures Reserve(c, s - {r}) + c == Reserve(c, s)
  {
    assert |s - {r}| + 1 == |s|;
  }

  /** What one step changes: a charge when it commits, and at most one request or the day otherwise. */
  lemma OnlyCommitsCharge(cfg: Config, s: State, e: Event, day: Day, scope: Scope)
    requires Enabled(s, e) && !e.Commit?
    ensures Spent(Apply(cfg, s, e), day, scope) == Spent(s, day, scope)
  {
  }

  lemma CommitCharges(cfg: Config, s: State, rid: Rid, day: Day, scope: Scope)
    requires Enabled(s, Commit(rid))
    ensures var f := s.flights[rid];
      Spent(Apply(cfg, s, Commit(rid)), day, scope) == Spent(s, day, scope) +
        match scope
        case Platform => if day == f.stage.platformDay then f.stage.cost else 0
        case Of(user) => if f.user == Some(user) && day == f.stage.userDay then f.stage.cost else 0
  {
  }

  lemma StepKeepsOrder(cfg: Config, s: State, e: Event, c: nat)
    requires InOrder(s, c) && Enabled(s, e) && (e.DatePlatform? ==> e.cost <= c)
    ensures InOrder(Apply(cfg, s, e), c)
  {
  }

  lemma FutureIsUnspent(s: State, c: nat, day: Day, scope: Scope)
    requires InOrder(s, c) && s.today < day
    ensures Spent(s, day, scope) == 0
  {
  }

  lemma StepKeepsBounded(cfg: Config, s: State, e: Event, scope: Scope, k: nat, c: nat, day: Day)
    requires Limit(cfg, scope) > 0 && InOrder(s, c) && Bounded(cfg, s, scope, k, c) && Enabled(s, e)
    requires |InFlight(Apply(cfg, s, e), scope)| <= k
    ensures var after := Apply(cfg, s, e);
      Spent(after, day, scope) + Reserve(c, Chargers(after, day, scope)) <= Limit(cfg, scope) - 1 + c * k
  {
    hide Reserve, Spent;
    var after := Apply(cfg, s, e);
    assert Spent(s, day, scope) + Reserve(c, Chargers(s, day, scope)) <= Limit(cfg, scope) - 1 + c * k;
    if e.Commit? {
      CommitCharges(cfg, s, e.rid, day, scope);
      assert Chargers(after, day, scope) == Chargers(s, day, scope) - {e.rid};
      if e.rid in Chargers(s, day, scope) { OneLess(Chargers(s, day, scope), e.rid, c); }
      else { assert Chargers(after, day, scope) == Chargers(s, day, scope); }
    } else {
      OnlyCommitsCharge(cfg, s, e, day, scope);
      if Chargers(after, day, scope) <= Chargers(s, day, scope) {
        Within(Chargers(after, day, scope), Chargers(s, day, scope), c);
      } else {
        NewcomerFindsRoom(cfg, s, e, scope, c, day);
        FewCanAdd(after, Chargers(after, day, scope), scope, k, c);
      }
    }
  }

  /** A step that lets another request charge the day finds it below the ceiling. */
  lemma NewcomerFindsRoom(cfg: Config, s: State, e: Event, scope: Scope, c: nat, day: Day)
    requires Limit(cfg, scope) > 0 && InOrder(s, c) && Enabled(s, e)
    requires !(Chargers(Apply(cfg, s, e), day, scope) <= Chargers(s, day, scope))
    ensures Spent(s, day, scope) <= Limit(cfg, scope) - 1
  {
    var r :| r in Chargers(Apply(cfg, s, e), day, scope) && r !in Chargers(s, day, scope);
    if e.NextDay? { FutureIsUnspent(s, c, day, scope); }
  }

  lemma StepKeepsOffset(cfg: Config, s: State, e: Event, user: User, k: nat, c: nat, day: Day)
    requires InOrder(s, c) && Offset(s, user, k, c) && Enabled(s, e) && |InFlight(Apply(cfg, s, e), Of(user))| <= k
    ensures var after := Apply(cfg, s, e);
      Spent(after, day, Of(user)) + Reserve(c, Straddlers(after, day, user)) <= Spent(after, day, Platform) + c * k
  {
    hide Reserve, Spent;
    var after := Apply(cfg, s, e);
    assert Spent(s, day, Of(user)) + Reserve(c, Straddlers(s, day, user)) <= Spent(s, day, Platform) + c * k;
    if e.Commit? {
      CommitCharges(cfg, s, e.rid, day, Of(user));
      CommitCharges(cfg, s, e.rid, day, Platform);
      assert Straddlers(after, day, user) == Straddlers(s, day, user) - {e.rid};
      if e.rid in Straddlers(s, day, user) { OneLess(Straddlers(s, day, user), e.rid, c); }
      else { assert Straddlers(after, day, user) == Straddlers(s, day, user); }
    } else {
      OnlyCommitsCharge(cfg, s, e, day, Of(user));
      OnlyCommitsCharge(cfg, s, e, day, Platform);
      if Straddlers(after, day, user) <= Straddlers(s, day, user) {
        Within(Straddlers(after, day, user), Straddlers(s, day, user), c);
      } else {
        var r :| r in Straddlers(after, day, user) && r !in Straddlers(s, day, user);
        FutureIsUnspent(s, c, day, Of(user));
        FewCanAdd(after, Straddlers(after, day, user), Of(user), k, c);
      }
    }
  }

  lemma StepKeepsCapped(cfg: Config, s: State, e: Event, user: User, k: nat, c: nat, day: Day)
    requires cfg.platformLimit > 0 && InOrder(s, c) && Offset(s, user, k, c) && Capped(cfg, s, user, k, c)
    requires Enabled(s, e) && |InFlight(Apply(cfg, s, e), Of(user))| <= k
    ensures var after := Apply(cfg, s, e);
      Spent(after, day, Of(user)) + Reserve(c, UserChargers(after, day, user)) <= cfg.platformLimit - 1 + 2 * (c * k)
  {
    hide Reserve, Spent;
    var after := Apply(cfg, s, e);
    assert Spent(s, day, Of(user)) + Reserve(c, UserChargers(s, day, user)) <= cfg.platformLimit - 1 + 2 * (c * k);
    if e.Commit? {
      CommitCharges(cfg, s, e.rid, day, Of(user));
      assert UserChargers(after, day, user) == UserChargers(s, day, user) - {e.rid};
      if e.rid in UserChargers(s, day, user) { OneLess(UserChargers(s, day, user), e.rid, c); }
      else { assert UserChargers(after, day, user) == UserChargers(s, day, user); }
    } else {
      OnlyCommitsCharge(cfg, s, e, day, Of(user));
      if UserChargers(after, day, user) <= UserChargers(s, day, user) {
        Within(UserChargers(after, day, user), UserChargers(s, day, user), c);
      } else {
        FewCanAdd(after, UserChargers(after, day, user), Of(user), k, c);
        AdmittedBelowPlatform(cfg, s, e, user, k, c, day);
      }
    }
  }

  /** A step that lets another request charge the user's day finds the platform below its ceiling, or a new day. */
  lemma AdmittedBelowPlatform(cfg: Config, s: State, e: Event, user: User, k: nat, c: nat, day: Day)
    requires cfg.platformLimit > 0 && InOrder(s, c) && Offset(s, user, k, c) && Enabled(s, e)
    requires !(UserChargers(Apply(cfg, s, e), day, user) <= UserChargers(s, day, user))
    ensures Spent(s, day, Of(user)) <= cfg.platformLimit - 1 + c * k
  {
    hide Reserve;
    var r :| r in UserChargers(Apply(cfg, s, e), day, user) && r !in UserChargers(s, day, user);
    assert Spent(s, day, Of(user)) + Reserve(c, Straddlers(s, day, user)) <= Spent(s, day, Platform) + c * k;
    if e.NextDay? { FutureIsUnspent(s, c, day, Of(user)); }
  }

  // ---- over whole runs --------------------------------------------------------

  function Initial(day: Day): State {
    State(day, map[], map[])
  }

  function Run(cfg: Config, s: State, events: seq<Event>): Option<State>
    decreases events
  {
    if events == [] then Some(s)
    else if Enabled(s, events[0]) then Run(cfg, Apply(cfg, s, events[0]), events[1..])
    else None
  }

  /** Never more than `k` requests of the scope between check and commit, and none costs more than `c`. */
  predicate Moderate(cfg: Config, s: State, events: seq<Event>, scope: Scope, k: nat, c: nat)
    decreases events
  {
    events == [] || (Enabled(s, events[0]) ==>
      && |InFlight(Apply(cfg, s, events[0]), scope)| <= k
      && (events[0].DatePlatform? ==> events[0].cost <= c)
      && Moderate(cfg, Apply(cfg, s, events[0]), events[1..], scope, k, c))
  }

  /** No request of the scope is ever admitted, or none of its charges is positive. */
  predicate Idle(cfg: Config, scope: Scope, k: nat, c: nat) {
    cfg.platformLimit <= 0 || Limit(cfg, scope) <= 0 || k == 0 || c == 0
  }

  /** The most that a day's recorded spend of the scope can come to. */
  function Reach(cfg: Config, scope: Scope, k: nat, c: nat): nat {
    if Idle(cfg, scope, k, c) then 0
    else match scope
      case Platform => cfg.platformLimit - 1 + c * k
      case Of(_) => Min(cfg.userLimit - 1 + c * k, cfg.platformLimit - 1 + 2 * (c * k))
  }

  ghost predicate Unspent(s: State, scope: Scope) {
    forall day: Day :: Spent(s, day, scope) == 0
  }

  ghost predicate Inv(cfg: Config, s: State, scope: Scope, k: nat, c: nat) {
    && InOrder(s, c)
    && (Limit(cfg, scope) > 0 ==> Bounded(cfg, s, scope, k, c))
    && (scope.Of? && cfg.platformLimit > 0 ==> Offset(s, scope.user, k, c) && Capped(cfg, s, scope.user, k, c))
    && (Idle(cfg, scope, k, c) ==> Unspent(s, scope))
    && (cfg.platformLimit <= 0 ==> s.flights == map[])
    && (scope.Of? && cfg.userLimit <= 0 ==> forall r <- InFlight(s, scope) :: s.flights[r].stage.HalfChecked?)
    && |InFlight(s, scope)| <= k
  }

  lemma StepKeepsUnspent(cfg: Config, s: State, e: Event, scope: Scope, k: nat, c: nat)
    requires Inv(cfg, s, scope, k, c) && Enabled(s, e) && Idle(cfg, scope, k, c)
    ensures Unspent(Apply(cfg, s, e), scope)
  {
    hide Bounded, Offset, Capped;
    forall day: Day ensures Spent(Apply(cfg, s, e), day, scope) == 0 {
      assert Spent(s, day, scope) == 0;
      if e.Commit? {
        CommitCharges(cfg, s, e.rid, day, scope);
        assert e.rid in InFlight(s, scope) || (scope.Of? && s.flights[e.rid].user != Some(scope.user));
      } else {
        OnlyCommitsCharge(cfg, s, e, day, scope);
      }
    }
  }

  lemma StepKeepsInv(cfg: Config, s: State, e: Event, scope: Scope, k: nat, c: nat)
    requires Inv(cfg, s, scope, k, c) && Enabled(s, e)
    requires e.DatePlatform? ==> e.cost <= c
    requires |InFlight(Apply(cfg, s, e), scope)| <= k
    ensures Inv(cfg, Apply(cfg, s, e), scope, k, c)
  {
    hide Reserve, InOrder, Chargers, UserChargers, Straddlers, Unspent;
    var after := Apply(cfg, s, e);
    StepKeepsOrder(cfg, s, e, c);
    if Idle(cfg, scope, k, c) { StepKeepsUnspent(cfg, s, e, scope, k, c); }
    assert Limit(cfg, scope) > 0 ==> Bounded(cfg, after, scope, k, c) by {
      if Limit(cfg, scope) > 0 {
        forall day: Day
          ensures Spent(after, day, scope) + Reserve(c, Chargers(after, day, scope)) <= Limit(cfg, scope) - 1 + c * k
        {
          StepKeepsBounded(cfg, s, e, scope, k, c, day);
        }
      }
    }
    if scope.Of? && cfg.platformLimit > 0 {
      forall day: Day
        ensures Spent(after, day, scope) + Reserve(c, Straddlers(after, day, scope.user)) <= Spent(after, day, Platform) + c * k
        ensures Spent(after, day, scope) + Reserve(c, UserChargers(after, day, scope.user)) <= cfg.platformLimit - 1 + 2 * (c * k)
      {
        StepKeepsOffset(cfg, s, e, scope.user, k, c, day);
        StepKeepsCapped(cfg, s, e, scope.user, k, c, day);
      }
    }
  }

  lemma {:induction false} RunKeepsInv(cfg: Config, s: State, events: seq<Event>, scope: Scope, k: nat, c: nat)
    requires Inv(cfg, s, scope, k, c) && Moderate(cfg, s, events, scope, k, c)
    ensures var end := Run(cfg, s, events); end.Some? ==> Inv(cfg, end.value, scope, k, c)
    decreases events
  {
    hide Inv, Apply, Enabled;
    if events != [] && Enabled(s, events[0]) {
      StepKeepsInv(cfg, s, events[0], scope, k, c);
      RunKeepsInv(cfg, Apply(cfg, s, events[0]), events[1..], scope, k, c);
    }
  }

  lemma InitialInv(cfg: Config, start: Day, scope: Scope, k: nat, c: nat)
    ensures Inv(cfg, Initial(start), scope, k, c)
  {
    var s := Initial(start);
    assert InFlight(s, scope) == {};
    AtMost({}, k, c);
    forall day: Day, other: Scope ensures Spent(s, day, other) == 0 && Chargers(s, day, scope) == {} {}
    forall day: Day, user: User ensures Straddlers(s, day, user) == {} && UserChargers(s, day, user) == {} {}
  }

  /**
    In every run with at most `k` of a scope's requests in flight, each costing at most
    `c`, no day's recorded spend in that scope passes its reach, whichever day a request
    that crossed midnight was charged to.
  */
  lemma SpendStaysInReach(cfg: Config, start: Day, events: seq<Event>, scope: Scope, k: nat, c: nat, day: Day)
    requires Moderate(cfg, Initial(start), events, scope, k, c)
    ensures var end := Run(cfg, Initial(start), events);
      end.Some? ==> Spent(end.value, day, scope) <= Reach(cfg, scope, k, c)
  {
    hide Spent, Moderate, Run;
    InitialInv(cfg, start, scope, k, c);
    RunKeepsInv(cfg, Initial(start), events, scope, k, c);
    var end := Run(cfg, Initial(start), events);
    if end.Some? { WithinReach(cfg, end.value, scope, k, c, day); }
  }

  lemma WithinReach(cfg: Config, s: State, scope: Scope, k: nat, c: nat, day: Day)
    requires Inv(cfg, s, scope, k, c)
    ensures Spent(s, day, scope) <= Reach(cfg, scope, k, c)
  {
    hide Spent, InOrder, InFlight;
    if !Idle(cfg, scope, k, c) {
      assert Spent(s, day, scope) + Reserve(c, Chargers(s, day, scope)) <= Limit(cfg, scope) - 1 + c * k;
      if scope.Of? {
        assert Spent(s, day, Of(scope.user)) + Reserve(c, UserChargers(s, day, scope.user)) <= cfg.platformLimit - 1 + 2 * (c * k);
      }
    }
  }

  // ---- the reach is attained --------------------------------------------------

  /** Some run leads from `s` to `t` with at most `k` requests in flight, none costing more than `c`. */
  ghost predicate Goes(cfg: Config, s: State, t: State, scope: Scope, k: nat, c: nat) {
    exists events :: Run(cfg, s, events) == Some(t) && Moderate(cfg, s, events, scope, k, c)
  }

  lemma Stays(cfg: Config, s: State, scope: Scope, k: nat, c: nat)
    ensures Goes(cfg, s, s, scope, k, c)
  {
    assert Run(cfg, s, []) == Some(s);
  }

  lemma GoesOneStep(cfg: Config, s: State, e: Event, scope: Scope, k: nat, c: nat)
    requires Enabled(s, e) && |InFlight(Apply(cfg, s, e), scope)| <= k && (e.DatePlatform? ==> e.cost <= c)
    ensures Goes(cfg, s, Apply(cfg, s, e), scope, k, c)
  {
    var after := Apply(cfg, s, e);
    assert [e][1..] == [];
    assert Run(cfg, after, []) == Some(after) && Moderate(cfg, after, [], scope, k, c);
    assert Run(cfg, s, [e]) == Some(after) && Moderate(cfg, s, [e], scope, k, c);
  }

  lemma GoesOn(cfg: Config, s: State, t: State, u: State, scope: Scope, k: nat, c: nat)
    requires Goes(cfg, s, t, scope, k, c) && Goes(cfg, t, u, scope, k, c)
    ensures Goes(cfg, s, u, scope, k, c)
  {
    var first :| Run(cfg, s, first) == Some(t) && Moderate(cfg, s, first, scope, k, c);
    var second :| Run(cfg, t, second) == Some(u) && Moderate(cfg, t, second, scope, k, c);
    Joined(cfg, s, first, second, scope, k, c);
  }

  lemma {:induction false} Joined(cfg: Config, s: State, first: seq<Event>, more: seq<Event>, scope: Scope, k: nat, c: nat)
    requires Run(cfg, s, first).Some? && Moderate(cfg, s, first, scope, k, c)
    requires Moderate(cfg, Run(cfg, s, first).value, more, scope, k, c)
    ensures Run(cfg, s, first + more) == Run(cfg, Run(cfg, s, first).value, more)
    ensures Moderate(cfg, s, first + more, scope, k, c)
    decreases first
  {
    hide Apply, Enabled;
    if first == [] {
      assert first + more == more;
    } else {
      assert (first + more)[0] == first[0] && (first + more)[1..] == first[1..] + more;
      Joined(cfg, Apply(cfg, s, first[0]), first[1..], more, scope, k, c);
    }
  }

  /** Requests j to n - 1, all at the same stage but for their costs. */
  function Party(s: State, user: Option<User>, j: nat, n: nat, stage: nat -> Stage): State {
    s.(flights := map r: nat | j <= r < n :: Flight(user, stage(r)))
  }

  lemma {:induction false} BelowIsFew(ids: set<Rid>, n: nat)
    requires forall r <- ids :: r < n
    ensures |ids| <= n
  {
    if n > 0 {
      BelowIsFew(ids - {n - 1}, n - 1);
      assert ids <= ids - {n - 1} + {n - 1};
      Within(ids, ids - {n - 1} + {n - 1}, 0);
    } else {
      assert ids == {};
    }
  }

  lemma FewInFlight(s: State, scope: Scope, n: nat)
    requires forall r <- s.flights :: r < n
    ensures |InFlight(s, scope)| <= n
  {
    BelowIsFew(InFlight(s, scope), n);
  }

  function Admitted(s: State, user: Option<User>, n: nat): State { Party(s, user, 0, n, (r: nat) => Running) }

  lemma AdmitOne(cfg: Config, s: State, user: Option<User>, i: nat, scope: Scope, k: nat, c: nat)
    requires !Exhausted(cfg, s, Platform) && (user.Some? ==> !Exhausted(cfg, s, Of(user.value))) && i < k
    ensures Goes(cfg, Admitted(s, user, i), Admitted(s, user, i + 1), scope, k, c)
  {
    hide Goes;
    var from, to := Admitted(s, user, i), Admitted(s, user, i + 1);
    var checked := Apply(cfg, from, CheckPlatform(i, user));
    FewInFlight(checked, scope, i + 1);
    GoesOneStep(cfg, from, CheckPlatform(i, user), scope, k, c);
    if user.None? {
      assert checked == to;
    } else {
      assert Apply(cfg, checked, CheckUser(i)) == to;
      FewInFlight(to, scope, i + 1);
      GoesOneStep(cfg, checked, CheckUser(i), scope, k, c);
      GoesOn(cfg, from, checked, to, scope, k, c);
    }
  }

  lemma {:induction false} AdmitAll(cfg: Config, s: State, user: Option<User>, n: nat, scope: Scope, k: nat, c: nat)
    requires !Exhausted(cfg, s, Platform) && (user.Some? ==> !Exhausted(cfg, s, Of(user.value))) && n <= k
    requires s.flights == map[]
    ensures Goes(cfg, s, Admitted(s, user, n), scope, k, c)
  {
    if n == 0 {
      assert Admitted(s, user, 0) == s;
      Stays(cfg, s, scope, k, c);
    } else {
      AdmitAll(cfg, s, user, n - 1, scope, k, c);
      AdmitOne(cfg, s, user, n - 1, scope, k, c);
      GoesOn(cfg, s, Admitted(s, user, n - 1), Admitted(s, user, n), scope, k, c);
    }
  }

  function DatedStage(user: Option<User>, cost: nat, day: Day): Stage {
    if user.None? then Dated(cost, day, day) else PlatformDated(cost, day)
  }

  function CostOf(costs: seq<nat>, r: nat): nat { if r < |costs| then costs[r] else 0 }

  /** The first i of the requests have their platform charge dated on the state's day. */
  function PartlyDated(s: State, user: Option<User>, costs: seq<nat>, i: nat): State {
    Party(s, user, 0, |costs|, (r: nat) => if r < i then DatedStage(user, CostOf(costs, r), s.today) else Running)
  }

  lemma DateOne(cfg: Config, s: State, user: Option<User>, costs: seq<nat>, i: nat, scope: Scope)
    requires i < |costs|
    ensures var before, to := PartlyDated(s, user, costs, i), PartlyDated(s, user, costs, i + 1);
      && Enabled(before, DatePlatform(i, costs[i])) && Apply(cfg, before, DatePlatform(i, costs[i])) == to
      && |InFlight(to, scope)| <= |costs|
  {
    FewInFlight(PartlyDated(s, user, costs, i + 1), scope, |costs|);
  }

  lemma {:induction false} DateAll(cfg: Config, s: State, user: Option<User>, costs: seq<nat>, i: nat, scope: Scope, k: nat, c: nat)
    requires i <= |costs| <= k && forall cost <- costs :: cost <= c
    ensures Goes(cfg, Admitted(s, user, |costs|), PartlyDated(s, user, costs, i), scope, k, c)
  {
    var from, to := Admitted(s, user, |costs|), PartlyDated(s, user, costs, i);
    if i == 0 {
      assert from == to;
      Stays(cfg, from, scope, k, c);
    } else {
      hide Goes, Apply, Enabled, PartlyDated, InFlight;
      var before, e := PartlyDated(s, user, costs, i - 1), DatePlatform(i - 1, costs[i - 1]);
      DateAll(cfg, s, user, costs, i - 1, scope, k, c);
      DateOne(cfg, s, user, costs, i - 1, scope);
      assert costs[i - 1] in costs;
      GoesOneStep(cfg, before, e, scope, k, c);
      GoesOn(cfg, from, before, to, scope, k, c);
    }
  }

  /** The requests from j on wait to be settled, their platform charge dated on `day`. */
  function Unsettled(s: State, user: Option<User>, costs: seq<nat>, day: Day, j: nat): State {
    Party(s, user, j, |costs|, (r: nat) => DatedStage(user, CostOf(costs, r), day))
  }

  function SumFrom(costs: seq<nat>, j: nat): nat
    decreases |costs| - j
  {
    if j >= |costs| then 0 else costs[j] + SumFrom(costs, j + 1)
  }

  /** What a party's charges add to a day and scope. */
  function Added(user: Option<User>, platformDay: Day, userDay: Day, day: Day, scope: Scope, sum: nat): nat {
    match scope
    case Platform => if day == platformDay then sum else 0
    case Of(u) => if user == Some(u) && day == userDay then sum else 0
  }

  /** A request whose charges are all dated, before those still to be settled. */
  function DatedNext(s: State, user: Option<User>, costs: seq<nat>, day: Day, j: nat): State
    requires j < |costs|
  {
    var rest := Unsettled(s, user, costs, day, j);
    rest.(flights := rest.flights[j := Flight(user, Dated(costs[j], day, if user.None? then day else s.today))])
  }

  lemma DateNext(cfg: Config, s: State, user: Option<User>, costs: seq<nat>, day: Day, j: nat, scope: Scope, k: nat, c: nat)
    requires j < |costs| <= k
    ensures Goes(cfg, Unsettled(s, user, costs, day, j), DatedNext(s, user, costs, day, j), scope, k, c)
  {
    hide Goes;
    var from, to := Unsettled(s, user, costs, day, j), DatedNext(s, user, costs, day, j);
    if user.None? {
      assert from == to;
      Stays(cfg, from, scope, k, c);
    } else {
      assert Apply(cfg, from, DateUser(j)) == to;
      FewInFlight(to, scope, |costs|);
      GoesOneStep(cfg, from, DateUser(j), scope, k, c);
    }
  }

  lemma CommitNext(cfg: Config, s: State, user: Option<User>, costs: seq<nat>, day: Day, j: nat, scope: Scope, k: nat, c: nat)
      returns (t: State)
    requires j < |costs| <= k
    ensures Goes(cfg, DatedNext(s, user, costs, day, j), Unsettled(t, user, costs, day, j + 1), scope, k, c)
    ensures t.today == s.today && Enabled(DatedNext(s, user, costs, day, j), Commit(j))
    ensures t.counters == Apply(cfg, DatedNext(s, user, costs, day, j), Commit(j)).counters
  {
    hide Goes;
    var dated := DatedNext(s, user, costs, day, j);
    var settled := Apply(cfg, dated, Commit(j));
    t := s.(counters := settled.counters);
    assert settled == Unsettled(t, user, costs, day, j + 1);
    FewInFlight(settled, scope, |costs|);
    GoesOneStep(cfg, dated, Commit(j), scope, k, c);
  }

  lemma SettleOne(cfg: Config, s: State, user: Option<User>, costs: seq<nat>, day: Day, j: nat, scope: Scope, k: nat, c: nat)
      returns (t: State)
    requires j < |costs| <= k
    ensures Goes(cfg, Unsettled(s, user, costs, day, j), Unsettled(t, user, costs, day, j + 1), scope, k, c)
    ensures t.today == s.today
    ensures forall d: Day, other ::
      Spent(t, d, other) == Spent(s, d, other) + Added(user, day, if user.None? then day else s.today, d, other, costs[j])
  {
    hide Goes, Apply;
    var dated := DatedNext(s, user, costs, day, j);
    DateNext(cfg, s, user, costs, day, j, scope, k, c);
    t := CommitNext(cfg, s, user, costs, day, j, scope, k, c);
    GoesOn(cfg, Unsettled(s, user, costs, day, j), dated, Unsettled(t, user, costs, day, j + 1), scope, k, c);
    forall d: Day, other
      ensures Spent(t, d, other) == Spent(s, d, other) + Added(user, day, if user.None? then day else s.today, d, other, costs[j])
    {
      CommitCharges(cfg, dated, j, d, other);
    }
  }

  lemma {:induction false} SettleAll(cfg: Config, s: State, user: Option<User>, costs: seq<nat>, day: Day, j: nat, scope: Scope, k: nat, c: nat)
      returns (t: State)
    requires j <= |costs| <= k
    ensures Goes(cfg, Unsettled(s, user, costs, day, j), t, scope, k, c) && t.flights == map[] && t.today == s.today
    ensures forall d: Day, other ::
      Spent(t, d, other) == Spent(s, d, other) + Added(user, day, if user.None? then day else s.today, d, other, SumFrom(costs, j))
    decreases |costs| - j
  {
    if j == |costs| {
      t := Unsettled(s, user, costs, day, j);
      Stays(cfg, t, scope, k, c);
    } else {
      hide Unsettled, Goes, Spent;
      var next := SettleOne(cfg, s, user, costs, day, j, scope, k, c);
      t := SettleAll(cfg, next, user, costs, day, j + 1, scope, k, c);
      GoesOn(cfg, Unsettled(s, user, costs, day, j), Unsettled(next, user, costs, day, j + 1), t, scope, k, c);
    }
  }

  /** All of a party is admitted and has its platform charge dated; with `late`, midnight passes then. */
  lemma Gather(cfg: Config, s: State, user: Option<User>, costs: seq<nat>, late: bool, scope: Scope, k: nat, c: nat)
    requires s.flights == map[] && |costs| <= k && forall cost <- costs :: cost <= c
    requires !Exhausted(cfg, s, Platform) && (user.Some? ==> !Exhausted(cfg, s, Of(user.value)))
    ensures Goes(cfg, s, Unsettled(s.(today := s.today + if late then 1 else 0), user, costs, s.today, 0), scope, k, c)
  {
    hide Goes, Exhausted;
    var n := |costs|;
    var dated, waiting := PartlyDated(s, user, costs, n), Unsettled(s.(today := s.today + if late then 1 else 0), user, costs, s.today, 0);
    AdmitAll(cfg, s, user, n, scope, k, c);
    DateAll(cfg, s, user, costs, n, scope, k, c);
    GoesOn(cfg, s, Admitted(s, user, n), dated, scope, k, c);
    assert waiting == if late then Apply(cfg, dated, NextDay) else dated;
    if late {
      FewInFlight(waiting, scope, n);
      GoesOneStep(cfg, dated, NextDay, scope, k, c);
      GoesOn(cfg, s, dated, waiting, scope, k, c);
    }
  }

  /** All of a party is admitted before any is charged; with `late`, midnight falls between a member's two datings. */
  lemma Burst(cfg: Config, s: State, user: Option<User>, costs: seq<nat>, late: bool, scope: Scope, k: nat, c: nat) returns (t: State)
    requires s.flights == map[] && |costs| <= k && forall cost <- costs :: cost <= c
    requires !Exhausted(cfg, s, Platform) && (user.Some? ==> !Exhausted(cfg, s, Of(user.value)))
    requires late ==> user.Some?
    ensures Goes(cfg, s, t, scope, k, c) && t.flights == map[] && t.today == s.today + (if late then 1 else 0)
    ensures forall d: Day, other :: Spent(t, d, other) == Spent(s, d, other) + Added(user, s.today, t.today, d, other, SumFrom(costs, 0))
  {
    hide Goes, Exhausted, Unsettled;
    var next := s.(today := s.today + if late then 1 else 0);
    Gather(cfg, s, user, costs, late, scope, k, c);
    t := SettleAll(cfg, next, user, costs, s.today, 0, scope, k, c);
    GoesOn(cfg, s, Unsettled(next, user, costs, s.today, 0), t, scope, k, c);
    assert forall d: Day, other :: Spent(next, d, other) == Spent(s, d, other);
  }

  /** One request after another, each costing one unit. */
  lemma {:induction false} Fill(cfg: Config, s: State, user: Option<User>, n: nat, scope: Scope, k: nat, c: nat) returns (t: State)
    requires s.flights == map[] && 1 <= k && 1 <= c
    requires Spent(s, s.today, Platform) + n <= cfg.platformLimit
    requires user.Some? ==> Spent(s, s.today, Of(user.value)) + n <= cfg.userLimit
    ensures Goes(cfg, s, t, scope, k, c) && t.flights == map[] && t.today == s.today
    ensures forall d: Day, other :: Spent(t, d, other) == Spent(s, d, other) + Added(user, s.today, s.today, d, other, n)
    decreases n
  {
    if n == 0 {
      t := s;
      Stays(cfg, s, scope, k, c);
    } else {
      hide Goes, Spent;
      var next := Burst(cfg, s, user, [1], false, scope, k, c);
      assert SumFrom([1], 0) == 1 + SumFrom([1], 1);
      t := Fill(cfg, next, user, n - 1, scope, k, c);
      GoesOn(cfg, s, next, t, scope, k, c);
    }
  }

  /** A total split into k costs of at most c. */
  function Spread(total: nat, k: nat, c: nat): seq<nat>
    requires total <= c * k
  {
    if k == 0 then []
    else
      var cost := Min(total, c);
      assert total - cost <= c * (k - 1) by { assert c * k == c * (k - 1) + c; }
      [cost] + Spread(total - cost, k - 1, c)
  }

  lemma {:induction false} SpreadSums(total: nat, k: nat, c: nat)
    requires total <= c * k
    ensures var costs := Spread(total, k, c);
      |costs| == k && (forall cost <- costs :: cost <= c) && SumFrom(costs, 0) == total
  {
    if k > 0 {
      var cost := Min(total, c);
      assert total - cost <= c * (k - 1) by { assert c * k == c * (k - 1) + c; }
      var rest := Spread(total - cost, k - 1, c);
      SpreadSums(total - cost, k - 1, c);
      SumShift([cost], rest, 0);
    }
  }

  lemma {:induction false} SumShift(head: seq<nat>, rest: seq<nat>, j: nat)
    requires |head| == 1
    ensures SumFrom(head + rest, j + 1) == SumFrom(rest, j)
    decreases |rest| - j
  {
    if j < |rest| { SumShift(head, rest, j + 1); }
  }

  /** The ceiling less one is filled, and then k requests are admitted at once. */
  lemma PlatformReachIsAttained(cfg: Config, start: Day, k: nat, c: nat) returns (t: State)
    requires !Idle(cfg, Platform, k, c)
    ensures Goes(cfg, Initial(start), t, Platform, k, c) && Spent(t, start, Platform) == Reach(cfg, Platform, k, c)
  {
    hide Goes;
    var s := Initial(start);
    var full := Fill(cfg, s, None, cfg.platformLimit - 1, Platform, k, c);
    SpreadSums(c * k, k, c);
    t := Burst(cfg, full, None, Spread(c * k, k, c), false, Platform, k, c);
    GoesOn(cfg, s, full, t, Platform, k, c);
  }

  /** As many of the user's charges as help are carried over midnight first; then the same on the new day. */
  lemma UserReachIsAttained(cfg: Config, start: Day, user: User, k: nat, c: nat) returns (t: State)
    requires !Idle(cfg, Of(user), k, c)
    ensures Goes(cfg, Initial(start), t, Of(user), k, c) && Spent(t, start + 1, Of(user)) == Reach(cfg, Of(user), k, c)
  {
    hide Goes;
    var s, scope := Initial(start), Of(user);
    var carried: nat := if cfg.userLimit <= cfg.platformLimit then 0 else Min(c * k, cfg.userLimit - cfg.platformLimit);
    SpreadSums(carried, k, c);
    var later := Burst(cfg, s, Some(user), Spread(carried, k, c), true, scope, k, c);
    assert Spent(later, start + 1, Platform) == 0 && Spent(later, start + 1, scope) == carried;
    var full := Fill(cfg, later, Some(user), Min(cfg.userLimit, cfg.platformLimit) - 1, scope, k, c);
    SpreadSums(c * k, k, c);
    t := Burst(cfg, full, Some(user), Spread(c * k, k, c), false, scope, k, c);
    GoesOn(cfg, s, later, full, scope, k, c);
    GoesOn(cfg, s, full, t, scope, k, c);
  }

  lemma ReachIsAttained(cfg: Config, start: Day, scope: Scope, k: nat, c: nat) returns (t: State, day: Day)
    ensures Goes(cfg, Initial(start), t, scope, k, c) && Spent(t, day, scope) == Reach(cfg, scope, k, c)
  {
    hide Goes;
    if Idle(cfg, scope, k, c) {
      t, day := Initial(start), start;
      Stays(cfg, t, scope, k, c);
    } else {
      match scope
      case Platform =>
        day := start;
        t := PlatformReachIsAttained(cfg, start, k, c);
      case Of(user) =>
        day := start + 1;
        t := UserReachIsAttained(cfg, start, user, k, c);
    }
  }

  // ---- when the ceiling holds -------------------------------------------------

  /** No run with at most k requests in flight, each costing at most c, takes a day's spend past `most`. */
  ghost predicate Holds(cfg: Config, start: Day, scope: Scope, k: nat, c: nat, most: nat) {
    forall t, day: Day :: Goes(cfg, Initial(start), t, scope, k, c) ==> Spent(t, day, scope) <= most
  }

  /** The reach is the exact bound. */
  lemma ReachIsExact(cfg: Config, start: Day, scope: Scope, k: nat, c: nat, most: nat)
    ensures Holds(cfg, start, scope, k, c, most) <==> Reach(cfg, scope, k, c) <= most
  {
    var t, day := ReachIsAttained(cfg, start, scope, k, c);
    if Reach(cfg, scope, k, c) <= most {
      forall u, d: Day | Goes(cfg, Initial(start), u, scope, k, c) ensures Spent(u, d, scope) <= most {
        var events :| Run(cfg, Initial(start), events) == Some(u) && Moderate(cfg, Initial(start), events, scope, k, c);
        SpendStaysInReach(cfg, start, events, scope, k, c, d);
      }
    }
  }

  function Ceiling(cfg: Config, scope: Scope): nat { Max(0, Limit(cfg, scope)) }

  /**
    The ceiling is a hard stop exactly when nothing is admitted, or the requests in
    flight can cost one unit at most together, or, for a user, the platform's ceiling
    is so much lower that it stops them first.
  */
  lemma CeilingHoldsExactly(cfg: Config, start: Day, scope: Scope, k: nat, c: nat)
    ensures Holds(cfg, start, scope, k, c, Ceiling(cfg, scope)) <==>
      || cfg.platformLimit <= 0 || Limit(cfg, scope) <= 0 || k * c <= 1
      || (scope.Of? && cfg.platformLimit - 1 + 2 * (k * c) <= cfg.userLimit)
  {
    hide Holds;
    ReachIsExact(cfg, start, scope, k, c, Ceiling(cfg, scope));
    assert k * c == c * k;
    assert k == 0 || c == 0 ==> k * c == 0;
    assert k >= 1 && c >= 1 ==> k * c >= 1;
  }
}
