/**
  What the transaction that records a generation waits for: the platform's counter row,
  then the user's, then the unique key of the stored result. Each is held until the
  transaction ends.
*/
module GenerationLocks {
  import opened Options

  type Pid = nat
  type Day = nat

  datatype Resource = PlatformRow(day: Day) | UserRow(day: Day, user: nat) | ResultKey(key: nat)

  /** Holds the first `taken` resources of its plan. */
  datatype Transaction = Transaction(plan: seq<Resource>, taken: nat)

  type State = map<Pid, Transaction>

  datatype Step = Take(p: Pid) | End(p: Pid)

  /** The order in which a recorded charge, and the store after it, touch their rows. */
  function Plan(platformDay: Day, userDay: Day, user: Option<nat>, key: Option<nat>): seq<Resource> {
    [PlatformRow(platformDay)]
    + (if user.Some? then [UserRow(userDay, user.value)] else [])
    + (if key.Some? then [ResultKey(key.value)] else [])
  }

  /** The transaction follows such a plan. */
  ghost predicate Recording(t: Transaction) {
    t.taken <= |t.plan| &&
    exists platformDay, userDay, user, key :: t.plan == Plan(platformDay, userDay, user, key)
  }

  predicate Climbs(plan: seq<Resource>) {
    forall i, j :: 0 <= i < j < |plan| ==> Rank(plan[i]) < Rank(plan[j])
  }

  function Rank(r: Resource): nat {
    match r
    case PlatformRow(_) => 0
    case UserRow(_, _) => 1
    case ResultKey(_) => 2
  }

  predicate Holds(s: State, p: Pid, r: Resource) {
    p in s && s[p].taken <= |s[p].plan| && r in s[p].plan[..s[p].taken]
  }

  /** A resource is taken when no other transaction holds it; a transaction ends when it has all of its plan. */
  ghost predicate Enabled(s: State, step: Step) {
    match step
    case Take(p) => p in s && s[p].taken < |s[p].plan| && forall q :: q != p ==> !Holds(s, q, s[p].plan[s[p].taken])
    case End(p) => p in s && s[p].taken == |s[p].plan|
  }

  /** How far up the order of resources a transaction has climbed. */
  function Height(t: Transaction): nat {
    if 0 < t.taken <= |t.plan| then Rank(t.plan[t.taken - 1]) + 1 else 0
  }

  lemma {:induction false} Highest(s: State, ps: set<Pid>) returns (p: Pid)
    requires ps != {} && ps <= s.Keys
    ensures p in ps && p in s && forall q <- ps :: q in s && Height(s[q]) <= Height(s[p])
  {
    p :| p in ps;
    if ps != {p} {
      var rest := Highest(s, ps - {p});
      if Height(s[rest]) > Height(s[p]) { p := rest; }
    }
  }

  /** Every plan climbs. */
  lemma PlansClimb(t: Transaction)
    requires Recording(t)
    ensures Climbs(t.plan)
  {
  }

  /** However many recording transactions have taken however much of their plans, one of them can go on. */
  lemma NoCircularWait(s: State) returns (p: Pid)
    requires s != map[] && forall q <- s :: Recording(s[q])
    ensures Enabled(s, Take(p)) || Enabled(s, End(p))
  {
    hide Recording;
    var any :| any in s;
    p := Highest(s, s.Keys);
    assert s[p].taken <= |s[p].plan| by { WithinPlan(s[p]); }
    if s[p].taken < |s[p].plan| {
      var next := s[p].plan[s[p].taken];
      PlansClimb(s[p]);
      assert Height(s[p]) <= Rank(next);
      forall q ensures !Holds(s, q, next) {
        if Holds(s, q, next) {
          PlansClimb(s[q]);
          HolderIsHigher(s, q, next);
        }
      }
      assert Enabled(s, Take(p));
    }
  }

  lemma WithinPlan(t: Transaction)
    requires Recording(t)
    ensures t.taken <= |t.plan|
  {
  }

  lemma HolderIsHigher(s: State, q: Pid, r: Resource)
    requires Holds(s, q, r) && Climbs(s[q].plan)
    ensures Rank(r) < Height(s[q])
  {
    var i :| 0 <= i < s[q].taken && s[q].plan[i] == r;
  }

  // ---- what the steps do ------------------------------------------------------

  function Apply(s: State, step: Step): State
    requires step.p in s
  {
    match step
    case Take(p) => s[p := s[p].(taken := s[p].taken + 1)]
    case End(p) => s - {p}
  }

  /** A transaction holds the part of its plan that it has taken, all of it in the end. */
  predicate Has(s: State, p: Pid, r: Resource) {
    p in s && exists i :: 0 <= i < s[p].taken && i < |s[p].plan| && s[p].plan[i] == r
  }

  ghost predicate Exclusive(s: State) {
    forall p, q, r :: p != q && Has(s, p, r) ==> !Has(s, q, r)
  }

  /** No two transactions ever have one resource. */
  lemma StepKeepsExclusive(s: State, step: Step)
    requires Exclusive(s) && (forall t <- s.Values :: Recording(t)) && Enabled(s, step)
    ensures Exclusive(Apply(s, step)) && forall t <- Apply(s, step).Values :: Recording(t)
  {
    var after := Apply(s, step);
    forall t <- after.Values ensures Recording(t) {
      if step.Take? {
        var was := s[step.p];
        assert was in s.Values;
        if t == after[step.p] { Continues(was); }
      }
    }
    forall p, q, r | p != q && Has(after, p, r) ensures !Has(after, q, r) {
      HasAfter(s, step, p, r);
      HasAfter(s, step, q, r);
      if step.Take? {
        if p == step.p && Has(s, q, r) { assert s[q] in s.Values; HasIsHolds(s, q, r); }
        if q == step.p && Has(s, p, r) { assert s[p] in s.Values; HasIsHolds(s, p, r); }
      }
    }
  }

  lemma Continues(t: Transaction)
    requires Recording(t) && t.taken < |t.plan|
    ensures Recording(t.(taken := t.taken + 1))
  {
  }

  lemma HasIsHolds(s: State, p: Pid, r: Resource)
    requires p in s && Recording(s[p])
    ensures Has(s, p, r) <==> Holds(s, p, r)
  {
    WithinPlan(s[p]);
    if Has(s, p, r) {
      var i :| 0 <= i < s[p].taken && i < |s[p].plan| && s[p].plan[i] == r;
      assert s[p].plan[..s[p].taken][i] == r;
    }
  }

  /** A step gives its transaction the next resource of its plan, or takes from it all that it has; no other is concerned. */
  lemma HasAfter(s: State, step: Step, p: Pid, r: Resource)
    requires Enabled(s, step)
    ensures Has(Apply(s, step), p, r) <==>
      if p != step.p then Has(s, p, r)
      else step.Take? && (Has(s, p, r) || s[p].plan[s[p].taken] == r)
  {
    var after := Apply(s, step);
    if p == step.p && step.Take? {
      var n := s[p].taken;
      assert after[p].plan == s[p].plan && after[p].taken == n + 1;
      if Has(s, p, r) {
        var i :| 0 <= i < n && i < |s[p].plan| && s[p].plan[i] == r;
        assert after[p].plan[i] == r;
      }
      if s[p].plan[n] == r { assert after[p].plan[n] == r; }
    } else if p in s && p in after {
      assert after[p] == s[p];
    }
  }
}
