/**
  Requests that read a row, decide on what they read, and write it back without a lock:
  a refresh token's `used_at`, the last accepted time step of a second factor, the count
  of failed sign-ins, the attempts of a job. The row is reduced to the number that says
  how often it was written; what a request read may be out of date when it writes.
*/
module Overlap {
  type Rid = nat

  /** `copies` holds what each open request has read, `writes` counts the writes that were made. */
  datatype State = State(row: nat, copies: map<Rid, nat>, writes: nat)

  datatype Step = Read(r: Rid) | Write(r: Rid) | Drop(r: Rid)

  /** A request writes only on a row that it read as written fewer than `most` times. */
  predicate Enabled(s: State, step: Step, most: nat) {
    match step
    case Read(r) => r !in s.copies
    case Write(r) => r in s.copies && s.copies[r] < most
    case Drop(r) => r in s.copies
  }

  function Apply(s: State, step: Step, most: nat): State
    requires Enabled(s, step, most)
  {
    match step
    case Read(r) => s.(copies := s.copies[r := s.row])
    case Write(r) => State(s.copies[r] + 1, s.copies - {r}, s.writes + 1)
    case Drop(r) => s.(copies := s.copies - {r})
  }

  function Initial(): State { State(0, map[], 0) }

  /** The requests that another one has written past since they read. */
  function NowOvertaken(s: State, overtaken: set<Rid>, step: Step): set<Rid> {
    match step
    case Read(r) => overtaken - {r}
    case Write(r) => s.copies.Keys - {r}
    case Drop(r) => overtaken - {r}
  }

  /** No request of the run writes after another has written between its read and its write. */
  predicate NoneOvertaken(s: State, overtaken: set<Rid>, steps: seq<Step>, most: nat)
    decreases steps
  {
    steps == [] || (Enabled(s, steps[0], most) ==>
      && (steps[0].Write? ==> steps[0].r !in overtaken)
      && NoneOvertaken(Apply(s, steps[0], most), NowOvertaken(s, overtaken, steps[0]), steps[1..], most))
  }

  /** In every state of the run the row counts the writes. */
  predicate Counted(s: State, steps: seq<Step>, most: nat)
    decreases steps
  {
    s.row == s.writes && (steps != [] && Enabled(s, steps[0], most) ==> Counted(Apply(s, steps[0], most), steps[1..], most))
  }

  /** In every state of the run at most `most` writes were made. */
  predicate Limited(s: State, steps: seq<Step>, most: nat)
    decreases steps
  {
    s.writes <= most && (steps != [] && Enabled(s, steps[0], most) ==> Limited(Apply(s, steps[0], most), steps[1..], most))
  }

  /** While the row counts the writes, exactly the overtaken requests hold an old number. */
  ghost predicate Tracked(s: State, overtaken: set<Rid>) {
    && overtaken <= s.copies.Keys && s.row == s.writes
    && forall r <- s.copies :: if r in overtaken then s.copies[r] < s.row else s.copies[r] == s.row
  }

  lemma StepKeepsTracked(s: State, overtaken: set<Rid>, step: Step, most: nat)
    requires Tracked(s, overtaken) && Enabled(s, step, most)
    ensures var after := Apply(s, step, most);
      if step.Write? && step.r in overtaken then after.row < after.writes else Tracked(after, NowOvertaken(s, overtaken, step))
  {
  }

  /** From any state in which the row counts the writes. */
  lemma {:induction false} CountedExactlyFrom(s: State, overtaken: set<Rid>, steps: seq<Step>, most: nat)
    requires Tracked(s, overtaken)
    ensures Counted(s, steps, most) <==> NoneOvertaken(s, overtaken, steps, most)
    decreases steps
  {
    if steps != [] && Enabled(s, steps[0], most) {
      StepKeepsTracked(s, overtaken, steps[0], most);
      if !(steps[0].Write? && steps[0].r in overtaken) {
        CountedExactlyFrom(Apply(s, steps[0], most), NowOvertaken(s, overtaken, steps[0]), steps[1..], most);
      }
    }
  }

  /** In every interleaving, no write is lost from the count if and only if no request writes after being overtaken. */
  lemma CountedExactlyWhenNoneOvertaken(steps: seq<Step>, most: nat)
    ensures Counted(Initial(), steps, most) <==> NoneOvertaken(Initial(), {}, steps, most)
  {
    CountedExactlyFrom(Initial(), {}, steps, most);
  }

  lemma {:induction false} CountedIsLimited(s: State, steps: seq<Step>, most: nat)
    requires Counted(s, steps, most) && s.writes <= most && forall r <- s.copies :: s.copies[r] <= s.writes
    ensures Limited(s, steps, most)
    decreases steps
  {
    if steps != [] && Enabled(s, steps[0], most) { CountedIsLimited(Apply(s, steps[0], most), steps[1..], most); }
  }

  /** What holds of a row that at most one request should write: it is unwritten, or written and never read so again. */
  ghost predicate UsedOnce(s: State, overtaken: set<Rid>) {
    Tracked(s, overtaken) && s.writes <= 1
  }

  lemma {:induction false} SingleUseFrom(s: State, overtaken: set<Rid>, steps: seq<Step>)
    requires UsedOnce(s, overtaken)
    ensures Limited(s, steps, 1) <==> NoneOvertaken(s, overtaken, steps, 1)
    decreases steps
  {
    if steps != [] && Enabled(s, steps[0], 1) {
      StepKeepsTracked(s, overtaken, steps[0], 1);
      if !(steps[0].Write? && steps[0].r in overtaken) {
        SingleUseFrom(Apply(s, steps[0], 1), NowOvertaken(s, overtaken, steps[0]), steps[1..]);
      }
    }
  }

  /**
    In every interleaving, a token or a code is used at most once if and only if no
    request uses it after another has used it between its read and its write.
  */
  lemma SingleUseExactlyWhenNoneOvertaken(steps: seq<Step>)
    ensures Limited(Initial(), steps, 1) <==> NoneOvertaken(Initial(), {}, steps, 1)
  {
    SingleUseFrom(Initial(), {}, steps);
  }

  /** And any number of writes pass a limit of at least one when that many requests have read the row before the first writes. */
  function Reads(n: nat): seq<Step> { if n == 0 then [] else Reads(n - 1) + [Read(n - 1)] }

  function Unwritten(r: Rid): nat { 0 }

  /** n requests have read the row, and those from i on have not written it. */
  function Waiting(n: nat, i: nat): State {
    State(if i == 0 then 0 else 1, map r: Rid | i <= r < n :: Unwritten(r), i)
  }

  function Writes(n: nat, i: nat): seq<Step>
    requires i <= n
    decreases n - i
  {
    if i == n then [] else [Write(i)] + Writes(n, i + 1)
  }

  function Run(s: State, steps: seq<Step>, most: nat): State
    decreases steps
  {
    if steps == [] || !Enabled(s, steps[0], most) then s else Run(Apply(s, steps[0], most), steps[1..], most)
  }

  lemma {:induction false} AllRead(n: nat, more: seq<Step>, most: nat)
    ensures Run(Initial(), Reads(n) + more, most) == Run(Waiting(n, 0), more, most)
  {
    if n == 0 {
      assert Reads(0) + more == more && Waiting(0, 0) == Initial();
    } else {
      var next := [Read(n - 1)] + more;
      assert Reads(n) + more == Reads(n - 1) + next;
      AllRead(n - 1, next, most);
      assert next[1..] == more;
      assert Apply(Waiting(n - 1, 0), Read(n - 1), most) == Waiting(n, 0);
    }
  }

  lemma {:induction false} AllWrite(n: nat, i: nat, most: nat)
    requires i <= n && 1 <= most
    ensures Run(Waiting(n, i), Writes(n, i), most) == Waiting(n, n)
    decreases n - i
  {
    if i < n {
      assert Writes(n, i)[1..] == Writes(n, i + 1);
      assert Apply(Waiting(n, i), Write(i), most) == Waiting(n, i + 1);
      AllWrite(n, i + 1, most);
    }
  }

  /** However low the limit, n overlapping requests all pass it, and the row counts one of them. */
  lemma OverlapPassesEveryLimit(n: nat, most: nat)
    requires 1 <= n && 1 <= most
    ensures var end := Run(Initial(), Reads(n) + Writes(n, 0), most); end.writes == n && end.row == 1
  {
    AllRead(n, Writes(n, 0), most);
    AllWrite(n, 0, most);
  }

  /** With nothing in between, a request writes if and only if the row is below the limit, and then it counts; one that is given up leaves no trace. */
  lemma AloneCountsExactly(s: State, r: Rid, most: nat)
    requires r !in s.copies
    ensures Run(s, [Read(r), Write(r)], most) ==
      if s.row < most then State(s.row + 1, s.copies, s.writes + 1) else s.(copies := s.copies[r := s.row])
    ensures Run(s, [Read(r), Drop(r)], most) == s && !Enabled(s, Drop(r), most)
  {
    assert [Read(r), Write(r)][1..] == [Write(r)] && [Read(r), Drop(r)][1..] == [Drop(r)];
    assert s.copies[r := s.row] - {r} == s.copies;
    var read := Apply(s, Read(r), most);
    assert Run(read, [Drop(r)], most) == Run(Apply(read, Drop(r), most), [], most);
    if s.row < most { assert Run(read, [Write(r)], most) == Run(Apply(read, Write(r), most), [], most); }
  }
}
