/** Several kinds generated one after another for one book, with a partial result. */
module GenerateBatch {

  type Kind = string

  /** What generating one kind comes to: a result at a cost, no budget or provider left, or another error. */
  datatype Attempt = Generated(cost: nat) | Unavailable | Error

  datatype Response = Response(results: map<Kind, nat>, failed: seq<Kind>, total: nat)

  /** `|results| + |failed|` is taken as the position in `kinds` when the batch is cut short. */
  function CutFrom(kinds: seq<Kind>, done: nat): seq<Kind> {
    if done <= |kinds| then kinds[done..] else []
  }

  /** The response after handling the kinds from `i` on. */
  function Continue(kinds: seq<Kind>, attempts: seq<Attempt>, i: nat, r: Response): Response
    requires |attempts| == |kinds| && i <= |kinds|
    decreases |kinds| - i
  {
    if i == |kinds| then r
    else
      match attempts[i]
      case Unavailable => r.(failed := r.failed + CutFrom(kinds, |r.results| + |r.failed|))
      case Error => Continue(kinds, attempts, i + 1, r.(failed := r.failed + [kinds[i]]))
      case Generated(cost) =>
        Continue(kinds, attempts, i + 1, r.(results := r.results[kinds[i] := cost], total := r.total + cost))
  }

  method Run(kinds: seq<Kind>, attempts: seq<Attempt>) returns (response: Response)
    requires |attempts| == |kinds|
    ensures response == Continue(kinds, attempts, 0, Response(map[], [], 0))
  {
    var results: map<Kind, nat> := map[];
    var failed: seq<Kind> := [];
    var total := 0;
    var i := 0;
    while i < |kinds|
      invariant i <= |kinds|
      invariant Continue(kinds, attempts, 0, Response(map[], [], 0)) ==
        Continue(kinds, attempts, i, Response(results, failed, total))
    {
      match attempts[i] {
        case Unavailable =>
          failed := failed + CutFrom(kinds, |results| + |failed|);
          return Response(results, failed, total);
        case Error => failed := failed + [kinds[i]];
        case Generated(cost) =>
          results := results[kinds[i] := cost];
          total := total + cost;
      }
      i := i + 1;
    }
    response := Response(results, failed, total);
  }

  predicate Distinct(kinds: seq<Kind>) {
    forall i, j :: 0 <= i < j < |kinds| ==> kinds[i] != kinds[j]
  }

  /** Every requested kind is reported as a result or as failed, never as both, and nothing else is. */
  ghost predicate Partitions(kinds: seq<Kind>, r: Response) {
    && (forall k :: k in kinds <==> k in r.results || k in r.failed)
    && (forall k <- r.failed :: k !in r.results)
  }

  ghost predicate Progress(kinds: seq<Kind>, i: nat, r: Response)
    requires i <= |kinds|
  {
    Partitions(kinds[..i], r) && |r.results| + |r.failed| == i
  }

  lemma NextIsNew(kinds: seq<Kind>, i: nat, r: Response)
    requires i < |kinds| && Distinct(kinds) && Progress(kinds, i, r)
    ensures kinds[i] !in r.results && kinds[i] !in r.failed
    ensures forall k :: k in kinds[..i + 1] <==> k == kinds[i] || k in kinds[..i]
  {
    assert kinds[..i + 1] == kinds[..i] + [kinds[i]];
    assert kinds[i] !in kinds[..i];
  }

  lemma CutShortPartitions(kinds: seq<Kind>, i: nat, r: Response)
    requires i <= |kinds| && Distinct(kinds) && Progress(kinds, i, r)
    ensures Partitions(kinds, r.(failed := r.failed + CutFrom(kinds, |r.results| + |r.failed|)))
  {
    assert kinds == kinds[..i] + kinds[i..];
    forall k | k in kinds[i..] ensures k !in kinds[..i] {}
  }

  lemma NextKeepsProgress(kinds: seq<Kind>, i: nat, r: Response, cost: nat)
    requires i < |kinds| && Distinct(kinds) && Progress(kinds, i, r)
    ensures Progress(kinds, i + 1, r.(failed := r.failed + [kinds[i]]))
    ensures Progress(kinds, i + 1, r.(results := r.results[kinds[i] := cost], total := r.total + cost))
  {
    NextIsNew(kinds, i, r);
  }

  lemma AllDonePartitions(kinds: seq<Kind>, r: Response)
    requires Progress(kinds, |kinds|, r)
    ensures Partitions(kinds, r)
  {
    assert kinds[..|kinds|] == kinds;
  }

  lemma {:induction false} DistinctKindsPartition(kinds: seq<Kind>, attempts: seq<Attempt>, i: nat, r: Response)
    requires |attempts| == |kinds| && i <= |kinds| && Distinct(kinds) && Progress(kinds, i, r)
    ensures Partitions(kinds, Continue(kinds, attempts, i, r))
    decreases |kinds| - i
  {
    hide Distinct, Progress, Partitions, CutFrom;
    if i == |kinds| {
      AllDonePartitions(kinds, r);
    } else {
      if attempts[i].Unavailable? {
        CutShortPartitions(kinds, i, r);
      } else {
        var cost := if attempts[i].Generated? then attempts[i].cost else 0;
        var next := if attempts[i].Error? then r.(failed := r.failed + [kinds[i]])
          else r.(results := r.results[kinds[i] := cost], total := r.total + cost);
        NextKeepsProgress(kinds, i, r, cost);
        assert Continue(kinds, attempts, i, r) == Continue(kinds, attempts, i + 1, next);
        DistinctKindsPartition(kinds, attempts, i + 1, next);
      }
    }
  }

  /** All attempts up to j succeed, and the one at j is another error. */
  lemma {:induction false} RepeatedKindIsBoth(kinds: seq<Kind>, i: nat, j: nat, r: Response, attempts: seq<Attempt>)
    requires |attempts| == |kinds| && i <= j < |kinds|
    requires kinds[j] in kinds[i..j] || kinds[j] in r.results
    requires forall n :: 0 <= n < |kinds| ==> attempts[n] == if n == j then Error else Generated(0)
    ensures var end := Continue(kinds, attempts, i, r); kinds[j] in end.results && kinds[j] in end.failed
    decreases j - i
  {
    if i == j {
      FailedOnlyGrows(kinds, attempts, j + 1, r.(failed := r.failed + [kinds[j]]), kinds[j]);
    } else {
      RepeatedKindIsBoth(kinds, i + 1, j, r.(results := r.results[kinds[i] := 0]), attempts);
    }
  }

  lemma {:induction false} FailedOnlyGrows(kinds: seq<Kind>, attempts: seq<Attempt>, i: nat, r: Response, k: Kind)
    requires |attempts| == |kinds| && i <= |kinds| && k in r.failed && k in r.results
    ensures var end := Continue(kinds, attempts, i, r); k in end.failed && k in end.results
    decreases |kinds| - i
  {
    if i < |kinds| {
      match attempts[i]
      case Unavailable =>
      case Error => FailedOnlyGrows(kinds, attempts, i + 1, r.(failed := r.failed + [kinds[i]]), k);
      case Generated(cost) =>
        FailedOnlyGrows(kinds, attempts, i + 1, r.(results := r.results[kinds[i] := cost], total := r.total + cost), k);
    }
  }

  /** The partial result accounts for every kind once, however the attempts turn out, iff no kind is repeated. */
  lemma BatchPartitionsExactly(kinds: seq<Kind>)
    ensures Distinct(kinds) <==> forall attempts: seq<Attempt> :: |attempts| == |kinds| ==>
      Partitions(kinds, Continue(kinds, attempts, 0, Response(map[], [], 0)))
  {
    if Distinct(kinds) {
      forall attempts: seq<Attempt> | |attempts| == |kinds|
        ensures Partitions(kinds, Continue(kinds, attempts, 0, Response(map[], [], 0)))
      {
        DistinctKindsPartition(kinds, attempts, 0, Response(map[], [], 0));
      }
    } else {
      var i, j :| 0 <= i < j < |kinds| && kinds[i] == kinds[j];
      var attempts := seq(|kinds|, n => if n == j then Error else Generated(0));
      assert kinds[0..j][i] == kinds[j];
      RepeatedKindIsBoth(kinds, 0, j, Response(map[], [], 0), attempts);
    }
  }
}
