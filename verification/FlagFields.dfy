/** What each column of a flag holds: what was last given for it since the flag was last created. */
module FlagFields {
  import opened Options
  import opened FlagModel

  /** The last request to create or delete the flag was to create it. */
  predicate Exists(events: seq<Event>, key: string) {
    events != [] &&
    var n := |events| - 1;
    match events[n].request
    case Create(k, _) => k == key || Exists(events[..n], key)
    case Delete(k) => k != key && Exists(events[..n], key)
    case _ => Exists(events[..n], key)
  }

  /** The last value given for a column: by a change that names it, or by the flag's creation. */
  function LastGiven<T>(events: seq<Event>, key: string, column: Flag -> T, change: Changes -> Option<T>): Option<T> {
    if events == [] then None
    else
      var n := |events| - 1;
      var before := events[..n];
      match events[n].request
      case Create(k, flag) =>
        if k == key && !Exists(before, key) then Some(column(flag)) else LastGiven(before, key, column, change)
      case Update(k, changes) =>
        if k == key && Exists(before, key) && change(changes).Some? then change(changes)
        else LastGiven(before, key, column, change)
      case _ => LastGiven(before, key, column, change)
  }

  /** The flag is stored exactly while it exists. */
  lemma {:induction false} StoredExactly(retention: int, events: seq<Event>, key: string)
    ensures key in Run(retention, events).flags <==> Exists(events, key)
  {
    if events != [] { StoredExactly(retention, events[..|events| - 1], key); }
  }

  /** In every run, each column of a stored flag holds what was last given for it. */
  lemma {:induction false} ColumnsAreAsLastGiven(retention: int, events: seq<Event>, key: string)
    requires Exists(events, key)
    ensures key in Run(retention, events).flags
    ensures var f := Run(retention, events).flags[key];
      && Some(f.enabled) == LastGiven(events, key, (x: Flag) => x.enabled, (c: Changes) => c.enabled)
      && Some(f.description) == LastGiven(events, key, (x: Flag) => x.description, (c: Changes) => c.description)
      && Some(f.rollout) == LastGiven(events, key, (x: Flag) => x.rollout, (c: Changes) => c.rollout)
      && Some(f.allowlist) == LastGiven(events, key, (x: Flag) => x.allowlist, (c: Changes) => c.allowlist)
  {
    StoredExactly(retention, events, key);
    var n := |events| - 1;
    StoredExactly(retention, events[..n], key);
    if Exists(events[..n], key) { ColumnsAreAsLastGiven(retention, events[..n], key); }
  }

  /** Each effective request writes one audit row, with its label and time, and none of the others does. */
  lemma OneRowPerChange(retention: int, db: Db, now: int, request: Request)
    requires !request.PruneAudits?
    ensures var after := Step(retention, db, now, request);
      var effective := if request.Create? then request.key !in db.flags else request.key in db.flags;
      if effective then
        && |after.audits| == |db.audits| + 1 && after.audits[..|db.audits|] == db.audits
        && var row := after.audits[|db.audits|];
        && row.key == request.key && row.at == now
        && (row.action == Created <==> request.Create?) && (row.action == Deleted <==> request.Delete?)
        && (row.before.Some? <==> request.key in db.flags) && (row.after.Some? <==> request.key in after.flags)
        && (row.before.Some? ==> row.before.value == db.flags[request.key])
        && (row.after.Some? ==> row.after.value == after.flags[request.key])
      else after == db
  {
  }

  /** Pruning keeps exactly the rows that are not older than the retention, in their order. */
  lemma {:induction false} SinceKeepsExactly(audits: seq<Audit>, cutoff: int, row: Audit)
    ensures multiset(Since(audits, cutoff))[row] == if row.at < cutoff then 0 else multiset(audits)[row]
  {
    if audits != [] {
      assert audits == [audits[0]] + audits[1..];
      SinceKeepsExactly(audits[1..], cutoff, row);
    }
  }

  // ---- the reason given -------------------------------------------------------

  /** An evaluation is on exactly for the reasons that say so, and each reason is true. */
  lemma ReasonIsTrue(env: Env, flags: map<string, Flag>, key: string, user: Option<Id>)
    ensures var e, k := Evaluate(env, flags, key, user), Normal(env, key);
      && (e.reason == UnknownFlag <==> k !in flags)
      && (k in flags ==>
        var f := flags[k];
        var listed := user.Some? && user.value in f.allowlist;
        && (e.reason == FlagDisabled <==> !f.enabled)
        && (e.reason == Allowlisted <==> f.enabled && listed)
        && (e.reason == FullyRolledOut <==> f.enabled && !listed && 100 <= f.rollout)
        && (e.reason == RolloutZero <==> f.enabled && !listed && f.rollout <= 0)
        && (e.reason == NoUserForRollout <==> f.enabled && user.None? && 0 < f.rollout < 100)
        && (e.reason.RolloutBucket? ==>
          user.Some? && e.reason.of == f.rollout && e.reason.bucket == env.hash(key, user.value) % 100 < 100))
      && (e.enabled <==>
        e.reason == Allowlisted || e.reason == FullyRolledOut || (e.reason.RolloutBucket? && e.reason.bucket < e.reason.of))
  {
    hide Normal;
  }
}
