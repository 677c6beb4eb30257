/**
  Feature flags, their audit trail, and the decision for one user. Keys are stored
  normalised; the user hash is a parameter.
*/
module FlagModel {
  import opened Options
  import opened Strings

  type Id = nat

  /** What a snapshot records. */
  datatype Flag = Flag(enabled: bool, description: string, rollout: int, allowlist: seq<Id>)

  datatype Action = Created | Updated | Deleted

  /** An absent side is the empty record. */
  datatype Audit = Audit(key: string, action: Action, before: Option<Flag>, after: Option<Flag>, at: int)

  datatype Changes = Changes(
    enabled: Option<bool>, description: Option<string>, rollout: Option<int>, allowlist: Option<seq<Id>>)

  /** The audit rows in the order they were written. */
  datatype Db = Db(flags: map<string, Flag>, audits: seq<Audit>)

  datatype Request =
    | Create(key: string, flag: Flag)
    | Update(key: string, changes: Changes)
    | Delete(key: string)
    | PruneAudits

  function Or<T>(o: Option<T>, otherwise: T): T {
    if o.Some? then o.value else otherwise
  }

  function Changed(f: Flag, c: Changes): Flag {
    Flag(Or(c.enabled, f.enabled), Or(c.description, f.description), Or(c.rollout, f.rollout), Or(c.allowlist, f.allowlist))
  }

  function Since(audits: seq<Audit>, cutoff: int): seq<Audit> {
    if audits == [] then []
    else (if audits[0].at < cutoff then [] else [audits[0]]) + Since(audits[1..], cutoff)
  }

  /** A duplicate key and a missing flag are refused, and leave no audit row. */
  function Step(retention: int, db: Db, now: int, request: Request): Db {
    match request
    case Create(key, flag) =>
      if key in db.flags then db
      else Db(db.flags[key := flag], db.audits + [Audit(key, Created, None, Some(flag), now)])
    case Update(key, changes) =>
      if key !in db.flags then db
      else
        var after := Changed(db.flags[key], changes);
        Db(db.flags[key := after], db.audits + [Audit(key, Updated, Some(db.flags[key]), Some(after), now)])
    case Delete(key) =>
      if key !in db.flags then db
      else Db(db.flags - {key}, db.audits + [Audit(key, Deleted, Some(db.flags[key]), None, now)])
    case PruneAudits => db.(audits := Since(db.audits, now - retention))
  }

  datatype Event = Event(now: int, request: Request)

  predicate Ordered(events: seq<Event>) {
    forall i, j :: 0 <= i < j < |events| ==> events[i].now <= events[j].now
  }

  function Run(retention: int, events: seq<Event>): Db {
    if events == [] then Db(map[], [])
    else
      var n := |events| - 1;
      Step(retention, Run(retention, events[..n]), events[n].now, events[n].request)
  }

  // ---- the decision -----------------------------------------------------------

  datatype Reason =
    | UnknownFlag | FlagDisabled | Allowlisted | FullyRolledOut | RolloutZero | NoUserForRollout
    | RolloutBucket(bucket: nat, of: int)

  datatype Evaluation = Evaluation(enabled: bool, reason: Reason)

  datatype Env = Env(hash: (string, Id) -> nat, lower: string -> string)

  function Normal(env: Env, key: string): string { env.lower(Strip(key, PythonSpace)) }

  function BucketOf(env: Env, key: string, user: Id): nat { env.hash(key, user) % 100 }

  /** The flag is looked up by its normal key, and the user bucketed by the key as given. */
  function Evaluate(env: Env, flags: map<string, Flag>, key: string, user: Option<Id>): Evaluation {
    if Normal(env, key) !in flags then Evaluation(false, UnknownFlag)
    else
      var flag := flags[Normal(env, key)];
      if !flag.enabled then Evaluation(false, FlagDisabled)
      else if user.Some? && user.value in flag.allowlist then Evaluation(true, Allowlisted)
      else if flag.rollout >= 100 then Evaluation(true, FullyRolledOut)
      else if flag.rollout <= 0 then Evaluation(false, RolloutZero)
      else if user.None? then Evaluation(false, NoUserForRollout)
      else
        var bucket := BucketOf(env, key, user.value);
        Evaluation(bucket < flag.rollout, RolloutBucket(bucket, flag.rollout))
  }
}
