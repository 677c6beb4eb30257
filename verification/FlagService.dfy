/** `FlagService` over the flag and audit rows, updated in place. */
module FlagService {
  import opened Options
  import opened FlagModel

  class FlagService {
    const env: Env
    const retention: int
    var flags: map<string, Flag>
    var audits: seq<Audit>

    constructor (env: Env, retention: int)
      ensures this.env == env && this.retention == retention && Rows() == Db(map[], [])
    {
      this.env, this.retention := env, retention;
      flags, audits := map[], [];
    }

    function Rows(): Db
      reads this
    {
      Db(flags, audits)
    }

    method Create(now: int, key: string, flag: Flag) returns (ok: bool)
      modifies this
      ensures Rows() == Step(retention, old(Rows()), now, Request.Create(key, flag)) && ok == (key !in old(flags))
    {
      if key in flags { return false; }
      flags := flags[key := flag];
      RecordChange(now, key, Created, None);
      ok := true;
    }

    method Update(now: int, key: string, payload: Changes) returns (ok: bool)
      modifies this
      ensures Rows() == Step(retention, old(Rows()), now, Request.Update(key, payload)) && ok == (key in old(flags))
    {
      if key !in flags { return false; }
      var flag := flags[key];
      var before := Some(flag);
      if payload.enabled.Some? { flag := flag.(enabled := payload.enabled.value); }
      if payload.description.Some? { flag := flag.(description := payload.description.value); }
      if payload.rollout.Some? { flag := flag.(rollout := payload.rollout.value); }
      if payload.allowlist.Some? { flag := flag.(allowlist := payload.allowlist.value); }
      flags := flags[key := flag];
      RecordChange(now, key, Updated, before);
      ok := true;
    }

    method Delete(now: int, key: string) returns (ok: bool)
      modifies this
      ensures Rows() == Step(retention, old(Rows()), now, Request.Delete(key)) && ok == (key in old(flags))
    {
      if key !in flags { return false; }
      RecordChange(now, key, Deleted, Some(flags[key]));
      flags := flags - {key};
      ok := true;
    }

    /** Writes the audit row of a change to a stored flag: both sides, or nothing after a deletion. */
    method RecordChange(now: int, key: string, action: Action, before: Option<Flag>)
      requires key in flags
      modifies this`audits
      ensures audits == old(audits) + [Audit(key, action, before, if action.Deleted? then None else Some(flags[key]), now)]
    {
      audits := audits + [Audit(key, action, before, if action.Deleted? then None else Some(flags[key]), now)];
    }

    method PruneAudits(now: int) returns (total: nat)
      modifies this`audits
      ensures Rows() == Step(retention, old(Rows()), now, Request.PruneAudits)
      ensures total + |audits| == |old(audits)|
    {
      var before := |audits|;
      audits := Since(audits, now - retention);
      SinceIsShorter(old(audits), now - retention);
      total := before - |audits|;
    }

    /** Decides every wanted flag; an unknown key is reported and decided off. */
    method EvaluateMany(keys: seq<string>, user: Option<Id>) returns (decisions: map<string, bool>, unknown: seq<string>)
      ensures forall k :: k in decisions <==> exists i :: 0 <= i < |keys| && Normal(env, keys[i]) == k
      ensures forall k <- decisions :: decisions[k] == (k in flags && Evaluate(env, flags, k, user).enabled)
      ensures forall k :: k in unknown <==> k in decisions && k !in flags
    {
      hide Evaluate, Normal;
      decisions, unknown := map[], [];
      for i := 0 to |keys|
        invariant forall k :: k in decisions <==> exists j :: 0 <= j < i && Normal(env, keys[j]) == k
        invariant forall k <- decisions :: decisions[k] == (k in flags && Evaluate(env, flags, k, user).enabled)
        invariant forall k :: k in unknown <==> k in decisions && k !in flags
      {
        var key := Normal(env, keys[i]);
        if key !in flags {
          unknown := unknown + [key];
          decisions := decisions[key := false];
        } else {
          decisions := decisions[key := Evaluate(env, flags, key, user).enabled];
        }
      }
    }
  }

  lemma {:induction false} SinceIsShorter(audits: seq<Audit>, cutoff: int)
    ensures |Since(audits, cutoff)| <= |audits|
  {
    if audits != [] { SinceIsShorter(audits[1..], cutoff); }
  }
}
