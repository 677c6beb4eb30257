/**
  `TokenService` and the token part of `MaintenanceService.prune`, updating the stored
  rows in place. Each method is tied to the pure model, where the run-level results are
  proved.
*/
module TokenService {
  import opened Options
  import opened TokenModel

  datatype PruneResult = PruneResult(refreshTokens: nat, sessions: nat)

  /** Deleting token rows sets the parent of their children to null. */
  function Without(tokens: map<Id, Token>, keys: set<Id>): map<Id, Token> {
    map k | k in tokens && k !in keys ::
      var parent := tokens[k].parent;
      tokens[k].(parent := if parent.Some? && parent.value in tokens && parent.value !in keys then parent else None)
  }

  function DueTokens(tokens: map<Id, Token>, cutoff: int): set<Id> {
    set k | k in tokens && TokenDue(tokens[k], cutoff)
  }

  function DueSessions(sessions: map<Id, Session>, cutoff: int): set<Id> {
    set k | k in sessions && SessionDue(sessions[k], cutoff)
  }

  function TokensOf(tokens: map<Id, Token>, sessions: set<Id>): set<Id> {
    set k | k in tokens && tokens[k].session in sessions
  }

  /** The tokens due, then by cascade those of the sessions due: the two deletions are one sweep. */
  lemma TwoDeletionsAreOneSweep(db: Db, cutoff: int)
    ensures var once := Without(db.tokens, DueTokens(db.tokens, cutoff));
      var gone := DueSessions(db.sessions, cutoff);
      SweepRows(db, cutoff) == db.(tokens := Without(once, TokensOf(once, gone)), sessions := db.sessions - gone)
  {
  }

  class AuthStore {
    const cfg: Config
    var tokens: map<Id, Token>
    var sessions: map<Id, Session>
    var users: map<Id, User>
    var next: Id

    constructor (cfg: Config, users: map<Id, User>)
      ensures this.cfg == cfg && Rows() == Empty(users)
    {
      this.cfg := cfg;
      this.users := users;
      tokens, sessions, next := map[], map[], 0;
    }

    function Rows(): Db
      reads this
    {
      Db(tokens, sessions, users, next)
    }

    method StartSession(now: int, user: Id, delay: nat) returns (issued: Issued)
      modifies this
      ensures (Rows(), issued) == TokenModel.StartSession(cfg, old(Rows()), now, user, delay)
    {
      var sid, family := next, next + 1;
      sessions := sessions[sid := Session(user, now, now, now + cfg.refreshTtl, None)];
      next := next + 2;
      issued := IssuePair(now, user, sid, family, None, delay);
    }

    method IssuePair(now: int, user: Id, session: Id, family: Id, parent: Option<Id>, delay: nat) returns (issued: Issued)
      modifies this
      ensures (Rows(), issued) == TokenModel.IssuePair(cfg, old(Rows()), now, user, session, family, parent, delay)
    {
      var key, csrf := next, next + 1;
      var expires := now + cfg.refreshTtl;
      tokens := tokens[key := Token(user, session, family, parent, csrf, now, expires, None, None)];
      next := next + 2;
      issued := Issued(user, session, family, key, csrf, expires, now + delay + cfg.accessTtl);
    }

    method Rotate(now: int, raw: Id, csrf: Option<Id>, delay: nat) returns (outcome: Outcome)
      modifies this
      ensures (Rows(), outcome) == TokenModel.Rotate(cfg, old(Rows()), now, raw, csrf, delay)
    {
      if raw !in tokens { return Refused(UnknownToken); }
      var record := tokens[raw];
      if record.used.Some? {
        RevokeFamily(now, record.family);
        return Refused(TokenReused);
      }
      if record.revoked.Some? { return Refused(TokenRevoked); }
      if record.expires < now { return Refused(TokenExpired); }
      if csrf.Some? && csrf.value != record.csrf { return Refused(CsrfMismatch); }
      if record.session !in sessions || sessions[record.session].revoked.Some? { return Refused(SessionEnded); }
      if sessions[record.session].expires < now { return Refused(SessionExpired); }
      if record.user !in users || !users[record.user].active || users[record.user].deleted {
        return Refused(AccountInactive);
      }
      if users[record.user].banned { return Refused(AccountBanned); }

      tokens := tokens[raw := record.(used := Some(now))];
      sessions := sessions[record.session := sessions[record.session].(lastSeen := now)];
      var issued := IssuePair(now, record.user, record.session, record.family, Some(raw), delay);
      outcome := Granted(issued);
    }

    /** One refresh request: the session dependency rolls everything back when the handler raises. */
    method Refresh(now: int, raw: Id, csrf: Option<Id>, delay: nat) returns (outcome: Outcome)
      modifies this
      ensures (Rows(), outcome) == RefreshRequest(cfg, old(Rows()), now, raw, csrf, delay)
    {
      var begin := Rows();
      outcome := Rotate(now, raw, csrf, delay);
      if outcome.Refused? && cfg.rollbackOnRaise {
        tokens, sessions, users, next := begin.tokens, begin.sessions, begin.users, begin.next;
      }
    }

    method RevokeFamily(now: int, family: Id)
      modifies this`tokens
      ensures Rows() == RevokeFamilyRows(old(Rows()), family, now)
    {
      tokens := map k | k in tokens ::
        if tokens[k].family == family && tokens[k].revoked.None? then tokens[k].(revoked := Some(now)) else tokens[k];
    }

    method RevokeSession(now: int, session: Id)
      modifies this`tokens, this`sessions
      ensures Rows() == RevokeSessionRows(old(Rows()), session, now)
    {
      if session in sessions && sessions[session].revoked.None? {
        sessions := sessions[session := sessions[session].(revoked := Some(now))];
      }
      tokens := map k | k in tokens ::
        if tokens[k].session == session && tokens[k].revoked.None? then tokens[k].(revoked := Some(now)) else tokens[k];
    }

    method RevokeAllSessions(now: int, user: Id)
      modifies this`tokens, this`sessions
      ensures Rows() == RevokeUserRows(old(Rows()), user, now)
    {
      sessions := map k | k in sessions ::
        if sessions[k].user == user && sessions[k].revoked.None? then sessions[k].(revoked := Some(now)) else sessions[k];
      tokens := map k | k in tokens ::
        if tokens[k].user == user && tokens[k].revoked.None? then tokens[k].(revoked := Some(now)) else tokens[k];
    }

    /**
      Counts what is due, then deletes it unless this is a dry run: first the tokens,
      with their children's parent link set to null, then the sessions, with their
      remaining tokens deleted by cascade.
    */
    method Prune(now: int, dryRun: bool) returns (result: PruneResult)
      modifies this`tokens, this`sessions
      ensures Rows() == if dryRun then old(Rows()) else SweepRows(old(Rows()), now - cfg.retention)
      ensures result.refreshTokens == |DueTokens(old(tokens), now - cfg.retention)|
      ensures result.sessions == |DueSessions(old(sessions), now - cfg.retention)|
    {
      hide SweepRows, Without, DueTokens, DueSessions, TokensOf;
      var cutoff := now - cfg.retention;
      TwoDeletionsAreOneSweep(Rows(), cutoff);
      var dueTokens := DueTokens(tokens, cutoff);
      if !dryRun {
        tokens := Without(tokens, dueTokens);
      }
      var dueSessions := DueSessions(sessions, cutoff);
      if !dryRun {
        sessions := sessions - dueSessions;
        tokens := Without(tokens, TokensOf(tokens, dueSessions));
      }
      result := PruneResult(|dueTokens|, |dueSessions|);
    }
  }
}
