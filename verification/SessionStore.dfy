/** The session table as the transactions update it. */
module SessionStore {
  import opened Wrappers
  import opened AdminSessions

  class SessionTable {
    var sessions: Sessions
    var members: set<string>

    constructor ()
      ensures sessions == map[] && members == {}
    {
      sessions, members := map[], {};
    }

    /** Insert the new session, then revoke the replaced one; a clash undoes the whole transaction. */
    method EstablishSession(token: string, user: string, previous: Option<string>, life: Lifetimes, now: int)
      returns (ok: bool)
      modifies this`sessions
      ensures ok == Establish(old(sessions), token, user, previous, life, now).Some?
      ensures sessions == Apply(Tables(old(sessions), members), life, Login(token, user, previous, now)).sessions
    {
      if token in sessions { return false; }
      var absolute := now + life.absolute;
      sessions := sessions[token := Session(user, now, now, Least(now + life.idle, absolute), absolute, None)];
      if previous.Some? { RevokeSession(previous.value, now); }
      ok := true;
    }

    method RevokeSession(token: string, now: int)
      modifies this`sessions
      ensures sessions == RevokeToken(old(sessions), token, now)
    {
      if token in sessions && sessions[token].revokedAt.None? {
        sessions := sessions[token := sessions[token].(revokedAt := Some(now))];
      }
    }

    method RecordActivity(token: string, idle: int, now: int) returns (updated: bool)
      modifies this`sessions
      ensures (sessions, updated) == UpdateActivity(old(sessions), token, idle, now)
    {
      updated := Live(sessions, token, now) && sessions[token].lastActivity <= now - THROTTLE;
      if updated {
        var s := sessions[token];
        var next := if s.absoluteExpires < now + idle then s.absoluteExpires else now + idle;
        sessions := sessions[token := s.(lastActivity := now, idleExpires := next)];
      }
    }

    /** Revoking an active membership revokes every session of its user, one row at a time. */
    method RevokeMembership(user: string, now: int) returns (changed: bool)
      modifies this
      ensures (Tables(sessions, members), changed) == RevokeAdmin(Tables(old(sessions), old(members)), user, now)
    {
      changed := user in members;
      if !changed { return; }
      members := members - {user};
      var rest := sessions.Keys;
      while rest != {}
        invariant rest <= sessions.Keys == old(sessions).Keys && members == old(members) - {user}
        invariant forall k :: k in sessions ==>
          sessions[k] == if k in rest then old(sessions)[k] else RevokeUser(old(sessions), user, now)[k]
      {
        var token :| token in rest;
        if sessions[token].user == user { RevokeSession(token, now); }
        rest := rest - {token};
      }
      assert sessions == RevokeUser(old(sessions), user, now);
    }
  }
}
