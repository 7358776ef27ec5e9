/** Administration sessions: idle and absolute expiry, throttled activity, revocation and cleanup. */
module AdminSessions {
  import opened Wrappers

  const SECOND := 1_000_000
  const THROTTLE := 60 * SECOND
  const RETENTION := 30 * 86_400 * SECOND

  /** The configured idle and absolute lifetimes. */
  datatype Lifetimes = Lifetimes(idle: int, absolute: int)

  datatype Session = Session(user: string, createdAt: int, lastActivity: int, idleExpires: int, absoluteExpires: int,
                             revokedAt: Option<int>)

  /** Rows by token hash, which is unique. */
  type Sessions = map<string, Session>

  function Least(a: int, b: int): int {
    if a < b then a else b
  }

  function Revoke(s: Session, now: int): Session {
    if s.revokedAt.None? then s.(revokedAt := Some(now)) else s
  }

  function RevokeToken(t: Sessions, token: string, now: int): Sessions {
    if token in t then t[token := Revoke(t[token], now)] else t
  }

  /** A new login inserts its session and revokes the one it replaces; None is the unique constraint's refusal. */
  function Establish(t: Sessions, token: string, user: string, previous: Option<string>, life: Lifetimes, now: int)
    : Option<Sessions>
  {
    if token in t then None
    else
      var absolute := now + life.absolute;
      var inserted := t[token := Session(user, now, now, Least(now + life.idle, absolute), absolute, None)];
      Some(if previous.Some? then RevokeToken(inserted, previous.value, now) else inserted)
  }

  /** What get_session answers for. */
  predicate Live(t: Sessions, token: string, now: int) {
    token in t && t[token].revokedAt.None? && t[token].idleExpires > now && t[token].absoluteExpires > now
  }

  /** Activity is written at most once a minute, and never beyond the absolute expiry. */
  function UpdateActivity(t: Sessions, token: string, idle: int, now: int): (Sessions, bool) {
    if Live(t, token, now) && t[token].lastActivity <= now - THROTTLE then
      (t[token := t[token].(lastActivity := now, idleExpires := Least(t[token].absoluteExpires, now + idle))], true)
    else (t, false)
  }

  function RevokeUser(t: Sessions, user: string, now: int): Sessions {
    map token | token in t :: if t[token].user == user then Revoke(t[token], now) else t[token]
  }

  function Expired(t: Sessions, now: int): set<string> {
    set token | token in t && (t[token].absoluteExpires < now - RETENTION
                               || (t[token].revokedAt.Some? && t[token].revokedAt.value < now - RETENTION))
  }

  /** The session rows and the users with an active membership. */
  datatype Tables = Tables(sessions: Sessions, members: set<string>)

  /** Revoking an active membership revokes the user's sessions with it; without one nothing happens. */
  function RevokeAdmin(t: Tables, user: string, now: int): (Tables, bool) {
    if user !in t.members then (t, false)
    else (Tables(RevokeUser(t.sessions, user, now), t.members - {user}), true)
  }

  datatype Event =
    | Login(token: string, user: string, previous: Option<string>, now: int)
    | Activity(token: string, now: int)
    | Logout(token: string, now: int)
    | MembershipGranted(user: string)
    | MembershipRevoked(user: string, now: int)
    | Cleanup(now: int, chosen: set<string>)

  function Apply(t: Tables, life: Lifetimes, e: Event): Tables {
    match e
    case Login(token, user, previous, now) =>
      var after := Establish(t.sessions, token, user, previous, life, now);
      if after.Some? then t.(sessions := after.value) else t
    case Activity(token, now) => t.(sessions := UpdateActivity(t.sessions, token, life.idle, now).0)
    case Logout(token, now) => t.(sessions := RevokeToken(t.sessions, token, now))
    case MembershipGranted(user) => t.(members := t.members + {user})
    case MembershipRevoked(user, now) => RevokeAdmin(t, user, now).0
    case Cleanup(now, chosen) => t.(sessions := t.sessions - (chosen * Expired(t.sessions, now)))
  }

  const EMPTY := Tables(map[], {})

  function Run(t: Tables, life: Lifetimes, h: seq<Event>): Tables {
    if h == [] then t else Apply(Run(t, life, h[..|h| - 1]), life, h[|h| - 1])
  }

  // ---------- what every history keeps ----------

  predicate HasLogin(h: seq<Event>, token: string, user: string, at: int) {
    exists i :: 0 <= i < |h| && h[i].Login? && h[i].token == token && h[i].user == user && h[i].now == at
  }

  /** A login counts as activity. */
  predicate HasActivity(h: seq<Event>, token: string, at: int) {
    exists i :: 0 <= i < |h| && (h[i].Login? || h[i].Activity?) && h[i].token == token && h[i].now == at
  }

  /** An unrevoked session knows its login and its last recorded activity, and expires by them alone. */
  ghost predicate Backed(s: Session, token: string, life: Lifetimes, h: seq<Event>) {
    && s.createdAt <= s.lastActivity
    && s.absoluteExpires == s.createdAt + life.absolute
    && s.idleExpires == Least(s.absoluteExpires, s.lastActivity + life.idle)
    && HasLogin(h, token, s.user, s.createdAt)
    && HasActivity(h, token, s.lastActivity)
  }

  lemma {:induction false} BackedGrows(s: Session, token: string, life: Lifetimes, h: seq<Event>, e: Event)
    requires Backed(s, token, life, h)
    ensures Backed(s, token, life, h + [e])
  {
    var i :| 0 <= i < |h| && h[i].Login? && h[i].token == token && h[i].user == s.user && h[i].now == s.createdAt;
    var j :| 0 <= j < |h| && (h[j].Login? || h[j].Activity?) && h[j].token == token && h[j].now == s.lastActivity;
    assert (h + [e])[i] == h[i] && (h + [e])[j] == h[j];
  }

  /** What one transaction can do to the row of a token: keep, revoke, touch or insert it. */
  lemma {:induction false} RowStep(tables: Tables, life: Lifetimes, e: Event, token: string)
    requires token in Apply(tables, life, e).sessions
    ensures
      var t, after := tables.sessions, Apply(tables, life, e).sessions[token];
      || (token in t && after.(revokedAt := t[token].revokedAt) == t[token]
          && (t[token].revokedAt.Some? ==> after == t[token]))
      || (token in t && e == Activity(token, e.now) && Live(t, token, e.now)
          && t[token].lastActivity <= e.now - THROTTLE
          && after == t[token].(lastActivity := e.now,
                                idleExpires := Least(t[token].absoluteExpires, e.now + life.idle)))
      || (token !in t && e.Login? && e.token == token
          && after.(revokedAt := None)
             == Session(e.user, e.now, e.now, Least(e.now + life.idle, e.now + life.absolute), e.now + life.absolute,
                        None))
  {
  }

  lemma {:induction false} LastIsRecorded(h: seq<Event>)
    requires h != []
    ensures
      var e := h[|h| - 1];
      && (e.Login? ==> HasLogin(h, e.token, e.user, e.now) && HasActivity(h, e.token, e.now))
      && (e.Activity? ==> HasActivity(h, e.token, e.now))
  {
  }

  lemma {:induction false} EverySessionIsBacked(life: Lifetimes, h: seq<Event>, token: string)
    requires token in Run(EMPTY, life, h).sessions
    ensures Backed(Run(EMPTY, life, h).sessions[token], token, life, h)
  {
    hide Apply, HasLogin, HasActivity;
    if h != [] {
      var before, e := h[..|h| - 1], h[|h| - 1];
      var t := Run(EMPTY, life, before);
      assert h == before + [e];
      RowStep(t, life, e, token);
      if token in t.sessions {
        EverySessionIsBacked(life, before, token);
        BackedGrows(t.sessions[token], token, life, before, e);
      }
      LastIsRecorded(h);
    }
  }

  /** Over every history, a session answers only within the absolute lifetime of a login with its token and
      within the idle lifetime of a login or recorded activity; and then it does unless it was revoked. */
  lemma {:induction false} LiveExactlyWithinLifetimes(life: Lifetimes, h: seq<Event>, token: string, now: int)
    ensures
      var t := Run(EMPTY, life, h).sessions;
      && (Live(t, token, now) <==>
            token in t && t[token].revokedAt.None?
            && now < t[token].createdAt + life.absolute && now < t[token].lastActivity + life.idle)
      && (Live(t, token, now) ==>
            && (exists at :: HasLogin(h, token, t[token].user, at) && now < at + life.absolute)
            && (exists at :: HasActivity(h, token, at) && now < at + life.idle))
  {
    hide Run;
    if token in Run(EMPTY, life, h).sessions { EverySessionIsBacked(life, h, token); }
  }

  /** A revoked session never answers again, unless its token is issued anew. */
  lemma {:induction false} RevokedStaysDead(t: Tables, life: Lifetimes, h: seq<Event>, token: string, now: int)
    requires token in t.sessions ==> t.sessions[token].revokedAt.Some?
    requires forall i :: 0 <= i < |h| && h[i].Login? ==> h[i].token != token
    ensures token in Run(t, life, h).sessions ==> Run(t, life, h).sessions[token].revokedAt.Some?
    ensures !Live(Run(t, life, h).sessions, token, now)
  {
    hide Apply;
    if h != [] {
      var before, e := h[..|h| - 1], h[|h| - 1];
      RevokedStaysDead(t, life, before, token, now);
      if token in Run(t, life, h).sessions {
        RowStep(Run(t, life, before), life, e, token);
        if e.Activity? { RevokedStaysDead(t, life, before, token, e.now); }
      }
    }
  }

  /** Revoking a membership ends every session of its user for good, in every later history, if the membership
      was active; otherwise it changes nothing. */
  lemma {:induction false} RevocationEndsAllSessions(t: Tables, life: Lifetimes, user: string, at: int, h: seq<Event>,
                                                     token: string, now: int)
    requires token in t.sessions && t.sessions[token].user == user
    requires forall i :: 0 <= i < |h| && h[i].Login? ==> h[i].token != token
    ensures user in t.members ==> !Live(Run(RevokeAdmin(t, user, at).0, life, h).sessions, token, now)
    ensures user !in t.members ==> RevokeAdmin(t, user, at) == (t, false)
  {
    if user in t.members { RevokedStaysDead(RevokeAdmin(t, user, at).0, life, h, token, now); }
  }

  /** Cleanup removes no session that could answer on a clock at most thirty days behind. */
  lemma {:induction false} CleanupSparesLiveSessions(t: Tables, life: Lifetimes, at: int, chosen: set<string>,
                                                     token: string, now: int)
    requires now >= at - RETENTION
    ensures Live(Apply(t, life, Cleanup(at, chosen)).sessions, token, now) <==> Live(t.sessions, token, now)
  {
  }

  // ---------- what each step does ----------

  /** A login that replaces a session ends it for good, over every later history that does not issue its token
      anew; the new session answers exactly until the earlier of its two expiries, and no other row changes. */
  lemma {:induction false} LoginEndsTheReplaced(t: Tables, life: Lifetimes, token: string, user: string,
                                                previous: Option<string>, now: int, h: seq<Event>, at: int)
    requires token !in t.sessions && previous != Some(token)
    ensures
      var after := Apply(t, life, Login(token, user, previous, now));
      && after.members == t.members && after.sessions.Keys == t.sessions.Keys + {token}
      && after.sessions[token].user == user
      && (Live(after.sessions, token, at) <==> at < now + life.idle && at < now + life.absolute)
      && (forall k :: k in t.sessions && previous != Some(k) ==> after.sessions[k] == t.sessions[k])
      && (previous.Some? && (forall i :: 0 <= i < |h| && h[i].Login? ==> h[i].token != previous.value) ==>
            !Live(Run(after, life, h).sessions, previous.value, at))
  {
    var after := Apply(t, life, Login(token, user, previous, now));
    if previous.Some? && (forall i :: 0 <= i < |h| && h[i].Login? ==> h[i].token != previous.value) {
      RevokedStaysDead(after, life, h, previous.value, at);
    }
  }

  /** A login with a token that is in use changes nothing. */
  lemma {:induction false} ClashingLoginChangesNothing(t: Tables, life: Lifetimes, token: string, user: string,
                                                       previous: Option<string>, now: int)
    requires token in t.sessions
    ensures Apply(t, life, Login(token, user, previous, now)) == t
  {
  }

  /** A logout ends its session for good and changes no other. */
  lemma {:induction false} LogoutEndsTheSession(t: Tables, life: Lifetimes, token: string, now: int, h: seq<Event>,
                                                at: int)
    requires forall i :: 0 <= i < |h| && h[i].Login? ==> h[i].token != token
    ensures
      var after := Apply(t, life, Logout(token, now));
      && !Live(Run(after, life, h).sessions, token, at)
      && after.members == t.members && after.sessions.Keys == t.sessions.Keys
      && (forall k :: k in t.sessions && k != token ==> after.sessions[k] == t.sessions[k])
  {
    RevokedStaysDead(Apply(t, life, Logout(token, now)), life, h, token, at);
  }

  /** Activity at least a minute after the last is recorded if the session answers, and prolongs it: it then
      answers until the idle lifetime from now is over or its absolute expiry has come. Any other activity, and
      all of it for other sessions, changes nothing. */
  lemma {:induction false} ActivityProlongs(t: Tables, life: Lifetimes, token: string, now: int, at: int)
    ensures
      var after := Apply(t, life, Activity(token, now)).sessions;
      var recorded := Live(t.sessions, token, now) && now - t.sessions[token].lastActivity >= 60_000_000;
      && UpdateActivity(t.sessions, token, life.idle, now) == (after, recorded)
      && after.Keys == t.sessions.Keys
      && (forall k :: k in t.sessions && (k != token || !recorded) ==> after[k] == t.sessions[k])
      && (recorded ==>
            && after[token].lastActivity == now && after[token].absoluteExpires == t.sessions[token].absoluteExpires
            && (Live(after, token, at) <==> at < now + life.idle && at < t.sessions[token].absoluteExpires))
  {
  }

  /** Revoking an active membership marks exactly the user's unrevoked sessions; granting one touches none. */
  lemma {:induction false} MembershipSteps(t: Tables, life: Lifetimes, user: string, now: int)
    ensures Apply(t, life, MembershipGranted(user)) == t.(members := t.members + {user})
    ensures
      var after := Apply(t, life, MembershipRevoked(user, now));
      && after.members == t.members - {user}
      && after.sessions.Keys == t.sessions.Keys
      && forall k :: k in t.sessions ==>
           after.sessions[k] ==
             if user in t.members && t.sessions[k].user == user && t.sessions[k].revokedAt.None?
             then t.sessions[k].(revokedAt := Some(now)) else t.sessions[k]
  {
  }

  /** A cleanup batch removes the rows chosen of those dead for thirty days, and no other. */
  lemma {:induction false} CleanupRemovesTheDead(t: Tables, life: Lifetimes, at: int, chosen: set<string>, k: string)
    requires k in t.sessions
    ensures
      var after := Apply(t, life, Cleanup(at, chosen)).sessions;
      var s, month := t.sessions[k], 30 * 24 * 60 * 60 * 1_000_000;
      && (k !in after <==> k in chosen && (s.absoluteExpires + month < at
                                           || (s.revokedAt.Some? && s.revokedAt.value + month < at)))
      && (k in after ==> after[k] == s)
  {
  }
}
