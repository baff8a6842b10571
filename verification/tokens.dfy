/** Refresh-token families (auth.service.ts). A token is named by its session and its place in
    the session's family: hashes are taken to be injective. The claim, the session check and
    the new token are one transaction; a revocation of a session and its family is another. */
module Tokens {
  datatype TokenId = TokenId(session: nat, index: nat)

  datatype Token = Token(used: bool, revoked: bool, expiresAt: int)
  datatype Session = Session(user: nat, revoked: bool, issuedAt: int, expiresAt: int, family: seq<Token>)
  datatype Store = Store(sessions: seq<Session>, allowed: set<nat>)

  predicate Exists(s: Store, t: TokenId) {
    t.session < |s.sessions| && t.index < |s.sessions[t.session].family|
  }

  function TokenOf(s: Store, t: TokenId): Token
    requires Exists(s, t)
  {
    s.sessions[t.session].family[t.index]
  }

  predicate Live(s: Store, t: TokenId) {
    Exists(s, t) && !TokenOf(s, t).used && !TokenOf(s, t).revoked && !s.sessions[t.session].revoked
  }

  // ---------- Transactions ----------

  function Issue(s: Store, user: nat, now: int, ttl: int): Store {
    s.(sessions := s.sessions + [Session(user, false, now, now + ttl, [Token(false, false, now + ttl)])])
  }

  function AllRevoked(family: seq<Token>): seq<Token> {
    seq(|family|, i requires 0 <= i < |family| => family[i].(revoked := true))
  }

  function RevokeSession(s: Store, id: nat): Store {
    if id < |s.sessions|
    then s.(sessions := s.sessions[id := s.sessions[id].(revoked := true, family := AllRevoked(s.sessions[id].family))])
    else s
  }

  /** Every session of the user is revoked; tokens only of the sessions listed beforehand. */
  function LogoutAll(s: Store, user: nat, listed: set<nat>): Store {
    s.(sessions := seq(|s.sessions|, i requires 0 <= i < |s.sessions| =>
      var session := s.sessions[i];
      session.(revoked := session.revoked || session.user == user,
               family := if i in listed then AllRevoked(session.family) else session.family)))
  }

  datatype Rotation = Rotated(store: Store) | LostClaim | RolledBack

  /** Claim the token, find its session active, add the next token; or undo it all. */
  function Rotate(s: Store, t: TokenId, at: int, newExpiry: int): Rotation
    requires Exists(s, t)
  {
    var session := s.sessions[t.session];
    if session.family[t.index].used || session.family[t.index].revoked then LostClaim
    else if session.revoked || session.expiresAt <= at then RolledBack
    else
      var claimed := session.family[t.index := session.family[t.index].(used := true)];
      Rotated(s.(sessions := s.sessions[t.session := session.(family := claimed + [Token(false, false, newExpiry)])]))
  }

  // ---------- What runs concurrently ----------

  datatype Event =
    | IssueEvent(user: nat, now: int, ttl: int)
    | RotateEvent(t: TokenId, at: int, newExpiry: int)
    | RevokeEvent(session: nat)
    | LogoutAllEvent(user: nat, listed: set<nat>)
    | AccessEvent(user: nat, allowed: bool)

  function Step(s: Store, e: Event): Store {
    match e
    case IssueEvent(user, now, ttl) => Issue(s, user, now, ttl)
    case RotateEvent(t, at, newExpiry) =>
      if Exists(s, t) && Rotate(s, t, at, newExpiry).Rotated? then Rotate(s, t, at, newExpiry).store else s
    case RevokeEvent(session) => RevokeSession(s, session)
    case LogoutAllEvent(user, listed) => LogoutAll(s, user, listed)
    case AccessEvent(user, allowed) => s.(allowed := if allowed then s.allowed + {user} else s.allowed - {user})
  }

  function Run(s: Store, events: seq<Event>): Store {
    if events == [] then s else Step(Run(s, events[..|events| - 1]), events[|events| - 1])
  }

  // ---------- Requests ----------

  /** What a refresh decides on the rows it reads. */
  datatype Decision = Refuse | GoRotate | GoRevoke

  function Decide(s: Store, t: TokenId, now: int): Decision {
    if !Exists(s, t) then Refuse
    else
      var session := s.sessions[t.session];
      if session.user !in s.allowed then Refuse
      else if TokenOf(s, t).revoked || TokenOf(s, t).used || session.revoked then GoRevoke
      else if TokenOf(s, t).expiresAt <= now then Refuse
      else if session.expiresAt <= now then GoRevoke
      else GoRotate
  }

  /** Aborted: the transaction the refresh ended in was the victim of a deadlock. */
  datatype Outcome = Granted(next: TokenId, printedExpiry: int) | Unauthorized | Aborted

  datatype Refreshed = Refreshed(store: Store, outcome: Outcome)

  /** Revokes if the transaction commits. */
  function EndFamily(s: Store, id: nat, commits: bool): Refreshed {
    if commits then Refreshed(RevokeSession(s, id), Unauthorized) else Refreshed(s, Aborted)
  }

  /** A whole refresh: `others` run between its reads and its transaction, `late` between a
      lost claim and the revocation that follows. Rotation locks the token before the session
      and revocation the session before the tokens, so either can be aborted: `commits` says
      whether the transaction that would write last does commit. */
  function RefreshSpec(s: Store, t: TokenId, now: int, at: int, ttl: int, others: seq<Event>, late: seq<Event>,
      commits: bool): Refreshed
  {
    match Decide(s, t, now)
    case Refuse => Refreshed(s, Unauthorized)
    case GoRevoke => EndFamily(Run(s, others), t.session, commits)
    case GoRotate =>
      var found := Run(s, others);
      if !Exists(found, t) then Refreshed(found, Unauthorized)
      else match Rotate(found, t, at, now + ttl)
        case Rotated(after) =>
          if commits then Refreshed(after, Granted(TokenId(t.session, |found.sessions[t.session].family|), now + ttl))
          else Refreshed(found, Aborted)
        case RolledBack => Refreshed(found, Unauthorized)
        case LostClaim => EndFamily(Run(found, late), t.session, commits)
  }

  predicate Recoverable(s: Store, t: TokenId, now: int) {
    && Live(s, t) && TokenOf(s, t).expiresAt > now && s.sessions[t.session].expiresAt > now
    && s.sessions[t.session].user in s.allowed
  }

  function ActiveSessions(s: Store, user: nat): set<nat> {
    set i | 0 <= i < |s.sessions| && s.sessions[i].user == user && !s.sessions[i].revoked
  }

  class AuthStore {
    var sessions: seq<Session>
    var allowed: set<nat>

    function State(): Store reads this { Store(sessions, allowed) }

    constructor ()
      ensures State() == Store([], {})
    {
      sessions, allowed := [], {};
    }

    method Interfere(others: seq<Event>)
      modifies this
      ensures State() == Run(old(State()), others)
    {
      var after := Run(State(), others);
      sessions, allowed := after.sessions, after.allowed;
    }

    method IssueSession(user: nat, now: int, ttl: int) returns (t: TokenId, printedExpiry: int)
      modifies this
      ensures State() == Issue(old(State()), user, now, ttl)
      ensures Live(State(), t) && t.session == |old(sessions)| && printedExpiry == State().sessions[t.session].expiresAt
    {
      var family := [Token(false, false, now + ttl)];
      sessions := sessions + [Session(user, false, now, now + ttl, family)];
      return TokenId(|sessions| - 1, 0), now + ttl;
    }

    method Revoke(id: nat)
      modifies this
      ensures State() == RevokeSession(old(State()), id)
    {
      if id < |sessions| {
        sessions := sessions[id := sessions[id].(revoked := true, family := AllRevoked(sessions[id].family))];
      }
    }

    method Refresh(t: TokenId, now: int, at: int, ttl: int, others: seq<Event>, late: seq<Event>, commits: bool)
      returns (outcome: Outcome)
      modifies this
      ensures Refreshed(State(), outcome) == RefreshSpec(old(State()), t, now, at, ttl, others, late, commits)
    {
      outcome := Unauthorized;
      match Decide(State(), t, now)
      case Refuse =>
      case GoRevoke =>
        Interfere(others);
        outcome := RevokeOrAbort(t.session, commits);
      case GoRotate =>
        Interfere(others);
        if t.session < |sessions| && t.index < |sessions[t.session].family| {
          var rotation := ClaimAndCreate(t, at, now + ttl, commits);
          if rotation.Rotated? {
            outcome :=
              if commits then Granted(TokenId(t.session, |sessions[t.session].family| - 1), now + ttl) else Aborted;
          } else if rotation.LostClaim? {
            Interfere(late);
            outcome := RevokeOrAbort(t.session, commits);
          }
        }
    }

    method RevokeOrAbort(id: nat, commits: bool) returns (outcome: Outcome)
      modifies this
      ensures Refreshed(State(), outcome) == EndFamily(old(State()), id, commits)
    {
      if !commits { return Aborted; }
      Revoke(id);
      outcome := Unauthorized;
    }

    method ClaimAndCreate(t: TokenId, at: int, newExpiry: int, commits: bool) returns (rotation: Rotation)
      requires Exists(State(), t)
      modifies this
      ensures rotation == Rotate(old(State()), t, at, newExpiry)
      ensures State() == if rotation.Rotated? && commits then rotation.store else old(State())
    {
      var session := sessions[t.session];
      if session.family[t.index].used || session.family[t.index].revoked { return LostClaim; }
      if session.revoked || session.expiresAt <= at { return RolledBack; }
      var claimed := session.family[t.index := session.family[t.index].(used := true)];
      var rotated := sessions[t.session := session.(family := claimed + [Token(false, false, newExpiry)])];
      if commits { sessions := rotated; }
      return Rotated(Store(rotated, allowed));
    }

    /** Browser recovery only reads. */
    method RecoverBrowserAccessToken(t: TokenId, now: int) returns (ok: bool)
      ensures ok == Recoverable(State(), t, now)
    {
      if t.session >= |sessions| || t.index >= |sessions[t.session].family| { return false; }
      var session := sessions[t.session];
      var token := session.family[t.index];
      ok := !(token.used || token.revoked || token.expiresAt <= now || session.revoked || session.expiresAt <= now
        || session.user !in allowed);
    }

    method LogoutByRefreshToken(t: TokenId)
      modifies this
      ensures State() == if Exists(old(State()), t) then RevokeSession(old(State()), t.session) else old(State())
    {
      if t.session < |sessions| && t.index < |sessions[t.session].family| { Revoke(t.session); }
    }

    /** Lists the active sessions, lets others run, then revokes. */
    method LogoutAllSessions(user: nat, others: seq<Event>)
      modifies this
      ensures State() == LogoutAll(Run(old(State()), others), user, ActiveSessions(old(State()), user))
    {
      var listed := ActiveSessions(State(), user);
      Interfere(others);
      var after := LogoutAll(State(), user, listed);
      sessions := after.sessions;
    }
  }
}
