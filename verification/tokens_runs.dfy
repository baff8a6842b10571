/** Token families under every interleaving of refreshes, logouts and revocations. */
module TokensRuns {
  import opened Tokens

  // ---------- One live token ----------

  /** Every token of a family but the last has been used. */
  ghost predicate FamilyInv(s: Store) {
    forall t :: Exists(s, t) && t.index < |s.sessions[t.session].family| - 1 ==> TokenOf(s, t).used
  }

  ghost predicate NoLive(s: Store, session: nat) {
    forall t: TokenId :: t.session == session ==> !Live(s, t)
  }

  lemma StepKeepsFamilies(s: Store, e: Event)
    requires FamilyInv(s)
    ensures FamilyInv(Step(s, e))
  {
    var after := Step(s, e);
    forall t | Exists(after, t) && t.index < |after.sessions[t.session].family| - 1 ensures TokenOf(after, t).used {
      if Exists(s, t) {
        assert t.index < |s.sessions[t.session].family| - 1 ==> TokenOf(s, t).used;
        if t.index == |s.sessions[t.session].family| - 1 {
          RotatedIsLast(s, e, t);
        }
      }
    }
  }

  /** A family grows only when its last token is the one redeemed. */
  lemma RotatedIsLast(s: Store, e: Event, t: TokenId)
    requires FamilyInv(s) && Exists(s, t) && t.index == |s.sessions[t.session].family| - 1
    requires Exists(Step(s, e), t) && t.index < |Step(s, e).sessions[t.session].family| - 1
    ensures TokenOf(Step(s, e), t).used
  {
    forall u: TokenId | Exists(s, u) && u.session == t.session && !TokenOf(s, u).used ensures u.index == t.index { }
  }

  lemma {:induction false} RunKeepsFamilies(s: Store, events: seq<Event>)
    requires FamilyInv(s)
    ensures FamilyInv(Run(s, events))
  {
    if events != [] {
      RunKeepsFamilies(s, events[..|events| - 1]);
      StepKeepsFamilies(Run(s, events[..|events| - 1]), events[|events| - 1]);
    }
  }

  /** However refreshes and revocations interleave, a session never has two live tokens. */
  lemma {:induction false} OneLiveToken(allowed: set<nat>, events: seq<Event>, t: TokenId, u: TokenId)
    requires var s := Run(Store([], allowed), events); Live(s, t) && Live(s, u) && t.session == u.session
    ensures t == u
  {
    RunKeepsFamilies(Store([], allowed), events);
  }

  // ---------- Redeemed at most once ----------

  predicate Redeems(s: Store, e: Event, t: TokenId) {
    e.RotateEvent? && e.t == t && Exists(s, t) && Rotate(s, t, e.at, e.newExpiry).Rotated?
  }

  /** How often the token was exchanged for a new one. */
  function Redemptions(s: Store, events: seq<Event>, t: TokenId): nat {
    if events == [] then 0
    else Redemptions(s, events[..|events| - 1], t)
         + if Redeems(Run(s, events[..|events| - 1]), events[|events| - 1], t) then 1 else 0
  }

  function Spent(s: Store, t: TokenId): nat {
    if Exists(s, t) && TokenOf(s, t).used then 1 else 0
  }

  lemma RedemptionSpends(s: Store, e: Event, t: TokenId)
    ensures Spent(Step(s, e), t) == Spent(s, t) + if Redeems(s, e, t) then 1 else 0
  {
  }

  /** A token is marked used exactly when it is redeemed, so it is redeemed at most once. */
  lemma {:induction false} RedeemedAtMostOnce(s: Store, events: seq<Event>, t: TokenId)
    ensures Redemptions(s, events, t) == Spent(Run(s, events), t) - Spent(s, t)
    ensures Redemptions(s, events, t) <= 1
  {
    if events != [] {
      RedeemedAtMostOnce(s, events[..|events| - 1], t);
      RedemptionSpends(Run(s, events[..|events| - 1]), events[|events| - 1], t);
    }
  }

  // ---------- Revocation ----------

  ghost predicate SessionFollows(a: Session, b: Session) {
    && b.user == a.user && b.issuedAt == a.issuedAt && b.expiresAt == a.expiresAt
    && (a.revoked ==> b.revoked)
    && |a.family| <= |b.family|
    && (forall i :: 0 <= i < |a.family| ==>
          (a.family[i].used ==> b.family[i].used) && (a.family[i].revoked ==> b.family[i].revoked))
  }

  ghost predicate StoreFollows(s: Store, after: Store) {
    |s.sessions| <= |after.sessions| && forall i :: 0 <= i < |s.sessions| ==>
      SessionFollows(s.sessions[i], after.sessions[i])
  }

  lemma StepFollows(s: Store, e: Event)
    ensures StoreFollows(s, Step(s, e))
  {
  }

  /** A session's stored expiry never moves, and a revocation or a use is never undone. */
  lemma {:induction false} RunFollows(s: Store, events: seq<Event>)
    ensures StoreFollows(s, Run(s, events))
  {
    if events != [] {
      RunFollows(s, events[..|events| - 1]);
      StepFollows(Run(s, events[..|events| - 1]), events[|events| - 1]);
    }
  }

  lemma {:induction false} RevokedForEver(s: Store, session: nat, later: seq<Event>)
    requires session < |s.sessions| && s.sessions[session].revoked
    ensures NoLive(Run(s, later), session)
  {
    RunFollows(s, later);
    assert SessionFollows(s.sessions[session], Run(s, later).sessions[session]);
  }

  /** Presenting a used or revoked token of a user who has access ends the whole family: once
      its revocation commits the session has no live token, then or ever after. If that
      transaction is aborted nothing changes, and the spent token itself stays dead. */
  lemma {:induction false} SpentTokenEndsFamily(s: Store, t: TokenId, now: int, at: int, ttl: int, others: seq<Event>,
      late: seq<Event>, commits: bool, later: seq<Event>)
    requires Exists(s, t) && s.sessions[t.session].user in s.allowed && !Live(s, t)
    ensures var r := RefreshSpec(s, t, now, at, ttl, others, late, commits);
            && !r.outcome.Granted? && !Live(Run(r.store, later), t)
            && (commits ==> r.outcome == Unauthorized && NoLive(Run(r.store, later), t.session))
            && (!commits ==> r == Refreshed(Run(s, others), Aborted))
  {
    RunFollows(s, others);
    var found := Run(s, others);
    assert SessionFollows(s.sessions[t.session], found.sessions[t.session]);
    if commits {
      RevokedForEver(RevokeSession(found, t.session), t.session, later);
    } else {
      DeadForEver(found, t, later);
    }
  }

  lemma {:induction false} DeadForEver(s: Store, t: TokenId, later: seq<Event>)
    requires Exists(s, t) && !Live(s, t)
    ensures !Live(Run(s, later), t)
  {
    RunFollows(s, later);
    assert SessionFollows(s.sessions[t.session], Run(s, later).sessions[t.session]);
  }

  /** Two requests race with the same token: whichever claims second revokes the family, the
      winner's new token included, once its revocation commits. */
  lemma {:induction false} LosingRacerEndsFamily(s: Store, t: TokenId, now: int, at: int, ttl: int,
      others: seq<Event>, late: seq<Event>, commits: bool, later: seq<Event>)
    requires Decide(s, t, now).GoRotate? && Redemptions(s, others, t) > 0
    ensures var r := RefreshSpec(s, t, now, at, ttl, others, late, commits);
            !r.outcome.Granted? && (commits ==> r.outcome == Unauthorized && NoLive(Run(r.store, later), t.session))
  {
    RedeemedAtMostOnce(s, others, t);
    if commits {
      var found := Run(s, others);
      RunFollows(found, late);
      RevokedForEver(RevokeSession(Run(found, late), t.session), t.session, later);
    }
  }

  /** Exactly when a refresh is granted: the token is live and unexpired and its user has
      access when read, at the transaction it is still live in an unexpired session, and that
      transaction commits. The new token is then the only live one of its session. */
  lemma {:induction false} GrantedIff(s: Store, t: TokenId, now: int, at: int, ttl: int, others: seq<Event>,
      late: seq<Event>, commits: bool)
    requires FamilyInv(s)
    ensures var r := RefreshSpec(s, t, now, at, ttl, others, late, commits); var found := Run(s, others);
            && (r.outcome.Granted? <==> commits && Presentable(s, t, now) && StillGood(found, t, at))
            && (r.outcome.Granted? ==> OnlyLive(r.store, r.outcome.next) && r.outcome.next.session == t.session)
  {
    RunFollows(s, others);
    RunKeepsFamilies(s, others);
    var found := Run(s, others);
    var r := RefreshSpec(s, t, now, at, ttl, others, late, commits);
    if r.outcome.Granted? {
      StepKeepsFamilies(found, RotateEvent(t, at, now + ttl));
      assert r.store == Step(found, RotateEvent(t, at, now + ttl));
    }
  }

  /** Unspent and unexpired, in an unexpired session of a user with access. */
  predicate Presentable(s: Store, t: TokenId, now: int) {
    && t.session < |s.sessions| && t.index < |s.sessions[t.session].family|
    && var session := s.sessions[t.session];
       var token := session.family[t.index];
       && !token.used && !token.revoked && now < token.expiresAt
       && !session.revoked && now < session.expiresAt && session.user in s.allowed
  }

  /** Still unspent, in a session that still runs. */
  predicate StillGood(s: Store, t: TokenId, at: int) {
    && t.session < |s.sessions| && t.index < |s.sessions[t.session].family|
    && var session := s.sessions[t.session];
       && !session.family[t.index].used && !session.family[t.index].revoked
       && !session.revoked && at < session.expiresAt
  }

  /** What a granted refresh leaves: the presented token is used, the new one is fresh and
      lasts as long as was printed, and no other row has changed. */
  lemma {:induction false} GrantedLeaves(s: Store, t: TokenId, now: int, at: int, ttl: int, others: seq<Event>,
      late: seq<Event>)
    requires RefreshSpec(s, t, now, at, ttl, others, late, true).outcome.Granted?
    ensures var r := RefreshSpec(s, t, now, at, ttl, others, late, true);
            var before, after, next := Run(s, others), r.store, r.outcome.next;
            && Exists(before, t) && Exists(after, next) && Exists(after, t)
            && next == TokenId(t.session, |before.sessions[t.session].family|)
            && after.sessions[next.session].family[next.index] == Token(false, false, now + ttl)
            && r.outcome.printedExpiry == now + ttl
            && after.sessions[t.session].family[t.index] == before.sessions[t.session].family[t.index].(used := true)
            && |after.sessions| == |before.sessions| && after.allowed == before.allowed
            && (forall i :: 0 <= i < |before.sessions| && i != t.session ==> after.sessions[i] == before.sessions[i])
            && after.sessions[t.session].expiresAt == before.sessions[t.session].expiresAt
            && |after.sessions[t.session].family| == |before.sessions[t.session].family| + 1
            && forall i :: 0 <= i < |before.sessions[t.session].family| && i != t.index ==>
                 after.sessions[t.session].family[i] == before.sessions[t.session].family[i]
  {
  }

  /** What a refresh that is not tried does. A token that is unknown, expired, or of a user
      without access changes nothing; an expired session is ended. */
  lemma RefusedUntried(s: Store, t: TokenId, now: int, at: int, ttl: int, others: seq<Event>, late: seq<Event>,
      commits: bool)
    ensures var r := RefreshSpec(s, t, now, at, ttl, others, late, commits);
            && (!Exists(s, t) || s.sessions[t.session].user !in s.allowed ==> r == Refreshed(s, Unauthorized))
            && (Live(s, t) && TokenOf(s, t).expiresAt <= now ==> r == Refreshed(s, Unauthorized))
            && (Live(s, t) && s.sessions[t.session].user in s.allowed && now < TokenOf(s, t).expiresAt
                && s.sessions[t.session].expiresAt <= now && commits ==>
                  r.outcome == Unauthorized && NoLive(r.store, t.session))
  {
    RunFollows(s, others);
    if Exists(s, t) && t.session < |Run(s, others).sessions| {
      assert RevokeSession(Run(s, others), t.session).sessions[t.session].revoked;
    }
  }

  /** A user who loses access has every refresh refused, and nothing changed by it, until it
      is given back; then the tokens work as before. */
  lemma {:induction false} LockedOutStaysOut(s: Store, user: nat, events: seq<Event>)
    requires AccessEvent(user, true) !in events
    ensures user !in Run(Step(s, AccessEvent(user, false)), events).allowed
    ensures Step(Step(s, AccessEvent(user, false)), AccessEvent(user, true)) == s.(allowed := s.allowed + {user})
  {
    if events != [] {
      assert events[|events| - 1] in events;
      LockedOutStaysOut(s, user, events[..|events| - 1]);
    }
  }

  // ---------- Only what is named ----------

  /** The event names the session, or logs its user out everywhere. */
  predicate Concerns(e: Event, session: nat, user: nat) {
    match e
    case RotateEvent(t, _, _) => t.session == session
    case RevokeEvent(id) => id == session
    case LogoutAllEvent(who, listed) => who == user || session in listed
    case _ => false
  }

  /** A session nobody names keeps its row, tokens and all, whatever happens to others. */
  lemma {:induction false} UnnamedIsUntouched(s: Store, events: seq<Event>, session: nat)
    requires session < |s.sessions|
    requires forall k :: 0 <= k < |events| ==> !Concerns(events[k], session, s.sessions[session].user)
    ensures session < |Run(s, events).sessions| && Run(s, events).sessions[session] == s.sessions[session]
  {
    if events != [] {
      UnnamedIsUntouched(s, events[..|events| - 1], session);
      assert !Concerns(events[|events| - 1], session, s.sessions[session].user);
    }
  }

  /** A revocation ends the session and marks each of its tokens. */
  lemma RevocationReachesEveryToken(s: Store, session: nat, i: nat)
    requires session < |s.sessions| && i < |s.sessions[session].family|
    ensures var after := RevokeSession(s, session);
            && after.sessions[session].revoked && |after.sessions[session].family| == |s.sessions[session].family|
            && after.sessions[session].family[i] == s.sessions[session].family[i].(revoked := true)
  {
  }

  /** Logging out everywhere leaves every other user's session as it was, and marks every token
      of the sessions that ran when it began. */
  lemma {:induction false} LogoutAllSparesOthers(s: Store, user: nat, others: seq<Event>, session: nat)
    requires session < |Run(s, others).sessions|
    ensures var before := Run(s, others); var after := LogoutAll(before, user, ActiveSessions(s, user));
            && |after.sessions| == |before.sessions|
            && (before.sessions[session].user != user ==> after.sessions[session] == before.sessions[session])
            && (session < |s.sessions| && s.sessions[session].user == user && !s.sessions[session].revoked ==>
                  forall i :: 0 <= i < |after.sessions[session].family| ==> after.sessions[session].family[i].revoked)
  {
    RunFollows(s, others);
    if session < |s.sessions| { assert SessionFollows(s.sessions[session], Run(s, others).sessions[session]); }
  }

  /** A login opens a running session of its user with one fresh token, both of which last the
      whole time to live, and touches no other session. */
  lemma LoginOpens(s: Store, user: nat, now: int, ttl: int)
    ensures var after := Issue(s, user, now, ttl);
            && |after.sessions| == |s.sessions| + 1 && after.sessions[..|s.sessions|] == s.sessions
            && after.allowed == s.allowed
            && var login := after.sessions[|s.sessions|];
               && login.user == user && !login.revoked && login.expiresAt == now + ttl
               && login.family == [Token(false, false, now + ttl)]
  {
  }

  /** The one live token of its session. */
  ghost predicate OnlyLive(s: Store, t: TokenId) {
    forall u: TokenId :: u.session == t.session ==> (Live(s, u) <==> u == t)
  }

  /** Recovery succeeds exactly when a refresh on its own would, and consumes nothing. */
  lemma RecoveryMatchesRefresh(s: Store, t: TokenId, now: int, ttl: int)
    ensures Recoverable(s, t, now) <==> RefreshSpec(s, t, now, now, ttl, [], [], true).outcome.Granted?
  {
    assert Run(s, []) == s;
  }

  /** The expiry a refresh reports is its new token's, not the session's stored one, which
      still stands where it was issued: it is overstated as soon as time has passed. */
  lemma {:induction false} PrintedExpiryOverstated(s: Store, user: nat, issued: int, ttl: int, events: seq<Event>,
      t: TokenId, now: int, at: int, others: seq<Event>, late: seq<Event>)
    requires t.session == |s.sessions|
    requires RefreshSpec(Run(Issue(s, user, issued, ttl), events), t, now, at, ttl, others, late, true).outcome.Granted?
    ensures var r := RefreshSpec(Run(Issue(s, user, issued, ttl), events), t, now, at, ttl, others, late, true);
            && r.store.sessions[t.session].expiresAt == issued + ttl
            && (r.outcome.printedExpiry > r.store.sessions[t.session].expiresAt <==> now > issued)
  {
    var s0 := Issue(s, user, issued, ttl);
    var s1 := Run(s0, events);
    var s2 := Run(s1, others);
    RunFollows(s0, events);
    RunFollows(s1, others);
    assert SessionFollows(s0.sessions[t.session], s1.sessions[t.session]);
    assert SessionFollows(s1.sessions[t.session], s2.sessions[t.session]);
  }

  /** Logging out everywhere ends every session of the user, one opened after the sessions
      were listed included. */
  lemma {:induction false} LogoutAllEndsEverySession(s: Store, user: nat, others: seq<Event>, later: seq<Event>,
      session: nat)
    requires session < |Run(s, others).sessions| && Run(s, others).sessions[session].user == user
    ensures NoLive(Run(LogoutAll(Run(s, others), user, ActiveSessions(s, user)), later), session)
  {
    RevokedForEver(LogoutAll(Run(s, others), user, ActiveSessions(s, user)), session, later);
  }
}
