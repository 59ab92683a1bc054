/**
 The relying party's session store, exactly: when each operation succeeds and what it leaves, in terms
 of the sessions that survive the sweep; and what follows for whole plays of the protocol.
 */
module BrowserSessions {
  import opened Schema
  import opened Tokens
  import opened Machine
  import opened RelyingParty
  import opened Protocol

  /** The sessions an operation meets. */
  function Met(j: Jar, now: Time): map<string, BrowserSession> {
    Prune(j, now).sessions
  }

  /** One session is replaced, and nothing else beyond the sweep. */
  predicate Becomes(j: Jar, now: Time, after: Jar, id: string, s: BrowserSession) {
    after == Prune(j, now).(sessions := Met(j, now)[id := s])
  }

  // ----- Each operation, exactly -----

  /** create. */
  lemma CreateExact(j: Jar, id: string, csrf: string, now: Time)
    ensures var (after, ok) := Create(j, id, csrf, now);
      && (ok <==> |Met(j, now)| < 1024 && id !in Met(j, now))
      && (!ok ==> after == Prune(j, now))
      && (ok ==> Becomes(j, now, after, id,
                         BrowserSession(csrf, 1, None, None, TokenSet("", "", "", {}), 0, 0, "", 0, now + HOUR)))
  {
  }

  /** beginAuthorization: the pending attempt, the deadline and the revision change, and nothing else. */
  lemma BeginAuthorizationExact(j: Jar, id: string, attempt: Attempt, now: Time)
    ensures var (after, ok) := BeginAuthorization(j, id, attempt, now);
      && (ok <==>
          && id in Met(j, now) && now < Met(j, now)[id].expiresAt
          && attempt.state != "" && attempt.nonce != "" && attempt.verifier != "")
      && (!ok ==> after == Prune(j, now))
      && (ok ==>
            var s := Met(j, now)[id];
            Becomes(j, now, after, id,
                    BrowserSession(s.csrf, s.revision + 1, Some(attempt), s.identity, s.tokens, s.refreshVersion,
                                   s.refreshInFlight, s.logoutState, s.logoutAt, now + HOUR)))
  {
  }

  /** completeWithTokens: only the attempt that is still pending signs in, under a new id. */
  lemma CompleteExact(j: Jar, id: string, attempt: Option<Attempt>, identity: string, tokens: TokenSet, newId: string,
                      csrf: string, now: Time)
    ensures var (after, ok) := Complete(j, id, attempt, identity, tokens, newId, csrf, now);
      && (ok <==>
          && id in Met(j, now) && attempt.Some? && Met(j, now)[id].pending == attempt && newId !in Met(j, now))
      && (!ok ==> after == Prune(j, now))
      && (ok ==>
            after == Prune(j, now).(sessions := (Met(j, now) - {id})[newId :=
              BrowserSession(csrf, 1, None, Some(identity), tokens, 0, 0, "", 0, now + HOUR)]))
  {
  }

  /** clearPending. */
  lemma ClearPendingExact(j: Jar, id: string, attempt: Option<Attempt>, now: Time)
    ensures var (after, ok) := ClearPending(j, id, attempt, now);
      && (ok <==> id in Met(j, now) && attempt.Some? && Met(j, now)[id].pending == attempt)
      && (!ok ==> after == Prune(j, now))
      && (ok ==>
            var s := Met(j, now)[id];
            Becomes(j, now, after, id,
                    BrowserSession(s.csrf, s.revision + 1, None, s.identity, s.tokens, s.refreshVersion,
                                   s.refreshInFlight, s.logoutState, s.logoutAt, s.expiresAt)))
  {
  }

  /** claimRefresh: a signed-in session with a token, none of it in flight, and its own csrf value. */
  lemma ClaimRefreshExact(j: Jar, id: string, csrf: string, now: Time)
    ensures var (after, claim) := ClaimRefresh(j, id, csrf, now);
      && (claim.Some? <==>
          && id in Met(j, now) && now < Met(j, now)[id].expiresAt
          && var s := Met(j, now)[id];
             && s.identity.Some? && s.tokens.refresh != "" && s.refreshInFlight == 0
             && csrf != "" && s.csrf == csrf
             && (s.refreshVersion + 1) % 0x1_0000_0000_0000_0000 != 0)
      && (claim.None? ==> after == Prune(j, now))
      && (claim.Some? ==>
            var s := Met(j, now)[id];
            var version := (s.refreshVersion + 1) % 0x1_0000_0000_0000_0000;
            && claim.value == Claim(id, version, s.tokens.refresh, s.tokens.scopes)
            && Becomes(j, now, after, id,
                       BrowserSession(s.csrf, s.revision + 1, s.pending, s.identity, s.tokens, version, version,
                                      s.logoutState, s.logoutAt, s.expiresAt)))
  {
  }

  /** The claim is the one the session last made, and it is still out. */
  predicate Outstanding(j: Jar, c: Claim, now: Time) {
    && c.session in Met(j, now) && now < Met(j, now)[c.session].expiresAt && c.version != 0
    && Met(j, now)[c.session].refreshVersion == c.version && Met(j, now)[c.session].refreshInFlight == c.version
  }

  /** replaceRefresh: the id token stays, access token, refresh token and scopes are the response's. */
  lemma ReplaceRefreshExact(j: Jar, c: Claim, response: TokenSet, now: Time)
    ensures var (after, ok) := ReplaceRefresh(j, c, response, now);
      && (ok <==> Outstanding(j, c, now))
      && (!ok ==> after == Prune(j, now))
      && (ok ==>
            var s := Met(j, now)[c.session];
            Becomes(j, now, after, c.session,
                    BrowserSession(s.csrf, s.revision + 1, s.pending, s.identity,
                                   TokenSet(response.access, response.refresh, s.tokens.idToken, response.scopes),
                                   s.refreshVersion, 0, s.logoutState, s.logoutAt, s.expiresAt)))
  {
  }

  /** failRefresh: the id token stays, everything else the session held of the provider is dropped. */
  lemma FailRefreshExact(j: Jar, c: Claim, now: Time)
    ensures var (after, ok) := FailRefresh(j, c, now);
      && (ok <==> Outstanding(j, c, now))
      && (!ok ==> after == Prune(j, now))
      && (ok ==>
            var s := Met(j, now)[c.session];
            Becomes(j, now, after, c.session,
                    BrowserSession(s.csrf, s.revision + 1, s.pending, s.identity,
                                   TokenSet("", "", s.tokens.idToken, {}), s.refreshVersion, 0, s.logoutState,
                                   s.logoutAt, s.expiresAt)))
  {
  }

  /** beginLogout: a signed-in session, its own id token and csrf value, and a state to return with. */
  lemma BeginLogoutExact(j: Jar, id: string, idToken: string, csrf: string, state: string, now: Time)
    ensures var (after, ok) := BeginLogout(j, id, idToken, csrf, state, now);
      && (ok <==>
          && id in Met(j, now) && now < Met(j, now)[id].expiresAt && state != ""
          && var s := Met(j, now)[id];
             s.identity.Some? && idToken != "" && s.tokens.idToken == idToken && csrf != "" && s.csrf == csrf)
      && (!ok ==> after == Prune(j, now))
      && (ok ==>
            var s := Met(j, now)[id];
            Becomes(j, now, after, id,
                    BrowserSession(s.csrf, s.revision + 1, s.pending, s.identity, s.tokens, s.refreshVersion,
                                   s.refreshInFlight, state, now, s.expiresAt)))
  {
  }

  /** finishLogout: the state last asked with, within ten minutes; the session goes. */
  lemma FinishLogoutExact(j: Jar, id: string, state: string, now: Time)
    ensures var (after, ok) := FinishLogout(j, id, state, now);
      && (ok <==>
          && id in Met(j, now) && now < Met(j, now)[id].expiresAt
          && var s := Met(j, now)[id];
             state != "" && s.logoutState == state && s.logoutAt != 0 && now < s.logoutAt + 10 * MINUTE)
      && (!ok ==> after == Prune(j, now))
      && (ok ==> after == Prune(j, now).(sessions := Met(j, now) - {id}))
  {
  }

  // ----- Laws of plays -----

  /** The session, if there is one, is not waiting for this attempt. */
  predicate NotPending(j: Jar, id: string, attempt: Attempt) {
    id in j.sessions ==> j.sessions[id].pending != Some(attempt)
  }

  predicate Starts(m: Move, id: string, attempt: Attempt) {
    m.StartLogin? && m.id == id && m.attempt == attempt
  }

  lemma MoveLeavesNotPending(p: Party, w: World, m: Move, id: string, attempt: Attempt)
    requires NotPending(w.jar, id, attempt) && !Starts(m, id, attempt)
    ensures NotPending(Next(p, w, m).jar, id, attempt)
  {
    hide Step, Handle, Exchange, Received, Impersonates;
  }

  lemma {:induction false} StaysNotPending(p: Party, w: World, moves: seq<Move>, id: string, attempt: Attempt)
    requires NotPending(w.jar, id, attempt)
    requires forall i :: 0 <= i < |moves| ==> !Starts(moves[i], id, attempt)
    ensures NotPending(Play(p, w, moves).jar, id, attempt)
    decreases |moves|
  {
    hide Next, NotPending, Starts;
    if moves != [] {
      MoveLeavesNotPending(p, w, moves[0], id, attempt);
      assert forall i :: 0 <= i < |moves[1..]| ==> moves[1..][i] == moves[i + 1];
      StaysNotPending(p, Next(p, w, moves[0]), moves[1..], id, attempt);
    }
  }

  /**
   An attempt the session is not waiting for - because a later one replaced it, it was used, or it was given
   up - signs nobody in, however the play goes on, until the session starts that very attempt again.
   */
  lemma StaleAttemptRefused(p: Party, w: World, moves: seq<Move>, id: string, attempt: Attempt, now: Time,
                            identity: string, tokens: TokenSet, newId: string, csrf: string)
    requires NotPending(w.jar, id, attempt)
    requires forall i :: 0 <= i < |moves| ==> !Starts(moves[i], id, attempt)
    ensures var end := Play(p, w, moves);
      && Complete(end.jar, id, Some(attempt), identity, tokens, newId, csrf, now) == (Prune(end.jar, now), false)
      && Next(p, end, StoreLogin(now, id, Some(attempt), identity, tokens, newId, csrf)).jar ==
         (if tokens in end.logins then Prune(end.jar, now) else end.jar)
  {
    hide Play, Starts, Complete, Step, Handle, Exchange, Received, Impersonates;
    StaysNotPending(p, w, moves, id, attempt);
    CompleteExact(Play(p, w, moves).jar, id, Some(attempt), identity, tokens, newId, csrf, now);
  }

  /** Starting another attempt, completing this one and giving it up each leave the session not waiting for it. */
  lemma WhatReplacesAnAttempt(j: Jar, id: string, attempt: Attempt, other: Attempt, now: Time, identity: string,
                              tokens: TokenSet, newId: string, csrf: string)
    ensures BeginAuthorization(j, id, other, now).1 && other != attempt ==>
      NotPending(BeginAuthorization(j, id, other, now).0, id, attempt)
    ensures Complete(j, id, Some(attempt), identity, tokens, newId, csrf, now).1 ==>
      NotPending(Complete(j, id, Some(attempt), identity, tokens, newId, csrf, now).0, id, attempt)
    ensures ClearPending(j, id, Some(attempt), now).1 ==>
      NotPending(ClearPending(j, id, Some(attempt), now).0, id, attempt)
  {
  }

  /** The session, if there is one, did not last ask to log out with this state. */
  predicate NotAsked(j: Jar, id: string, state: string) {
    id in j.sessions ==> j.sessions[id].logoutState != state
  }

  predicate Asks(m: Move, id: string, state: string) {
    m.AskLogout? && m.id == id && m.state == state
  }

  lemma MoveLeavesNotAsked(p: Party, w: World, m: Move, id: string, state: string)
    requires state != "" && NotAsked(w.jar, id, state) && !Asks(m, id, state)
    ensures NotAsked(Next(p, w, m).jar, id, state)
  {
    hide Step, Handle, Exchange, Received, Impersonates;
  }

  lemma {:induction false} StaysNotAsked(p: Party, w: World, moves: seq<Move>, id: string, state: string)
    requires state != "" && NotAsked(w.jar, id, state)
    requires forall i :: 0 <= i < |moves| ==> !Asks(moves[i], id, state)
    ensures NotAsked(Play(p, w, moves).jar, id, state)
    decreases |moves|
  {
    hide Next, NotAsked, Asks;
    if moves != [] {
      MoveLeavesNotAsked(p, w, moves[0], id, state);
      assert forall i :: 0 <= i < |moves[1..]| ==> moves[1..][i] == moves[i + 1];
      StaysNotAsked(p, Next(p, w, moves[0]), moves[1..], id, state);
    }
  }

  /** A logout return with a state the session did not last ask with never ends it, until it asks with that state. */
  lemma StaleLogoutRefused(p: Party, w: World, moves: seq<Move>, id: string, state: string, now: Time)
    requires NotAsked(w.jar, id, state)
    requires forall i :: 0 <= i < |moves| ==> !Asks(moves[i], id, state)
    ensures var end := Play(p, w, moves); FinishLogout(end.jar, id, state, now) == (Prune(end.jar, now), false)
  {
    hide Play, Asks, FinishLogout;
    FinishLogoutExact(Play(p, w, moves).jar, id, state, now);
    if state != "" { StaysNotAsked(p, w, moves, id, state); }
  }

  /** Without the session's own csrf value nothing is sent to the provider and nothing but the sweep happens. */
  lemma ForeignCsrfSendsNothing(p: Party, w: World, id: string, csrf: string, now: Time)
    requires id in w.jar.sessions ==> w.jar.sessions[id].csrf != csrf
    ensures Next(p, w, SendRefresh(now, id, csrf)) == w.(jar := Prune(w.jar, now))
  {
    hide ClaimRefresh, Step, Handle, Exchange, Received, Impersonates;
    ClaimRefreshExact(w.jar, id, csrf, now);
    assert ClaimRefresh(w.jar, id, csrf, now) == (Prune(w.jar, now), None);
  }
}
