/**
 The relying party's session store as the object the source has, each method proved equal to its
 atomic operation.
 */
module MemorySessions {
  import opened Schema
  import opened RelyingParty

  /** memorySessions, its mutex making each method atomic. */
  class MemorySessions {
    var sessions: map<string, BrowserSession>
    var nextSweep: Time

    constructor ()
      ensures Value() == Jar(map[], 0)
    {
      sessions, nextSweep := map[], 0;
    }

    function Value(): Jar
      reads this
    {
      Jar(sessions, nextSweep)
    }

    method PruneLocked(now: Time)
      modifies this
      ensures Value() == Prune(old(Value()), now)
    {
      if now < nextSweep && |sessions| < MAX_SESSIONS { return; }
      var before, rest := sessions, sessions.Keys;
      while rest != {}
        invariant rest <= before.Keys
        invariant sessions == map id | id in before && (id in rest || now < before[id].expiresAt) :: before[id]
        decreases |rest|
      {
        var id :| id in rest;
        rest := rest - {id};
        if now >= sessions[id].expiresAt { sessions := sessions - {id}; }
      }
      nextSweep := now + SWEEP_INTERVAL;
    }

    method Get(id: string, now: Time) returns (r: Option<BrowserSession>)
      modifies this
      ensures Value() == RelyingParty.Get(old(Value()), id, now)
      ensures r == if Current(old(Value()), id, now) then Some(old(sessions)[id]) else None
    {
      if id !in sessions || now >= sessions[id].expiresAt {
        sessions := sessions - {id};
        return None;
      }
      return Some(sessions[id]);
    }

    method Create(id: string, csrf: string, now: Time) returns (ok: bool)
      modifies this
      ensures (Value(), ok) == RelyingParty.Create(old(Value()), id, csrf, now)
    {
      PruneLocked(now);
      if |sessions| >= MAX_SESSIONS { return false; }
      if id in sessions { return false; }
      sessions := sessions[id := BrowserSession(csrf, 1, None, None, NO_TOKENS, 0, 0, "", 0, now + SESSION_TTL)];
      return true;
    }

    method BeginAuthorization(id: string, attempt: Attempt, now: Time) returns (ok: bool)
      modifies this
      ensures (Value(), ok) == RelyingParty.BeginAuthorization(old(Value()), id, attempt, now)
      ensures ok <==> Current(old(Value()), id, now) && "" !in {attempt.state, attempt.nonce, attempt.verifier}
    {
      PruneLocked(now);
      if id !in sessions || now >= sessions[id].expiresAt || attempt.state == "" || attempt.nonce == "" ||
         attempt.verifier == "" {
        return false;
      }
      var current := sessions[id];
      current := current.(pending := Some(attempt));
      current := current.(expiresAt := now + SESSION_TTL);
      current := current.(revision := current.revision + 1);
      sessions := sessions[id := current];
      return true;
    }

    method CompleteWithTokens(id: string, attempt: Option<Attempt>, identity: string, tokens: TokenSet, newId: string,
                              csrf: string, now: Time) returns (ok: bool)
      modifies this
      ensures (Value(), ok) == Complete(old(Value()), id, attempt, identity, tokens, newId, csrf, now)
      ensures ok <==> Kept(old(Value()), id, now) && attempt.Some? && old(sessions)[id].pending == attempt &&
                      !Kept(old(Value()), newId, now)
    {
      var value := BrowserSession(csrf, 1, None, Some(identity), tokens, 0, 0, "", 0, now + SESSION_TTL);
      PruneLocked(now);
      if id !in sessions || attempt.None? || sessions[id].pending != attempt { return false; }
      if newId in sessions { return false; }
      sessions := sessions - {id};
      sessions := sessions[newId := value];
      return true;
    }

    method ClearPending(id: string, attempt: Option<Attempt>, now: Time) returns (ok: bool)
      modifies this
      ensures (Value(), ok) == RelyingParty.ClearPending(old(Value()), id, attempt, now)
      ensures ok <==> Kept(old(Value()), id, now) && attempt.Some? && old(sessions)[id].pending == attempt
    {
      PruneLocked(now);
      if id !in sessions || attempt.None? || sessions[id].pending != attempt { return false; }
      var current := sessions[id];
      current := current.(pending := None);
      current := current.(revision := current.revision + 1);
      sessions := sessions[id := current];
      return true;
    }

    method ClaimRefresh(id: string, csrf: string, now: Time) returns (claim: Option<Claim>)
      modifies this
      ensures (Value(), claim) == RelyingParty.ClaimRefresh(old(Value()), id, csrf, now)
      ensures claim.Some? <==>
              && Current(old(Value()), id, now) && old(sessions)[id].identity.Some?
              && old(sessions)[id].tokens.refresh != "" && old(sessions)[id].refreshInFlight == 0
              && csrf != "" && old(sessions)[id].csrf == csrf
              && (old(sessions)[id].refreshVersion + 1) % 0x1_0000_0000_0000_0000 != 0
    {
      PruneLocked(now);
      if id !in sessions || now >= sessions[id].expiresAt { return None; }
      var current := sessions[id];
      if current.identity.None? || current.tokens.refresh == "" || current.csrf == "" || current.csrf != csrf ||
         current.refreshInFlight != 0 {
        return None;
      }
      current := current.(refreshVersion := (current.refreshVersion + 1) % TWO_64);
      if current.refreshVersion == 0 { return None; }
      current := current.(refreshInFlight := current.refreshVersion);
      current := current.(revision := current.revision + 1);
      sessions := sessions[id := current];
      return Some(Claim(id, current.refreshVersion, current.tokens.refresh, current.tokens.scopes));
    }

    method ReplaceRefresh(c: Claim, response: TokenSet, now: Time) returns (ok: bool)
      modifies this
      ensures (Value(), ok) == RelyingParty.ReplaceRefresh(old(Value()), c, response, now)
      ensures ok <==>
              && Current(old(Value()), c.session, now) && c.version != 0
              && old(sessions)[c.session].refreshVersion == c.version == old(sessions)[c.session].refreshInFlight
    {
      PruneLocked(now);
      if c.session !in sessions || now >= sessions[c.session].expiresAt || c.version == 0 { return false; }
      var current := sessions[c.session];
      if current.refreshVersion != c.version || current.refreshInFlight != c.version { return false; }
      current := current.(tokens := current.tokens.(access := response.access));
      current := current.(tokens := current.tokens.(refresh := response.refresh));
      current := current.(tokens := current.tokens.(scopes := response.scopes));
      current := current.(refreshInFlight := 0);
      current := current.(revision := current.revision + 1);
      sessions := sessions[c.session := current];
      return true;
    }

    method FailRefresh(c: Claim, now: Time) returns (ok: bool)
      modifies this
      ensures (Value(), ok) == RelyingParty.FailRefresh(old(Value()), c, now)
      ensures ok <==>
              && Current(old(Value()), c.session, now) && c.version != 0
              && old(sessions)[c.session].refreshVersion == c.version == old(sessions)[c.session].refreshInFlight
    {
      PruneLocked(now);
      if c.session !in sessions || now >= sessions[c.session].expiresAt || c.version == 0 { return false; }
      var current := sessions[c.session];
      if current.refreshVersion != c.version || current.refreshInFlight != c.version { return false; }
      current := current.(tokens := current.tokens.(access := "", refresh := "", scopes := {}));
      current := current.(refreshInFlight := 0);
      current := current.(revision := current.revision + 1);
      sessions := sessions[c.session := current];
      return true;
    }

    method BeginLogout(id: string, idToken: string, csrf: string, state: string, now: Time) returns (ok: bool)
      modifies this
      ensures (Value(), ok) == RelyingParty.BeginLogout(old(Value()), id, idToken, csrf, state, now)
      ensures ok <==>
              && Current(old(Value()), id, now) && old(sessions)[id].identity.Some? && "" !in {idToken, csrf, state}
              && old(sessions)[id].tokens.idToken == idToken && old(sessions)[id].csrf == csrf
    {
      PruneLocked(now);
      if id !in sessions || now >= sessions[id].expiresAt { return false; }
      var current := sessions[id];
      if current.identity.None? || current.tokens.idToken == "" || idToken == "" || current.tokens.idToken != idToken ||
         current.csrf == "" || current.csrf != csrf || state == "" {
        return false;
      }
      current := current.(logoutState := state);
      current := current.(logoutAt := now);
      current := current.(revision := current.revision + 1);
      sessions := sessions[id := current];
      return true;
    }

    method FinishLogout(id: string, state: string, now: Time) returns (ok: bool)
      modifies this
      ensures (Value(), ok) == RelyingParty.FinishLogout(old(Value()), id, state, now)
      ensures ok <==>
              && Current(old(Value()), id, now) && state != "" && old(sessions)[id].logoutState == state
              && old(sessions)[id].logoutAt != 0 && now < old(sessions)[id].logoutAt + 10 * MINUTE
    {
      PruneLocked(now);
      if id !in sessions || now >= sessions[id].expiresAt { return false; }
      var current := sessions[id];
      if current.logoutState == "" || current.logoutAt == 0 || now >= current.logoutAt + LOGOUT_TTL ||
         current.logoutState != state {
        return false;
      }
      sessions := sessions - {id};
      return true;
    }
  }
}
