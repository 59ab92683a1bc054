/**
 The relying party's session store (examples/oidc-client/server.go, memorySessions): browser
 sessions in memory, with a claim/replace/fail protocol around the one refresh token each holds.
 */
module RelyingParty {
  import opened Schema

  const SESSION_TTL: Time := HOUR
  const SWEEP_INTERVAL: Time := MINUTE
  const MAX_SESSIONS: nat := 1024
  const LOGOUT_TTL: Time := 10 * MINUTE
  const TWO_64: nat := 0x1_0000_0000_0000_0000

  datatype Attempt = Attempt(state: string, nonce: string, verifier: string, createdAt: Time)

  datatype TokenSet = TokenSet(access: string, refresh: string, idToken: string, scopes: set<Scope>)

  datatype BrowserSession = BrowserSession(
    csrf: string, revision: nat, pending: Option<Attempt>, identity: Option<string>, tokens: TokenSet,
    refreshVersion: nat, refreshInFlight: nat, logoutState: string, logoutAt: Time, expiresAt: Time)

  const NO_TOKENS: TokenSet := TokenSet("", "", "", {})

  /** The store: sessions by their id, and the next sweep. */
  datatype Jar = Jar(sessions: map<string, BrowserSession>, nextSweep: Time)

  datatype Claim = Claim(session: string, version: nat, token: string, scopes: set<Scope>)

  // ----- The atomic operations, as functions -----

  /** A sweep is due once a minute, and whenever the store is full. */
  predicate Due(j: Jar, now: Time) {
    now >= j.nextSweep || |j.sessions| >= 1024
  }

  /** The session is there after the sweep. */
  predicate Kept(j: Jar, id: string, now: Time) {
    id in j.sessions && (Due(j, now) ==> now < j.sessions[id].expiresAt)
  }

  /** pruneLocked. */
  function Prune(j: Jar, now: Time): (after: Jar)
    ensures after.sessions.Keys <= j.sessions.Keys
    ensures forall id :: id in after.sessions ==> after.sessions[id] == j.sessions[id]
    ensures forall id :: id in j.sessions ==> (id in after.sessions <==> Kept(j, id, now))
    ensures after.nextSweep == if Due(j, now) then now + MINUTE else j.nextSweep
  {
    if now < j.nextSweep && |j.sessions| < MAX_SESSIONS then j
    else Jar(map id | id in j.sessions && now < j.sessions[id].expiresAt :: j.sessions[id], now + SWEEP_INTERVAL)
  }

  predicate Current(j: Jar, id: string, now: Time) {
    id in j.sessions && now < j.sessions[id].expiresAt
  }

  /** get: expired sessions are dropped on sight. */
  function Get(j: Jar, id: string, now: Time): Jar {
    if Current(j, id, now) then j else j.(sessions := j.sessions - {id})
  }

  function Create(jar: Jar, id: string, csrf: string, now: Time): (Jar, bool) {
    var j := Prune(jar, now);
    if |j.sessions| >= MAX_SESSIONS || id in j.sessions then (j, false)
    else
      var value := BrowserSession(csrf, 1, None, None, NO_TOKENS, 0, 0, "", 0, now + SESSION_TTL);
      (j.(sessions := j.sessions[id := value]), true)
  }

  function BeginAuthorization(jar: Jar, id: string, attempt: Attempt, now: Time): (Jar, bool) {
    var j := Prune(jar, now);
    if !Current(j, id, now) || attempt.state == "" || attempt.nonce == "" || attempt.verifier == "" then (j, false)
    else
      var s := j.sessions[id];
      (j.(sessions := j.sessions[id := s.(pending := Some(attempt), expiresAt := now + SESSION_TTL,
                                          revision := s.revision + 1)]),
       true)
  }

  /** completeWithTokens: the attempt must still be pending; the session moves to a new id. */
  function Complete(jar: Jar, id: string, attempt: Option<Attempt>, identity: string, tokens: TokenSet, newId: string,
                    csrf: string, now: Time): (Jar, bool)
  {
    var j := Prune(jar, now);
    if id !in j.sessions || attempt.None? || j.sessions[id].pending != attempt || newId in j.sessions then (j, false)
    else
      var value := BrowserSession(csrf, 1, None, Some(identity), tokens, 0, 0, "", 0, now + SESSION_TTL);
      (j.(sessions := (j.sessions - {id})[newId := value]), true)
  }

  function ClearPending(jar: Jar, id: string, attempt: Option<Attempt>, now: Time): (Jar, bool) {
    var j := Prune(jar, now);
    if id !in j.sessions || attempt.None? || j.sessions[id].pending != attempt then (j, false)
    else
      var s := j.sessions[id];
      (j.(sessions := j.sessions[id := s.(pending := None, revision := s.revision + 1)]), true)
  }

  predicate Claimable(s: BrowserSession, csrf: string) {
    s.identity.Some? && s.tokens.refresh != "" && s.csrf != "" && s.csrf == csrf && s.refreshInFlight == 0
  }

  /** claimRefresh: marks the token in flight before it leaves the process. Versions are 64-bit and never wrap. */
  function ClaimRefresh(jar: Jar, id: string, csrf: string, now: Time): (Jar, Option<Claim>) {
    var j := Prune(jar, now);
    if !Current(j, id, now) || !Claimable(j.sessions[id], csrf) then (j, None)
    else
      var s := j.sessions[id];
      var version := (s.refreshVersion + 1) % TWO_64;
      if version == 0 then (j, None)
      else
        (j.(sessions := j.sessions[id := s.(refreshVersion := version, refreshInFlight := version,
                                            revision := s.revision + 1)]),
         Some(Claim(id, version, s.tokens.refresh, s.tokens.scopes)))
  }

  /** The claimed attempt is still the session's current one. */
  predicate Owns(j: Jar, c: Claim, now: Time) {
    && Current(j, c.session, now) && c.version != 0
    && j.sessions[c.session].refreshVersion == c.version && j.sessions[c.session].refreshInFlight == c.version
  }

  function ReplaceRefresh(jar: Jar, c: Claim, response: TokenSet, now: Time): (Jar, bool) {
    var j := Prune(jar, now);
    if !Owns(j, c, now) then (j, false)
    else
      var s := j.sessions[c.session];
      var tokens := s.tokens.(access := response.access, refresh := response.refresh, scopes := response.scopes);
      (j.(sessions := j.sessions[c.session := s.(tokens := tokens, refreshInFlight := 0, revision := s.revision + 1)]),
       true)
  }

  function FailRefresh(jar: Jar, c: Claim, now: Time): (Jar, bool) {
    var j := Prune(jar, now);
    if !Owns(j, c, now) then (j, false)
    else
      var s := j.sessions[c.session];
      var tokens := s.tokens.(access := "", refresh := "", scopes := {});
      (j.(sessions := j.sessions[c.session := s.(tokens := tokens, refreshInFlight := 0, revision := s.revision + 1)]),
       true)
  }

  function BeginLogout(jar: Jar, id: string, idToken: string, csrf: string, state: string, now: Time): (Jar, bool) {
    var j := Prune(jar, now);
    if !Current(j, id, now) || j.sessions[id].identity.None? || j.sessions[id].tokens.idToken == "" || idToken == "" ||
       j.sessions[id].tokens.idToken != idToken || j.sessions[id].csrf == "" || j.sessions[id].csrf != csrf ||
       state == ""
    then (j, false)
    else
      var s := j.sessions[id];
      (j.(sessions := j.sessions[id := s.(logoutState := state, logoutAt := now, revision := s.revision + 1)]), true)
  }

  function FinishLogout(jar: Jar, id: string, state: string, now: Time): (Jar, bool) {
    var j := Prune(jar, now);
    if !Current(j, id, now) || j.sessions[id].logoutState == "" || j.sessions[id].logoutAt == 0 ||
       now >= j.sessions[id].logoutAt + LOGOUT_TTL || j.sessions[id].logoutState != state
    then (j, false)
    else (j.(sessions := j.sessions - {id}), true)
  }
}
