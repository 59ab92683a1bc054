/**
 Code exchange, exactly: what an answered request had to fit, row by row, every row it writes and
 every field of the response.
 */
module ExchangeExact {
  import opened Schema
  import opened ScopeClaims
  import opened TokenPolicy
  import opened Tokens
  import opened Invariants
  import RoundTrips
  import Progress
  import TokenProofs

  // ----- When a code is exchanged -----

  predicate Unreserved(c: char) {
    'A' <= c <= 'Z' || 'a' <= c <= 'z' || '0' <= c <= '9' || c in "-._~"
  }

  /** The code verifier is well formed and its digest is the challenge (section 4.6 of RFC 7636). */
  predicate Proves(verifier: string, challenge: Digest) {
    43 <= |verifier| <= 128 && (forall i :: 0 <= i < |verifier| ==> Unreserved(verifier[i])) &&
    challenge == Sha256(verifier)
  }

  /** The request fits the code row. */
  predicate Fits(code: Code, x: ExchangeInput, now: Time) {
    && code.consumedAt.None? && now < code.expiresAt
    && code.client == x.caller.id && code.redirectUri == x.redirectUri
    && Proves(x.verifier, code.challenge)
  }

  /** The accounts and the consent behind the code stand, and the caller's copy of its client is true to them. */
  predicate Backed(db: Db, code: Code, x: ExchangeInput) {
    var key := GrantKey(code.user, code.client);
    && code.user in db.users && db.users[code.user].status == Active
    && code.client in db.clients && db.clients[code.client].status == Active
    && db.clients[code.client].publicId == x.caller.row.publicId
    && db.clients[code.client].kind == x.caller.row.kind
    && db.clients[code.client].authMethod == x.caller.row.authMethod
    && (db.clients[code.client].kind == Public <==> db.clients[code.client].authMethod == NoAuth)
    && code.redirectUri in db.clients[code.client].redirectUris
    && OpenId in code.scopes && code.scopes <= db.clients[code.client].scopes
    && key in db.grants && db.grants[key].id == code.grant && db.grants[key].revokedAt.None?
    && db.grants[key].version == code.grantVersion && code.scopes <= db.grants[key].scopes
  }

  /** The presented code is stored, fits the request and is backed. */
  ghost predicate Due(db: Db, x: ExchangeInput, now: Time) {
    var found := FindCode(db.codes, x.codeHash);
    && x.caller.id != NIL && x.redirectUri != ""
    && found.Some? && Fits(db.codes[found.value], x, now) && Backed(db, db.codes[found.value], x)
    && (OfflineAccess in db.codes[found.value].scopes ==>
          db.codes[found.value].originSession.Some? && db.codes[found.value].binding.Some?)
  }

  /** Whatever is exchanged fitted and was backed: nothing is assumed of the state, the configuration or the draws. */
  lemma IssuedRequired(db: Db, c: Config, x: ExchangeInput, d: CodeDraws, now: Time)
    requires Exchange(db, c, x, d, now).1.Issued?
    ensures Due(db, x, now)
  {
    hide Mint, ValidMinted, MintedFresh, StoreExchange;
    var found := FindCode(db.codes, x.codeHash);
    var code := db.codes[found.value];
    AuthorizedFits(db, code, x, now);
    MintNeedsSession(c, AuthorityOfCode(db, found.value, code, now), d);
  }

  lemma AuthorizedFits(db: Db, code: Code, x: ExchangeInput, now: Time)
    ensures CodeAuthorized(db, code, x, now) && code.consumedAt.None? <==> Fits(code, x, now) && Backed(db, code, x)
  {
    assert VerifyS256(x.verifier, code.challenge) <==> Proves(x.verifier, code.challenge) by {
      assert forall i :: 0 <= i < |x.verifier| ==> (VerifierChar(x.verifier[i]) <==> Unreserved(x.verifier[i]));
    }
  }

  lemma MintNeedsSession(c: Config, a: CodeAuthority, d: CodeDraws)
    requires Mint(c, a, d).Ok?
    ensures OfflineAccess in a.scopes ==> a.originSession.Some? && a.binding.Some?
  {
  }

  /**
   In a reachable state, with draws that collide with nothing: a code is exchanged exactly when the request
   fits, the code is backed and, for offline access, the session it was issued in is still recorded. A consumed
   code is answered as replayed; everything else is an invalid grant. Only an exchange changes anything.
   */
  lemma ExchangedExactly(db: Db, c: Config, x: ExchangeInput, d: CodeDraws, now: Time)
    requires Inv(db, now) && ValidConfig(c) && RoundTrips.FreshCodeDraws(db, d)
    requires x.caller.id != NIL && x.redirectUri != "" && x.verifier != ""
    ensures var (after, outcome) := Exchange(db, c, x, d, now);
      var found := FindCode(db.codes, x.codeHash);
      && (outcome.Issued? <==>
          && found.Some? && Fits(db.codes[found.value], x, now) && Backed(db, db.codes[found.value], x)
          && (OfflineAccess in db.codes[found.value].scopes ==> IsId(db.codes[found.value].originSession)))
      && (outcome.Replayed? <==> found.Some? && db.codes[found.value].consumedAt.Some?)
      && (outcome.Rejected? ==> outcome.error == InvalidGrant)
      && (!outcome.Issued? ==> after == db)
  {
    hide Inv, ValidConfig, StoreExchange, ValidMinted, HashJti, HashRefresh, RefreshToken, CodeAuthorized, Backed, Fits;
    hide Mint;
    var found := FindCode(db.codes, x.codeHash);
    if found.Some? {
      var code := db.codes[found.value];
      AuthorizedFits(db, code, x, now);
      if CodeAuthorized(db, code, x, now) && code.consumedAt.None? {
        CodeRow(db, found.value, now);
        MintsExactly(db, c, found.value, x, d, now);
        Progress.DomainsDisjoint(RefreshToken(d.raw), d.jti);
      } else {
        PositiveClock(db, now);
      }
    }
    PositiveClock(db, now);
  }

  lemma PositiveClock(db: Db, now: Time)
    requires Inv(db, now)
    ensures now > 0
  {
  }

  lemma CodeRow(db: Db, id: Id, now: Time)
    requires Inv(db, now) && id in db.codes
    ensures var code := db.codes[id];
      && now > 0 && id != NIL && code.grant != NIL && code.user != NIL && code.client != NIL
      && code.client in db.clients && db.clients[code.client].publicId != ""
      && IsId(code.binding) && code.authTime != 0 && code.authTime <= now
  {
    hide Inv;
    RoundTrips.CodeIds(db, id, now);
    CodeIsOk(db, id, now);
  }

  lemma CodeIsOk(db: Db, id: Id, now: Time)
    requires Inv(db, now) && id in db.codes
    ensures CodeOk(db.codes[id], now)
  {
    hide FreshOk, ClientsOk, GrantsOk, TransactionsOk, FamiliesOk, FamilyCodesOk, LiveFamiliesOk, GenerationsOk;
    hide ChainsOk, AccessesOk, AccessCodesOk, AccessFamiliesOk, AccessSourcesOk, LiveAccessesOk, SessionsOk, LogoutsOk;
  }

  lemma MintsExactly(db: Db, c: Config, id: Id, x: ExchangeInput, d: CodeDraws, now: Time)
    requires now > 0 && ValidConfig(c) && RoundTrips.FreshCodeDraws(db, d) && id in db.codes && id != NIL
    requires var code := db.codes[id];
      && CodeAuthorized(db, code, x, now) && code.grant != NIL && code.user != NIL && code.client != NIL
      && db.clients[code.client].publicId != "" && code.authTime != 0 && code.authTime <= now && IsId(code.binding)
    ensures var minted := Mint(c, AuthorityOfCode(db, id, db.codes[id], now), d);
      var offline := OfflineAccess in db.codes[id].scopes;
      && (minted.Ok? <==> offline ==> IsId(db.codes[id].originSession))
      && (minted.Err? ==> minted.error == InvalidGrant)
      && (minted.Ok? ==> ValidMinted(minted.value, now, offline) && MintedFresh(db, minted.value))
  {
    hide VerifyS256, ClaimsFor, ValidMinted, RefreshToken;
    var a := AuthorityOfCode(db, id, db.codes[id], now);
    DeadlinesExist(c, now);
    Progress.DomainsDisjoint(RefreshToken(d.raw), d.jti);
    if Mint(c, a, d).Ok? { MintedIsValid(c, a, d); }
  }

  lemma DeadlinesExist(c: Config, now: Time)
    requires ValidConfig(c) && now > 0
    ensures RefreshDeadlines(now, c.rollingTtl, c.absoluteTtl).Some?
  {
  }

  // ----- What an exchange writes and answers -----

  /** The access token names issuer, user, client and scopes, and lives for the configured time. */
  predicate ClaimsAre(claims: AccessClaims, c: Config, user: User, client: Client, scopes: set<Scope>, now: Time,
                      jti: string)
  {
    && claims.issuer == c.issuer && claims.audience == c.issuer + "/oauth2/userinfo"
    && claims.subject == user.subject && claims.clientId == client.publicId && claims.scope == ScopeText(scopes)
    && claims.issuedAt == now / SECOND - UNIX_OFFSET && claims.expiresAt == (now + c.accessTtl) / SECOND - UNIX_OFFSET
    && claims.jti == jti
  }

  /** An exchange consumes its code and inserts one access row; without offline access nothing else. */
  lemma ExchangeWrites(db: Db, c: Config, x: ExchangeInput, d: CodeDraws, now: Time)
    requires Exchange(db, c, x, d, now).1.Issued?
    ensures var (after, outcome) := Exchange(db, c, x, d, now);
      var id := FindCode(db.codes, x.codeHash).value;
      var code := db.codes[id];
      var offline := OfflineAccess in code.scopes;
      && FindCode(db.codes, x.codeHash).Some? && code.user in db.users && code.client in db.clients
      && (offline ==> code.binding.Some?)
      && after.codes == db.codes[id := code.(consumedAt := Some(now))]
      && after.accesses == db.accesses[d.accessId :=
           Access(HashJti(d.jti), Some(id), code.grant, code.user, code.client, code.scopes, now, now + c.accessTtl,
                  FromCode, None, if offline then Some(d.family) else None, code.originSession, code.binding, None)]
      && after.families == (if !offline then db.families else db.families[d.family :=
           Family(Some(id), code.grant, code.user, code.client, code.originSession, code.binding.value, code.scopes,
                  now, now + c.absoluteTtl, None)])
      && after.generations == (if !offline then db.generations else db.generations[d.token :=
           Generation(d.family, HashRefresh(RefreshToken(d.raw)), 0, now, now + c.rollingTtl, None)])
      && after.users == db.users && after.clients == db.clients && after.grants == db.grants
      && after.transactions == db.transactions && after.sessions == db.sessions && after.logouts == db.logouts
  {
    hide Exchange, VerifyS256, HashJti, HashRefresh, RefreshToken, SameClient, ValidMinted, MintedFresh, StoreExchange;
    hide Mint, ClaimsAre, CodeResponse, AccessFromCode;
    var m := TokenProofs.MintedFor(db, c, x, d, now);
    var id := FindCode(db.codes, x.codeHash).value;
    MintExact(c, AuthorityOfCode(db, id, db.codes[id], now), d);
    StoredRows(db, id, m, now);
    AccessRow(id, db.codes[id], m);
    StoredFamily(db, id, m, now);
  }

  lemma AccessRow(id: Id, code: Code, m: Minted)
    ensures AccessFromCode(id, code, m) ==
      Access(m.jtiHash, Some(id), code.grant, code.user, code.client, code.scopes, m.issuedAt, m.accessExpiresAt,
             FromCode, None, if m.initial.Some? then Some(m.initial.value.family) else None, code.originSession,
             code.binding, None)
  {
  }

  lemma StoredRows(db: Db, id: Id, m: Minted, now: Time)
    requires id in db.codes && (m.initial.Some? ==> db.codes[id].binding.Some?)
    ensures var after := StoreExchange(db, id, m, now);
      && after.codes == db.codes[id := Consumed(db.codes[id], now)]
      && after.accesses == db.accesses[m.accessId := AccessFromCode(id, db.codes[id], m)]
      && after.users == db.users && after.clients == db.clients && after.grants == db.grants
      && after.transactions == db.transactions && after.sessions == db.sessions && after.logouts == db.logouts
  {
    hide FamilyFromCode, FirstGeneration, AccessFromCode, Consumed;
  }

  lemma StoredFamily(db: Db, id: Id, m: Minted, now: Time)
    requires id in db.codes && (m.initial.Some? ==> db.codes[id].binding.Some?)
    ensures var after := StoreExchange(db, id, m, now);
      var code := db.codes[id];
      && after.families == (if m.initial.None? then db.families else db.families[m.initial.value.family :=
           Family(Some(id), code.grant, code.user, code.client, code.originSession, code.binding.value, code.scopes,
                  m.issuedAt, m.initial.value.absoluteExpiresAt, None)])
      && after.generations == (if m.initial.None? then db.generations else db.generations[m.initial.value.token :=
           Generation(m.initial.value.family, m.initial.value.hash, 0, m.issuedAt, m.initial.value.expiresAt, None)])
  {
    hide AccessFromCode;
  }

  lemma MintExact(c: Config, a: CodeAuthority, d: CodeDraws)
    requires Mint(c, a, d).Ok?
    ensures var m := Mint(c, a, d).value;
      && m.accessId == d.accessId && m.jtiHash == HashJti(d.jti) && m.issuedAt == a.issuedAt
      && m.accessExpiresAt == a.issuedAt + c.accessTtl && m.idExpiresAt == a.issuedAt + c.idTtl
      && ClaimsAre(m.access, c, a.user, a.client, a.scopes, a.issuedAt, d.jti)
      && (m.initial.Some? <==> OfflineAccess in a.scopes)
      && (m.initial.Some? ==>
            m.initial.value == InitialRefresh(d.family, d.token, HashRefresh(RefreshToken(d.raw)), RefreshToken(d.raw),
                                              a.issuedAt + c.rollingTtl, a.issuedAt + c.absoluteTtl))
  {
    hide HashJti, HashRefresh, RefreshToken, ScopeText;
  }

  /** The response carries the minted tokens, the lifetime in seconds and exactly the code's scopes. */
  lemma ExchangeAnswers(db: Db, c: Config, x: ExchangeInput, d: CodeDraws, now: Time)
    requires Exchange(db, c, x, d, now).1.Issued?
    ensures var r := Exchange(db, c, x, d, now).1.response;
      var code := db.codes[FindCode(db.codes, x.codeHash).value];
      && FindCode(db.codes, x.codeHash).Some? && code.user in db.users && code.client in db.clients
      && ClaimsAre(r.access, c, db.users[code.user], db.clients[code.client], code.scopes, now, d.jti)
      && r.expiresIn == c.accessTtl / SECOND && r.scopes == code.scopes
      && r.refresh == (if OfflineAccess in code.scopes then Some(RefreshToken(d.raw)) else None)
  {
    hide Exchange, VerifyS256, HashJti, HashRefresh, RefreshToken, SameClient, ValidMinted, MintedFresh, StoreExchange;
    hide Mint, ClaimsAre;
    var m := TokenProofs.MintedFor(db, c, x, d, now);
    var id := FindCode(db.codes, x.codeHash).value;
    MintExact(c, AuthorityOfCode(db, id, db.codes[id], now), d);
  }
}
