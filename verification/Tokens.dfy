/**
 The token transactions of storage/postgres/token.go, each as one atomic step from the state
 it locks to the state it commits: code exchange, refresh rotation with reuse detection, and
 client-requested revocation.
 */
module Tokens {
  import opened Schema
  import opened TokenPolicy
  import opened Revocation

  /** The client as authenticated by an earlier request: an id and a copy of its row. */
  datatype Caller = Caller(id: Id, row: Client)

  /** sameAuthenticatedClient. */
  predicate SameClient(id: Id, current: Client, caller: Caller) {
    && id == caller.id
    && current.publicId == caller.row.publicId
    && current.status == Active
    && current.kind == caller.row.kind
    && current.authMethod == caller.row.authMethod
    && ValidProfile(current)
  }

  predicate UserActive(db: Db, user: Id) {
    user in db.users && db.users[user].status == Active
  }

  /** The grant of a user and client, when it has this id and is not revoked. */
  predicate GrantStands(db: Db, user: Id, client: Id, grant: Id) {
    var key := GrantKey(user, client);
    key in db.grants && db.grants[key].id == grant && db.grants[key].revokedAt.None?
  }

  datatype Response = Response(access: AccessClaims, expiresIn: int, refresh: Option<string>, scopes: set<Scope>)

  // ----- Authorization code exchange -----

  predicate VerifierChar(c: char) {
    'A' <= c <= 'Z' || 'a' <= c <= 'z' || '0' <= c <= '9' || c == '-' || c == '.' || c == '_' || c == '~'
  }

  /** The S256 check of section 4.6 of RFC 7636. */
  predicate VerifyS256(verifier: string, challenge: Digest) {
    && 43 <= |verifier| <= 128
    && (forall i :: 0 <= i < |verifier| ==> VerifierChar(verifier[i]))
    && challenge == Sha256(verifier)
  }

  datatype ExchangeInput = ExchangeInput(codeHash: Digest, caller: Caller, redirectUri: string, verifier: string)

  datatype ExchangeOutcome = Issued(response: Response) | Replayed | Rejected(error: Error)

  /** Every check between locking the code and calling mint. */
  predicate CodeAuthorized(db: Db, code: Code, x: ExchangeInput, now: Time) {
    && now < code.expiresAt
    && code.client == x.caller.id
    && code.redirectUri == x.redirectUri
    && VerifyS256(x.verifier, code.challenge)
    && UserActive(db, code.user)
    && code.client in db.clients
    && SameClient(code.client, db.clients[code.client], x.caller)
    && code.redirectUri in db.clients[code.client].redirectUris
    && OpenId in code.scopes
    && code.scopes <= db.clients[code.client].scopes
    && GrantStands(db, code.user, code.client, code.grant)
    && db.grants[GrantKey(code.user, code.client)].version == code.grantVersion
    && code.scopes <= db.grants[GrantKey(code.user, code.client)].scopes * db.clients[code.client].scopes
  }

  function AuthorityOfCode(db: Db, id: Id, code: Code, now: Time): CodeAuthority
    requires code.user in db.users && code.client in db.clients
  {
    CodeAuthority(id, code.grant, code.user, db.users[code.user], code.client, db.clients[code.client],
                  code.originSession, code.binding, code.scopes, code.authTime, now)
  }

  /** No primary key or unique digest of the minted rows was ever stored before. */
  predicate MintedFresh(db: Db, m: Minted) {
    && m.accessId !in db.usedIds
    && m.jtiHash !in db.usedHashes
    && (m.initial.Some? ==>
          && m.initial.value.family !in db.usedIds
          && m.initial.value.token !in db.usedIds
          && m.initial.value.hash !in db.usedHashes
          && m.initial.value.family != m.initial.value.token
          && m.initial.value.family != m.accessId
          && m.initial.value.token != m.accessId
          && m.initial.value.hash != m.jtiHash)
  }

  function AccessFromCode(id: Id, code: Code, m: Minted): Access {
    Access(m.jtiHash, Some(id), code.grant, code.user, code.client, code.scopes, m.issuedAt, m.accessExpiresAt,
           FromCode, None, if m.initial.Some? then Some(m.initial.value.family) else None,
           code.originSession, code.binding, None)
  }

  function FamilyFromCode(id: Id, code: Code, m: Minted): Family
    requires m.initial.Some? && code.binding.Some?
  {
    Family(Some(id), code.grant, code.user, code.client, code.originSession, code.binding.value, code.scopes,
           m.issuedAt, m.initial.value.absoluteExpiresAt, None)
  }

  function FirstGeneration(m: Minted): Generation
    requires m.initial.Some?
  {
    Generation(m.initial.value.family, m.initial.value.hash, 0, m.issuedAt, m.initial.value.expiresAt, None)
  }

  function Consumed(code: Code, now: Time): Code {
    code.(consumedAt := Some(now))
  }

  /** The rows an exchange inserts and the code it consumes. */
  function StoreExchange(db: Db, id: Id, m: Minted, now: Time): (after: Db)
    requires id in db.codes && (m.initial.Some? ==> db.codes[id].binding.Some?)
    ensures after.logouts == db.logouts && after.users == db.users && after.sessions == db.sessions
    ensures after.grants == db.grants
  {
    var code := db.codes[id];
    var base := db.(
      accesses := db.accesses[m.accessId := AccessFromCode(id, code, m)],
      codes := db.codes[id := Consumed(code, now)],
      usedIds := db.usedIds + {m.accessId},
      usedHashes := db.usedHashes + {m.jtiHash});
    if m.initial.None? then base
    else
      var first := m.initial.value;
      base.(
        families := db.families[first.family := FamilyFromCode(id, code, m)],
        generations := db.generations[first.token := FirstGeneration(m)],
        usedIds := base.usedIds + {first.family, first.token},
        usedHashes := base.usedHashes + {first.hash})
  }

  function CodeResponse(m: Minted, code: Code): Response {
    Response(m.access, (m.accessExpiresAt - m.issuedAt) / SECOND,
             if m.initial.Some? then Some(m.initial.value.clear) else None, code.scopes)
  }

  /** ExchangeAuthorizationCode. */
  ghost function Exchange(db: Db, c: Config, x: ExchangeInput, d: CodeDraws, now: Time): (r: (Db, ExchangeOutcome))
    ensures r.0.logouts == db.logouts && r.0.users == db.users && r.0.sessions == db.sessions
    ensures r.0.grants == db.grants
  {
    var found := FindCode(db.codes, x.codeHash);
    if x.caller.id == NIL || x.redirectUri == "" || x.verifier == "" || now == 0 || found.None?
    then (db, Rejected(InvalidGrant))
    else ExchangeLocked(db, c, found.value, x, d, now)
  }

  function ExchangeLocked(db: Db, c: Config, id: Id, x: ExchangeInput, d: CodeDraws, now: Time)
    : (r: (Db, ExchangeOutcome))
    requires id in db.codes
    ensures !r.1.Issued? ==> r.0 == db
    ensures r.0.logouts == db.logouts && r.0.users == db.users && r.0.sessions == db.sessions
    ensures r.0.grants == db.grants
  {
    var code := db.codes[id];
    if code.consumedAt.Some? then (db, Replayed)
    else if !CodeAuthorized(db, code, x, now) then (db, Rejected(InvalidGrant))
    else
      var minted := Mint(c, AuthorityOfCode(db, id, code, now), d);
      if minted.Err? then (db, Rejected(minted.error))
      else
        var m := minted.value;
        if !ValidMinted(m, now, OfflineAccess in code.scopes) then (db, Rejected(InvalidOperation))
        else if !MintedFresh(db, m) then (db, Rejected(StorageFailure))
        else (StoreExchange(db, id, m, now), Issued(CodeResponse(m, code)))
  }

  // ----- Refresh -----

  datatype RefreshInput = RefreshInput(hash: Digest, caller: Caller, requested: Option<set<Scope>>)

  datatype RefreshOutcome = Rotated(response: Response) | Reused | Refused(error: Error)

  /** The user, client, grant and family checks made before the generation is locked. */
  predicate FamilyAuthorized(db: Db, family: Family, caller: Caller, now: Time) {
    && UserActive(db, family.user)
    && family.client in db.clients
    && SameClient(family.client, db.clients[family.client], caller)
    && GrantStands(db, family.user, family.client, family.grant)
    && db.grants[GrantKey(family.user, family.client)].version >= 1
    && family.revokedAt.None?
    && now < family.absoluteExpiresAt
  }

  function AuthorityOfRefresh(db: Db, g: Id, scopes: set<Scope>, now: Time): RefreshAuthority
    requires g in db.generations && db.generations[g].family in db.families
    requires FamilyKnown(db, db.families[db.generations[g].family])
  {
    var presented := db.generations[g];
    var family := db.families[presented.family];
    RefreshAuthority(g, presented, presented.family, family, db.grants[GrantKey(family.user, family.client)],
                     family.user, db.users[family.user], family.client, db.clients[family.client], scopes, now)
  }

  predicate FamilyKnown(db: Db, family: Family) {
    family.user in db.users && family.client in db.clients && GrantKey(family.user, family.client) in db.grants
  }

  /** UNIQUE (family_id, generation). */
  predicate NumberTaken(generations: map<Id, Generation>, family: Id, number: int) {
    exists g :: g in generations && generations[g].family == family && generations[g].number == number
  }

  /** UNIQUE (source_refresh_token_id). */
  predicate SourceTaken(accesses: map<Id, Access>, g: Id) {
    exists a :: a in accesses && accesses[a].sourceGeneration == Some(g)
  }

  predicate RefreshMintedFresh(db: Db, m: RefreshMinted, family: Id, presented: Id, number: int) {
    && m.accessId !in db.usedIds
    && m.replacement !in db.usedIds
    && m.accessId != m.replacement
    && m.jtiHash !in db.usedHashes
    && m.replacementHash !in db.usedHashes
    && m.replacementHash != m.jtiHash
    && !NumberTaken(db.generations, family, number)
    && !SourceTaken(db.accesses, presented)
  }

  function AccessFromRefresh(g: Id, familyId: Id, family: Family, scopes: set<Scope>, m: RefreshMinted): Access {
    Access(m.jtiHash, None, family.grant, family.user, family.client, scopes, m.issuedAt, m.accessExpiresAt,
           FromRefresh, Some(g), Some(familyId), family.originSession, Some(family.binding), None)
  }

  /** Consume the presented generation, insert its successor and the new access row. */
  function StoreRotation(db: Db, g: Id, scopes: set<Scope>, m: RefreshMinted, now: Time): (after: Db)
    requires g in db.generations && db.generations[g].family in db.families
    ensures after.logouts == db.logouts && after.users == db.users && after.sessions == db.sessions
    ensures after.grants == db.grants
  {
    var presented := db.generations[g];
    var family := db.families[presented.family];
    db.(
      generations := db.generations
        [g := presented.(consumedAt := Some(now))]
        [m.replacement := Generation(presented.family, m.replacementHash, presented.number + 1,
                                     m.issuedAt, m.replacementExpiresAt, None)],
      accesses := db.accesses[m.accessId := AccessFromRefresh(g, presented.family, family, scopes, m)],
      usedIds := db.usedIds + {m.accessId, m.replacement},
      usedHashes := db.usedHashes + {m.jtiHash, m.replacementHash})
  }

  function RefreshResponse(m: RefreshMinted, scopes: set<Scope>): Response {
    Response(m.access, (m.accessExpiresAt - m.issuedAt) / SECOND, Some(m.replacementClear), scopes)
  }

  /** ExchangeRefreshToken, as one step on the locked state. */
  ghost function Refresh(db: Db, c: Config, x: RefreshInput, d: RefreshDraws, now: Time): (r: (Db, RefreshOutcome))
    ensures r.0.logouts == db.logouts && r.0.users == db.users && r.0.sessions == db.sessions
    ensures r.0.grants == db.grants
  {
    var found := FindGeneration(db.generations, x.hash);
    if x.caller.id == NIL || now == 0 || found.None? || db.generations[found.value].family !in db.families
    then (db, Refused(InvalidGrant))
    else RefreshLocked(db, c, found.value, x, d, now)
  }

  function RefreshLocked(db: Db, c: Config, g: Id, x: RefreshInput, d: RefreshDraws, now: Time)
    : (r: (Db, RefreshOutcome))
    requires g in db.generations && db.generations[g].family in db.families
    ensures r.0.logouts == db.logouts && r.0.users == db.users && r.0.sessions == db.sessions
    ensures r.0.grants == db.grants
  {
    var presented := db.generations[g];
    var family := db.families[presented.family];
    if !FamilyAuthorized(db, family, x.caller, now) then (db, Refused(InvalidGrant))
    else if presented.consumedAt.Some? then (Cascade(db, OfFamily(presented.family), now), Reused)
    else if now >= presented.expiresAt then (db, Refused(InvalidGrant))
    else Rotate(db, c, g, x, d, now)
  }

  function Rotate(db: Db, c: Config, g: Id, x: RefreshInput, d: RefreshDraws, now: Time): (r: (Db, RefreshOutcome))
    requires g in db.generations && db.generations[g].family in db.families
    requires FamilyAuthorized(db, db.families[db.generations[g].family], x.caller, now)
    ensures r.0.logouts == db.logouts && r.0.users == db.users && r.0.sessions == db.sessions
    ensures r.0.grants == db.grants
  {
    var presented := db.generations[g];
    var family := db.families[presented.family];
    var selected := SelectScopes(x.requested, family.scopes, db.grants[GrantKey(family.user, family.client)].scopes,
                                 db.clients[family.client].scopes);
    if selected.Err? then (db, Refused(selected.error))
    else
      var minted := MintRefresh(c, AuthorityOfRefresh(db, g, selected.value, now), d);
      if minted.Err? then (db, Refused(minted.error))
      else
        var m := minted.value;
        if !ValidRefreshMinted(m, g, presented, family, now) then (db, Refused(InvalidOperation))
        else if !RefreshMintedFresh(db, m, presented.family, g, presented.number + 1) then (db, Refused(StorageFailure))
        else (StoreRotation(db, g, selected.value, m, now), Rotated(RefreshResponse(m, selected.value)))
  }

  // ----- Client-requested revocation (section 2 of RFC 7009) -----

  /** The checks of revokeAccessCandidate. */
  predicate AccessRevocable(db: Db, a: Access, caller: Caller, now: Time) {
    && UserActive(db, a.user)
    && a.client in db.clients
    && SameClient(a.client, db.clients[a.client], caller)
    && GrantStands(db, a.user, a.client, a.grant)
    && a.scopes <= db.grants[GrantKey(a.user, a.client)].scopes * db.clients[a.client].scopes
    && (a.family.Some? ==>
          && a.family.value in db.families
          && var f := db.families[a.family.value];
             f.revokedAt.None? && now < f.absoluteExpiresAt && f.user == a.user && f.client == a.client &&
             f.grant == a.grant && a.scopes <= f.scopes)
    && a.revokedAt.None?
    && now < a.expiresAt
  }

  ghost function RevokeAccessToken(db: Db, caller: Caller, jtiHash: Digest, now: Time): (after: Db)
    ensures after.logouts == db.logouts && after.generations == db.generations
    ensures after.users == db.users && after.sessions == db.sessions
    ensures after.grants == db.grants
  {
    var found := FindAccess(db.accesses, jtiHash);
    if found.Some? && AccessRevocable(db, db.accesses[found.value], caller, now) then
      db.(accesses := db.accesses[found.value := db.accesses[found.value].(revokedAt := Some(now))])
    else db
  }

  /** revokeRefreshCandidate: any generation of a live family revokes the whole family. */
  ghost function RevokeRefreshToken(db: Db, caller: Caller, hash: Digest, now: Time): (after: Db)
    ensures after.logouts == db.logouts && after.generations == db.generations
    ensures after.users == db.users && after.sessions == db.sessions
    ensures after.grants == db.grants
  {
    var found := FindGeneration(db.generations, hash);
    if found.Some? && db.generations[found.value].family in db.families &&
       RefreshRevocable(db, db.families[db.generations[found.value].family], caller, now)
    then Cascade(db, OfFamily(db.generations[found.value].family), now)
    else db
  }

  predicate RefreshRevocable(db: Db, family: Family, caller: Caller, now: Time) {
    && UserActive(db, family.user)
    && family.client in db.clients
    && SameClient(family.client, db.clients[family.client], caller)
    && GrantStands(db, family.user, family.client, family.grant)
    && family.revokedAt.None?
    && now < family.absoluteExpiresAt
  }

  /** RevokeToken: an access row found by its jti takes the request; otherwise a refresh generation may. */
  ghost function RevokeToken(db: Db, caller: Caller, jti: Option<Digest>, refresh: Option<Digest>, now: Time)
    : (after: Db)
    ensures after.logouts == db.logouts && after.generations == db.generations
    ensures after.users == db.users && after.sessions == db.sessions
    ensures after.grants == db.grants
  {
    if caller.id == NIL || now == 0 then db
    else if jti.Some? && FindAccess(db.accesses, jti.value).Some? then RevokeAccessToken(db, caller, jti.value, now)
    else if refresh.Some? then RevokeRefreshToken(db, caller, refresh.value, now)
    else db
  }
}
