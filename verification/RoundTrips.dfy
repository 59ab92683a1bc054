/**
 What a response hands out works: the access token is accepted, the refresh token can be
 presented; and what is handed back by revocation stops working for good.
 */
module RoundTrips {
  import opened Schema
  import opened ScopeClaims
  import opened TokenPolicy
  import opened Revocation
  import opened Tokens
  import opened Invariants
  import opened Machine
  import opened Progress
  import opened Introspection
  import opened Finality
  import opened Authorization
  import IssueProofs
  import TokenProofs
  import WithdrawalProofs

  // ----- Codes -----

  /** Random draws that collide with nothing stored. */
  ghost predicate FreshCodeDraws(db: Db, d: CodeDraws) {
    && RealDraws(d)
    && d.accessId !in db.usedIds && d.family !in db.usedIds && d.token !in db.usedIds
    && d.family != d.token && d.family != d.accessId && d.token != d.accessId
    && HashJti(d.jti) !in db.usedHashes && HashRefresh(RefreshToken(d.raw)) !in db.usedHashes
  }

  /** The request a client makes to redeem the code of this transaction. */
  predicate Redeems(x: ExchangeInput, issue: IssueInput, request: AuthRequest) {
    && x.codeHash == issue.codeHash && x.redirectUri == request.redirectUri && x.redirectUri != ""
    && VerifyS256(x.verifier, request.challenge)
    && request.client == Some(x.caller.id) && x.caller.id != NIL
  }

  /** The state after issue authorizes exactly the code it stored. */
  lemma IssuedCodeAuthorized(db: Db, issue: IssueInput, x: ExchangeInput, now: Time)
    requires Inv(db, now) && Issue(db, issue, now).1.CodeIssued? && Genuine(db, x.caller)
    requires Redeems(x, issue, db.transactions[issue.transaction].request)
    ensures var after := Issue(db, issue, now).0;
      && issue.code in after.codes && after.codes[issue.code].hash == issue.codeHash
      && after.codes[issue.code].consumedAt.None?
      && after.codes[issue.code].user == issue.user
      && after.codes[issue.code].scopes == db.transactions[issue.transaction].request.scopes
      && after.codes[issue.code].originSession == Some(issue.session)
      && after.codes[issue.code].binding == Some(issue.binding)
      && after.codes[issue.code].authTime == issue.authenticatedAt
      && CodeAuthorized(after, after.codes[issue.code], x, now)
  {
    hide Inv, Stable, VerifyS256, ApplyConsent;
    var row := db.transactions[issue.transaction];
    var key := GrantKey(issue.user, row.request.client.value);
    IssueProofs.ConsentKeeps(db, key, row.request.scopes, issue, now);
  }

  lemma CodeMints(db: Db, c: Config, id: Id, x: ExchangeInput, d: CodeDraws, now: Time)
    requires now > 0 && ValidConfig(c) && RealDraws(d) && id in db.codes && id != NIL
    requires var code := db.codes[id];
      && CodeAuthorized(db, code, x, now) && code.grant != NIL && code.user != NIL && code.client != NIL
      && db.clients[code.client].publicId != "" && code.authTime != 0 && code.authTime <= now
      && IsId(code.originSession) && IsId(code.binding)
    ensures var minted := Mint(c, AuthorityOfCode(db, id, db.codes[id], now), d);
      minted.Ok? && ValidMinted(minted.value, now, OfflineAccess in db.codes[id].scopes)
  {
    hide VerifyS256, HashJti, HashRefresh, RefreshToken, ClaimsFor, ValidMinted;
    MintedIsValid(c, AuthorityOfCode(db, id, db.codes[id], now), d);
  }

  lemma CodeIds(db: Db, id: Id, now: Time)
    requires Inv(db, now) && id in db.codes
    ensures var code := db.codes[id];
      && now > 0 && id != NIL && code.grant != NIL && code.user != NIL && code.client != NIL
      && code.client in db.clients && db.clients[code.client].publicId != ""
      && FindCode(db.codes, code.hash) == Some(id)
  {
    hide TransactionsOk, FamiliesOk, FamilyCodesOk, LiveFamiliesOk, GenerationsOk;
    hide ChainsOk, AccessesOk, AccessCodesOk, AccessFamiliesOk, AccessSourcesOk, LiveAccessesOk, SessionsOk, LogoutsOk;
    hide BindingsFresh, CodeHashesFresh, GenerationHashesFresh, AccessHashesFresh, SessionHashesFresh,
         LogoutHashesFresh;
    assert Fenced(db.codes[id], db.grants);
  }

  /** A freshly issued code is exchanged for tokens when its client redeems it with the right redirect URI and
      verifier. */
  lemma IssuedCodeExchanges(db: Db, c: Config, issue: IssueInput, x: ExchangeInput, d: CodeDraws, now: Time)
    requires Inv(db, now) && Issue(db, issue, now).1.CodeIssued? && Genuine(db, x.caller) && ValidConfig(c)
    requires Redeems(x, issue, db.transactions[issue.transaction].request)
    requires FreshCodeDraws(Issue(db, issue, now).0, d)
    ensures var outcome := Exchange(Issue(db, issue, now).0, c, x, d, now).1;
      var scopes := db.transactions[issue.transaction].request.scopes;
      && outcome.Issued? && outcome.response.scopes == scopes
      && (outcome.response.refresh.Some? <==> OfflineAccess in scopes)
  {
    hide ValidMinted, StoreExchange;
    hide Inv, Stable, Issue, CodeAuthorized, VerifyS256, ValidConfig, HashJti, HashRefresh, RefreshToken, ClaimsFor;
    var after := Issue(db, issue, now).0;
    IssueProofs.IssueKeeps(db, issue, now);
    IssuedCodeAuthorized(db, issue, x, now);
    IssuedIds(db, issue, now);
    CodeIds(after, issue.code, now);
    VerifierNotEmpty(x.verifier, db.transactions[issue.transaction].request.challenge);
    CodeMints(after, c, issue.code, x, d, now);
    DomainsDisjoint(RefreshToken(d.raw), d.jti);
  }

  lemma VerifierNotEmpty(verifier: string, challenge: Digest)
    requires VerifyS256(verifier, challenge)
    ensures verifier != ""
  {
  }

  lemma IssuedIds(db: Db, issue: IssueInput, now: Time)
    requires Issue(db, issue, now).1.CodeIssued?
    ensures issue.transaction in db.transactions
    ensures issue.session != NIL && issue.binding != NIL && issue.authenticatedAt != 0 && issue.authenticatedAt <= now
  {
    hide ApplyConsent, ClientAdmits;
  }

  // ----- Access tokens -----

  /** A stored row whose minted claims verify is accepted, with the row's subject and scopes. */
  lemma StoredRowAccepted(db: Db, c: Config, jose: string -> Option<AccessClaims>, token: string, id: Id, now: Time)
    requires Inv(db, now) && id in db.accesses && db.accesses[id].revokedAt.None? && now < db.accesses[id].expiresAt
    requires VerifyAccess(c, jose, token, now).Some?
    requires ClaimsOfRow(db, c, db.accesses[id], VerifyAccess(c, jose, token, now).value)
    requires db.accesses[id].scopes <= db.clients[db.accesses[id].client].scopes
    requires var f := db.accesses[id].family;
      f.Some? ==> f.value in db.families && now < db.families[f.value].absoluteExpiresAt
    ensures UserInfoFor(db, c, jose, token, now) ==
      Some(UserInfo(db.users[db.accesses[id].user].subject, db.accesses[id].scopes))
  {
    hide Inv, VerifyAccess, AuthorityMatches, HashJti, ScopeText, Unix, UserInfoAudience;
    LiveAccessAccepted(db, c, jose, token, id, now);
    LiveRowFacts(db, id, now);
  }

  /** The row an exchange stores carries the claims it minted, within the client's scopes and before any deadline. */
  lemma ExchangedRow(db: Db, c: Config, id: Id, x: ExchangeInput, d: CodeDraws, m: Minted, now: Time)
    requires id in db.codes && CodeAuthorized(db, db.codes[id], x, now)
    requires Mint(c, AuthorityOfCode(db, id, db.codes[id], now), d) == Ok(m)
    requires ValidMinted(m, now, OfflineAccess in db.codes[id].scopes) &&
             (m.initial.Some? ==> db.codes[id].binding.Some?)
    ensures var after, code := StoreExchange(db, id, m, now), db.codes[id];
      && after.users == db.users && after.clients == db.clients
      && m.accessId in after.accesses
      && var a := after.accesses[m.accessId];
         && a.user == code.user && a.client == code.client && a.scopes == code.scopes
         && a.revokedAt.None? && now < a.expiresAt
         && ClaimsOfRow(after, c, a, m.access)
         && a.scopes <= after.clients[a.client].scopes
         && (a.family.Some? ==>
               a.family.value in after.families && now < after.families[a.family.value].absoluteExpiresAt)
  {
    hide VerifyS256, HashJti, HashRefresh, RefreshToken, ScopeText, Unix, UserInfoAudience, DigestPresented, SameClient;
  }

  /** The access token of an exchange is accepted at once, for the code's user and scopes. */
  lemma ExchangedAccessAccepted(db: Db, c: Config, x: ExchangeInput, d: CodeDraws, now: Time,
                                jose: string -> Option<AccessClaims>, token: string)
    requires Inv(db, now) && Exchange(db, c, x, d, now).1.Issued?
    requires VerifyAccess(c, jose, token, now) == Some(Exchange(db, c, x, d, now).1.response.access)
    ensures FindCode(db.codes, x.codeHash).Some?
    ensures var code := db.codes[FindCode(db.codes, x.codeHash).value];
      code.user in db.users &&
      UserInfoFor(Exchange(db, c, x, d, now).0, c, jose, token, now) ==
      Some(UserInfo(db.users[code.user].subject, code.scopes))
  {
    hide Inv, Stable, VerifyAccess, Exchange, UserInfoFor, StoreExchange, Mint, ValidMinted, MintedFresh, ClaimsOfRow;
    hide CodeAuthorized;
    var m := TokenProofs.MintedFor(db, c, x, d, now);
    TokenProofs.ExchangeKeeps(db, c, x, d, now);
    var id := FindCode(db.codes, x.codeHash).value;
    assert db.codes[id].user in db.users by { CodeOwner(db, db.codes[id], x, now); }
    ExchangedRow(db, c, id, x, d, m, now);
    StoredRowAccepted(Exchange(db, c, x, d, now).0, c, jose, token, m.accessId, now);
  }

  lemma CodeOwner(db: Db, code: Code, x: ExchangeInput, now: Time)
    requires CodeAuthorized(db, code, x, now)
    ensures code.user in db.users
  {
  }

  /** The access token of a rotation is accepted at once, for the family's user and the granted scopes. */
  lemma RotatedAccessAccepted(db: Db, c: Config, x: RefreshInput, d: RefreshDraws, now: Time,
                              jose: string -> Option<AccessClaims>, token: string)
    requires Inv(db, now) && Refresh(db, c, x, d, now).1.Rotated?
    requires VerifyAccess(c, jose, token, now) == Some(Refresh(db, c, x, d, now).1.response.access)
    ensures var f := FamilyPresented(db, x.hash);
      f in db.families && db.families[f].user in db.users &&
      UserInfoFor(Refresh(db, c, x, d, now).0, c, jose, token, now) ==
      Some(UserInfo(db.users[db.families[f].user].subject, Refresh(db, c, x, d, now).1.response.scopes))
  {
    hide Inv, Stable, VerifyAccess, HashJti, HashRefresh, RefreshToken, ScopeText, Unix, UserInfoAudience;
    hide Refresh, UserInfoFor, DigestPresented, SameClient, RefreshMintedFresh;
    var g, scopes, m := TokenProofs.RotationOf(db, c, x, d, now);
    var after := Refresh(db, c, x, d, now).0;
    TokenProofs.RefreshKeeps(db, c, x, d, now);
    StoredRowAccepted(after, c, jose, token, m.accessId, now);
  }

  // ----- Refresh tokens -----

  /** The token's digest names a generation its client can present. */
  ghost predicate Usable(db: Db, token: string, caller: Caller, now: Time) {
    && DigestPresented(token).Some?
    && var found := FindGeneration(db.generations, DigestPresented(token).value);
       found.Some? && Presentable(db, found.value, caller, now)
  }

  /** The refresh token of an exchange can be presented by the client that received it. */
  lemma ExchangedRefreshUsable(db: Db, c: Config, x: ExchangeInput, d: CodeDraws, now: Time)
    requires Inv(db, now) && Exchange(db, c, x, d, now).1.Issued? && Exchange(db, c, x, d, now).1.response.refresh.Some?
    ensures Usable(Exchange(db, c, x, d, now).0, Exchange(db, c, x, d, now).1.response.refresh.value, x.caller, now)
  {
    hide Inv, Stable, VerifyS256, HashJti, HashRefresh, RefreshToken, ClaimsFor, Exchange, DigestPresented, Mint;
    var m := TokenProofs.MintedFor(db, c, x, d, now);
    var after := Exchange(db, c, x, d, now).0;
    TokenProofs.ExchangeKeeps(db, c, x, d, now);
    HashFindsGeneration(after, m.initial.value.token, now);
  }

  /** The refresh token of a rotation can be presented next, so the chain goes on until its deadline. */
  lemma RotatedRefreshUsable(db: Db, c: Config, x: RefreshInput, d: RefreshDraws, now: Time)
    requires Inv(db, now) && Refresh(db, c, x, d, now).1.Rotated?
    ensures Refresh(db, c, x, d, now).1.response.refresh.Some?
    ensures Usable(Refresh(db, c, x, d, now).0, Refresh(db, c, x, d, now).1.response.refresh.value, x.caller, now)
  {
    hide Inv, Stable, HashJti, HashRefresh, RefreshToken, ClaimsFor, Refresh, DigestPresented, MintRefresh,
         SelectScopes;
    var g, scopes, m := TokenProofs.RotationOf(db, c, x, d, now);
    var after := Refresh(db, c, x, d, now).0;
    TokenProofs.RefreshKeeps(db, c, x, d, now);
    HashFindsGeneration(after, m.replacement, now);
  }

  // ----- Revocation -----

  /** Revoking any generation of one's own live family ends the family and its access rows for good. */
  lemma RevokedRefreshIsFinal(s: Settings, at: State, caller: Caller, hash: Digest, ticks: seq<Tick>)
    requires Good(at) && caller.id != NIL
    requires var found := FindGeneration(at.db.generations, hash);
      && found.Some? && at.db.generations[found.value].family in at.db.families
      && RefreshRevocable(at.db, at.db.families[at.db.generations[found.value].family], caller, at.clock)
    ensures var sel := OfFamily(FamilyPresented(at.db, hash));
      var end := Run(s, Step(s, at, Tick(0, TokenRevoked(caller, None, Some(hash)))), ticks);
      && FamilyPresented(at.db, hash) in FamiliesOf(at.db, sel)
      && NoneAccepted(s, end, FamiliesOf(at.db, sel), AccessesOf(at.db, sel), {})
  {
    hide Inv, Stable, Run, NoneAccepted, AccessesOf, Cascade, RefreshRevocable;
    TokenProofs.ClockIsPositive(at.db, at.clock);
    var f := FamilyPresented(at.db, hash);
    WithdrawalProofs.CascadeEmpties(at.db, OfFamily(f), at.clock);
    WithdrawalIsFinal(s, at, TokenRevoked(caller, None, Some(hash)), OfFamily(f), ticks);
  }

  /** Revoking an access token that its client could use ends that token for good. */
  lemma RevokedAccessIsFinal(s: Settings, at: State, caller: Caller, jti: Digest, refresh: Option<Digest>,
                             ticks: seq<Tick>)
    requires Good(at) && caller.id != NIL
    requires var found := FindAccess(at.db.accesses, jti);
      found.Some? && AccessRevocable(at.db, at.db.accesses[found.value], caller, at.clock)
    ensures var id := FindAccess(at.db.accesses, jti).value;
      var end := Run(s, Step(s, at, Tick(0, TokenRevoked(caller, Some(jti), refresh))), ticks);
      NoneAccepted(s, end, {}, {id}, {})
  {
    hide Inv, Stable, Run, NoneAccepted, AccessRevocable;
    TokenProofs.ClockIsPositive(at.db, at.clock);
    var id := FindAccess(at.db.accesses, jti).value;
    var e := TokenRevoked(caller, Some(jti), refresh);
    TickKeeps(s, at, Tick(0, e));
    RowIdsUsed(at.db, id, at.clock);
    var after := Step(s, at, Tick(0, e));
    assert AllDead(after, {}, {id}, {});
    DeadForever(s, after, {}, {id}, {}, ticks);
  }
}
