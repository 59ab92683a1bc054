/**
 UserInfo and restricted introspection (token.go, lifecycle.go): decisions over one consistent
 snapshot. The signature check and JSON decoding of a compact token are a parameter `jose`.
 */
module Introspection {
  import opened Schema
  import opened ScopeClaims
  import opened TokenPolicy
  import opened Tokens
  import opened Invariants
  import opened Progress
  import Base64
  import TokenProofs

  const MAX_PRESENTED: nat := 16384

  const JTI_PREFIX: string := "jti_"

  function Dots(text: string): nat {
    if text == [] then 0 else (if text[0] == '.' then 1 else 0) + Dots(text[1..])
  }

  predicate ValidJti(jti: string) {
    && |jti| >= 4 && jti[..4] == JTI_PREFIX
    && var raw := Base64.Decode(jti[4..]); raw.Some? && |raw.value| == 16
  }

  /** The claim checks of verifyAccessToken. */
  predicate ClaimsValid(c: Config, claims: AccessClaims, now: Time) {
    && claims.issuer == c.issuer && claims.audience == UserInfoAudience(c)
    && claims.subject != "" && claims.clientId != ""
    && 0 < claims.issuedAt < claims.expiresAt
    && (claims.expiresAt + UNIX_OFFSET) * SECOND >= now - c.clockSkew
    && (claims.issuedAt + UNIX_OFFSET) * SECOND <= now + c.clockSkew
    && claims.expiresAt - claims.issuedAt <= 1800
    && ValidJti(claims.jti)
    && ParseScopeClaim(claims.scope).Some? && OpenId in ParseScopeClaim(claims.scope).value
  }

  /** verifyAccessToken. */
  function VerifyAccess(c: Config, jose: string -> Option<AccessClaims>, token: string, now: Time)
    : Option<AccessClaims>
  {
    if token == "" || |token| > MAX_PRESENTED || !Trimmed(token) || Dots(token) != 2 then None
    else
      var claims := jose(token);
      if claims.Some? && ClaimsValid(c, claims.value, now) then claims else None
  }

  /** GetAccessTokenAuthority finds this row and the rows it needs. */
  predicate AuthorityLoads(db: Db, a: Access, now: Time) {
    && now != 0 && now < a.expiresAt
    && UserActive(db, a.user)
    && a.client in db.clients && db.clients[a.client].status == Active
    && GrantKey(a.user, a.client) in db.grants && db.grants[GrantKey(a.user, a.client)].id == a.grant
    && (a.family.Some? ==> a.family.value in db.families)
  }

  /** accessAuthorityMatches. */
  predicate AuthorityMatches(db: Db, c: Config, id: Id, a: Access, claims: AccessClaims, now: Time)
    requires AuthorityLoads(db, a, now)
  {
    var grant := db.grants[GrantKey(a.user, a.client)];
    var client := db.clients[a.client];
    && OpenId in a.scopes && id != NIL && a.grant != NIL && a.revokedAt.None? && a.user != NIL
    && a.issuedAt != 0 && a.issuedAt < a.expiresAt
    && ActiveClient(a.client, client) && grant.version >= 1 && grant.revokedAt.None?
    && (match a.source
        case FromCode => a.sourceGeneration.None?
        case FromRefresh => a.code.None? && a.sourceGeneration.Some? && a.family.Some? && a.binding.Some?)
    && (a.family.Some? ==>
          var f := db.families[a.family.value];
          && f.revokedAt.None? && now < f.absoluteExpiresAt
          && f.user == a.user && f.client == a.client && f.grant == a.grant && a.binding == Some(f.binding)
          && OpenId in f.scopes && OfflineAccess in f.scopes && a.scopes <= f.scopes)
    && ParseScopeClaim(claims.scope) == Some(a.scopes)
    && a.scopes <= client.scopes && a.scopes <= grant.scopes * client.scopes
    && claims.issuer == c.issuer && claims.audience == UserInfoAudience(c)
    && claims.subject == db.users[a.user].subject && claims.clientId == client.publicId
    && claims.issuedAt == Unix(a.issuedAt) && claims.expiresAt == Unix(a.expiresAt)
    && HashJti(claims.jti) == a.jtiHash
  }

  datatype UserInfo = UserInfo(subject: string, scopes: set<Scope>)

  /** UserInfoForAccessToken; the scopes decide which profile claims are released. */
  ghost function UserInfoFor(db: Db, c: Config, jose: string -> Option<AccessClaims>, token: string, now: Time)
    : Option<UserInfo>
  {
    var claims := VerifyAccess(c, jose, token, now);
    if claims.None? then None
    else
      var found := FindAccess(db.accesses, HashJti(claims.value.jti));
      if found.None? || !AuthorityLoads(db, db.accesses[found.value], now) then None
      else
        var a := db.accesses[found.value];
        if AuthorityMatches(db, c, found.value, a, claims.value, now) then
          Some(UserInfo(db.users[a.user].subject, a.scopes))
        else None
  }

  datatype Answer =
    | Inactive
    | ActiveAccess(clientId: string, scope: string, subject: string, issuer: string, audience: string, issuedAt: int,
                   expiresAt: int)
    | ActiveRefresh(clientId: string, scope: string, subject: string, issuer: string, issuedAt: int, expiresAt: int)

  /** introspectAccess: None when the value is not an access token at all. */
  ghost function IntrospectAccess(db: Db, c: Config, jose: string -> Option<AccessClaims>, caller: Caller,
                                  token: string, now: Time): Option<Answer>
  {
    var claims := VerifyAccess(c, jose, token, now);
    if claims.None? then None
    else
      var found := FindAccess(db.accesses, HashJti(claims.value.jti));
      if found.None? || !AuthorityLoads(db, db.accesses[found.value], now) then Some(Inactive)
      else
        var a := db.accesses[found.value];
        var client := db.clients[a.client];
        if a.client != caller.id || client.publicId != caller.row.publicId ||
           !AuthorityMatches(db, c, found.value, a, claims.value, now)
        then Some(Inactive)
        else
          var current := a.scopes * (db.grants[GrantKey(a.user, a.client)].scopes * client.scopes);
          var effective := if a.family.Some? then current * db.families[a.family.value].scopes else current;
          if OpenId !in effective then Some(Inactive)
          else Some(ActiveAccess(client.publicId, ScopeText(effective), db.users[a.user].subject, c.issuer,
                                 UserInfoAudience(c), Unix(a.issuedAt), Unix(a.expiresAt)))
  }

  /** The checks of introspectRefresh on the loaded snapshot. */
  predicate GenerationActive(db: Db, g: Id, caller: Caller, now: Time)
    requires g in db.generations && db.generations[g].family in db.families
    requires FamilyKnown(db, db.families[db.generations[g].family])
  {
    var generation := db.generations[g];
    var family := db.families[generation.family];
    var client := db.clients[family.client];
    var grant := db.grants[GrantKey(family.user, family.client)];
    && family.client == caller.id && client.publicId == caller.row.publicId
    && g != NIL && generation.consumedAt.None? && now < generation.expiresAt
    && family.revokedAt.None? && now < family.absoluteExpiresAt
    && db.users[family.user].status == Active && ActiveClient(family.client, client)
    && grant.id == family.grant && grant.revokedAt.None? && grant.version >= 1
  }

  ghost function IntrospectRefresh(db: Db, c: Config, caller: Caller, token: string, now: Time): Option<Answer> {
    var digest := DigestPresented(token);
    if digest.None? then None
    else
      var found := FindGeneration(db.generations, digest.value);
      if found.None? || db.generations[found.value].family !in db.families ||
         !FamilyKnown(db, db.families[db.generations[found.value].family]) ||
         !GenerationActive(db, found.value, caller, now)
      then Some(Inactive)
      else
        var generation := db.generations[found.value];
        var family := db.families[generation.family];
        var client := db.clients[family.client];
        var effective :=
          SelectScopes(None, family.scopes, db.grants[GrantKey(family.user, family.client)].scopes, client.scopes);
        if effective.Err? then Some(Inactive)
        else Some(ActiveRefresh(client.publicId, ScopeText(effective.value), db.users[family.user].subject, c.issuer,
                                Unix(generation.issuedAt), Unix(generation.expiresAt)))
  }

  datatype Hint = HintRefresh | HintOther

  function First(a: Option<Answer>, b: Option<Answer>): Answer {
    if a.Some? then a.value else if b.Some? then b.value else Inactive
  }

  predicate MayIntrospect(caller: Caller, token: string, now: Time) {
    && caller.row.kind == Confidential && caller.row.authMethod == SecretBasic && ActiveClient(caller.id, caller.row)
    && now != 0 && token != "" && |token| <= MAX_PRESENTED && Trimmed(token)
  }

  /** Service.Introspect. */
  ghost function Introspect(db: Db, c: Config, jose: string -> Option<AccessClaims>, caller: Caller, token: string,
                            hint: Hint, now: Time): Answer
  {
    if !MayIntrospect(caller, token, now) then Inactive
    else if hint == HintRefresh then
      First(IntrospectRefresh(db, c, caller, token, now), IntrospectAccess(db, c, jose, caller, token, now))
    else
      First(IntrospectAccess(db, c, jose, caller, token, now), IntrospectRefresh(db, c, caller, token, now))
  }

  // ----- The hint never matters -----

  lemma {:induction false} NoDots(text: string)
    requires '.' !in text
    ensures Dots(text) == 0
  {
    if text != [] { NoDots(text[1..]); }
  }

  /** The access and refresh grammars are disjoint: a refresh token has no dot, an access token two. */
  lemma GrammarsDisjoint(c: Config, jose: string -> Option<AccessClaims>, token: string, now: Time)
    ensures VerifyAccess(c, jose, token, now).None? || DigestPresented(token).None?
  {
    if DigestPresented(token).Some? {
      GrammarExact(token);
      var raw: seq<Base64.Byte> :| |raw| == 32 && token == RefreshToken(raw);
      assert Base64.AllDigits(Base64.Encode(raw));
      assert forall i :: 0 <= i < |token| ==> token[i] != '.' by {
        assert forall i :: 3 <= i < |token| ==> token[i] == Base64.Encode(raw)[i - 3];
      }
      NoDots(token);
    }
  }

  lemma HintIrrelevant(db: Db, c: Config, jose: string -> Option<AccessClaims>, caller: Caller, token: string,
                       now: Time, h: Hint, k: Hint)
    ensures Introspect(db, c, jose, caller, token, h, now) == Introspect(db, c, jose, caller, token, k, now)
  {
    hide VerifyAccess, DigestPresented, AuthorityLoads, AuthorityMatches, GenerationActive, MayIntrospect;
    GrammarsDisjoint(c, jose, token, now);
  }

  // ----- Exactness for access tokens -----

  /** The owner of the row an access token names. */
  ghost predicate OwnsAccess(db: Db, c: Config, jose: string -> Option<AccessClaims>, caller: Caller, token: string,
                             now: Time)
  {
    && VerifyAccess(c, jose, token, now).Some?
    && var found := FindAccess(db.accesses, HashJti(VerifyAccess(c, jose, token, now).value.jti));
       found.Some? && db.accesses[found.value].client == caller.id
  }

  /** An answer whose every field is the token's own claim. */
  function OwnClaims(claims: AccessClaims): Answer {
    ActiveAccess(claims.clientId, claims.scope, claims.subject, claims.issuer, claims.audience, claims.issuedAt,
                 claims.expiresAt)
  }

  lemma AccessAnswer(db: Db, c: Config, jose: string -> Option<AccessClaims>, caller: Caller, token: string, now: Time)
    requires Genuine(db, caller)
    ensures
      var answer := IntrospectAccess(db, c, jose, caller, token, now);
      var info := UserInfoFor(db, c, jose, token, now);
      && ((answer.Some? && answer.value.ActiveAccess?) <==> (info.Some? && OwnsAccess(db, c, jose, caller, token, now)))
      && (answer.Some? && answer.value.ActiveAccess? ==>
            && answer.value == OwnClaims(VerifyAccess(c, jose, token, now).value)
            && answer.value.scope == ScopeText(info.value.scopes) && answer.value.subject == info.value.subject)
  {
    hide VerifyAccess, ParseScopeClaim, ScopeText, HashJti;
    var claims := VerifyAccess(c, jose, token, now);
    if claims.Some? {
      var found := FindAccess(db.accesses, HashJti(claims.value.jti));
      if found.Some? && AuthorityLoads(db, db.accesses[found.value], now) {
        var a := db.accesses[found.value];
        ParseExact(claims.value.scope, a.scopes);
        if AuthorityMatches(db, c, found.value, a, claims.value, now) {
          var current := a.scopes * (db.grants[GrantKey(a.user, a.client)].scopes * db.clients[a.client].scopes);
          assert current == a.scopes;
          assert a.family.Some? ==> current * db.families[a.family.value].scopes == a.scopes;
        }
      }
    }
  }

  /**
   For the owning confidential client an access token is active exactly when UserInfo accepts it
   at that instant, and every field of the answer is the token's own claim.
   */
  lemma AccessIntrospectionExact(db: Db, c: Config, jose: string -> Option<AccessClaims>, caller: Caller, token: string,
                                 hint: Hint, now: Time)
    requires Genuine(db, caller) && MayIntrospect(caller, token, now) && OwnsAccess(db, c, jose, caller, token, now)
    ensures
      var answer := Introspect(db, c, jose, caller, token, hint, now);
      var info := UserInfoFor(db, c, jose, token, now);
      && (answer != Inactive <==> info.Some?)
      && (answer != Inactive ==>
            && jose(token).Some? && answer == OwnClaims(jose(token).value)
            && answer.scope == ScopeText(info.value.scopes) && answer.subject == info.value.subject)
  {
    hide AuthorityMatches, AuthorityLoads, ClaimsValid, GenerationActive, DigestPresented, ScopeText, UserInfoFor;
    HintIrrelevant(db, c, jose, caller, token, now, hint, HintOther);
    AccessAnswer(db, c, jose, caller, token, now);
  }

  // ----- Exactness for refresh tokens -----

  lemma SnapshotAgrees(db: Db, g: Id, caller: Caller, now: Time)
    requires Inv(db, now) && Genuine(db, caller) && g in db.generations && db.generations[g].family in db.families
    ensures (FamilyKnown(db, db.families[db.generations[g].family]) && GenerationActive(db, g, caller, now))
       <==> Presentable(db, g, caller, now)
  {
    if Presentable(db, g, caller, now) {
      PresentableFacts(db, g, caller, now);
    }
  }

  lemma GenerationFamilyExists(db: Db, g: Id, now: Time)
    requires Inv(db, now) && g in db.generations
    ensures db.generations[g].family in db.families
  {
    TokenProofs.GenerationRowOk(db, g, now);
  }

  /** A refresh token is active exactly when its client may present it, with the full current authority as scope. */
  lemma RefreshAnswer(db: Db, c: Config, caller: Caller, token: string, now: Time)
    requires Inv(db, now) && Genuine(db, caller) && DigestPresented(token).Some?
    ensures
      var answer := IntrospectRefresh(db, c, caller, token, now);
      var found := FindGeneration(db.generations, DigestPresented(token).value);
      && answer.Some? && !answer.value.ActiveAccess?
      && (answer.value.ActiveRefresh? <==> found.Some? && Presentable(db, found.value, caller, now))
      && (answer.value.ActiveRefresh? ==>
            && db.generations[found.value].family in db.families
            && var family := db.families[db.generations[found.value].family];
               && FamilyKnown(db, family) && family.client == caller.id
               && answer.value ==
                  ActiveRefresh(caller.row.publicId, ScopeText(EffectiveScopes(db, family)),
                                db.users[family.user].subject, c.issuer, Unix(db.generations[found.value].issuedAt),
                                Unix(db.generations[found.value].expiresAt)))
  {
    hide Inv, GenerationActive, DigestPresented, ScopeText, SourceTaken, NumberTaken;
    var found := FindGeneration(db.generations, DigestPresented(token).value);
    if found.Some? {
      GenerationFamilyExists(db, found.value, now);
      SnapshotAgrees(db, found.value, caller, now);
      if Presentable(db, found.value, caller, now) {
        PresentableFacts(db, found.value, caller, now);
      }
    }
  }

  ghost predicate AtLastNumber(db: Db, digest: Digest) {
    var found := FindGeneration(db.generations, digest);
    found.Some? && db.generations[found.value].number == MAX_GENERATION
  }

  /**
   For the owning confidential client an unscoped refresh rotates a refresh token exactly when
   introspection calls it active at that instant, barring only the largest generation number, and
   the reported scope is the scope that refresh would grant.
   */
  lemma RefreshIntrospectionExact(db: Db, c: Config, jose: string -> Option<AccessClaims>, caller: Caller,
                                  token: string, hint: Hint, d: RefreshDraws, now: Time)
    requires Inv(db, now) && Genuine(db, caller) && MayIntrospect(caller, token, now)
    requires ValidConfig(c) && FreshDraws(db, d) && DigestPresented(token).Some?
    ensures
      var answer := Introspect(db, c, jose, caller, token, hint, now);
      var outcome := Refresh(db, c, RefreshInput(DigestPresented(token).value, caller, None), d, now).1;
      && (outcome.Rotated? <==> answer != Inactive && !AtLastNumber(db, DigestPresented(token).value))
      && (answer != Inactive ==>
            && answer.ActiveRefresh?
            && var g := FindGeneration(db.generations, DigestPresented(token).value);
               && g.Some? && db.generations[g.value].family in db.families
               && var family := db.families[db.generations[g.value].family];
                  && family.user in db.users && family.client == caller.id
                  && answer.clientId == caller.row.publicId && answer.subject == db.users[family.user].subject
                  && answer.issuer == c.issuer && answer.issuedAt == Unix(db.generations[g.value].issuedAt)
                  && answer.expiresAt == Unix(db.generations[g.value].expiresAt))
      && (outcome.Rotated? ==> answer.scope == ScopeText(outcome.response.scopes))
  {
    hide EffectiveScopes, FreshDraws, ValidConfig, Genuine, AuthorityLoads, AuthorityMatches;
    hide Inv, Refresh, IntrospectRefresh, VerifyAccess, DigestPresented, MayIntrospect, Presentable, ScopeText;
    var digest := DigestPresented(token).value;
    var found := FindGeneration(db.generations, digest);
    HintIrrelevant(db, c, jose, caller, token, now, hint, HintRefresh);
    RefreshAnswer(db, c, caller, token, now);
    if Refresh(db, c, RefreshInput(digest, caller, None), d, now).1.Rotated? {
      RotatedWasPresentable(db, c, RefreshInput(digest, caller, None), d, now);
    }
    if found.Some? && Presentable(db, found.value, caller, now) {
      Rotates(db, c, found.value, caller, None, d, now);
    }
  }

  // ----- Minted tokens are accepted -----

  /** The instant a whole-second claim denotes is at most a second before the instant it was taken from. */
  lemma UnixInstant(t: Time)
    ensures (Unix(t) + UNIX_OFFSET) * SECOND == t / SECOND * SECOND
    ensures t - SECOND < t / SECOND * SECOND <= t
  {
  }

  lemma MintedSeconds(issuedAt: Time, ttl: Time)
    requires MINUTE <= ttl <= MAX_ACCESS_TTL
    ensures 0 < Unix(issuedAt + ttl) - Unix(issuedAt) <= 1800
  {
  }

  /** The two comparisons of a minted expiry and issue claim with the clock. */
  lemma MintedInstants(issuedAt: Time, ttl: Time, skew: Time, now: Time)
    requires skew >= 0 && issuedAt <= now
    ensures (Unix(issuedAt + ttl) + UNIX_OFFSET) * SECOND >= now - skew <==>
            now <= (issuedAt + ttl) / SECOND * SECOND + skew
    ensures (Unix(issuedAt) + UNIX_OFFSET) * SECOND <= now + skew
  {
    hide Unix;
    UnixInstant(issuedAt);
    UnixInstant(issuedAt + ttl);
  }

  lemma MintedJti(raw: seq<Base64.Byte>)
    requires |raw| == 16
    ensures ValidJti(JTI_PREFIX + Base64.Encode(raw))
  {
    var jti := JTI_PREFIX + Base64.Encode(raw);
    assert jti[..4] == JTI_PREFIX && jti[4..] == Base64.Encode(raw);
    hide Base64.Encode, Base64.Decode;
    Base64.RoundTrip(raw);
  }

  /**
   Minted claims pass verification from issue until the clock passes the expiry claim by more
   than the configured skew. The claim is in whole seconds, so without skew the last fraction of
   a second before the stored expiry is already refused.
   */
  lemma MintedClaimsVerify(c: Config, subject: string, clientId: string, scopes: set<Scope>, issuedAt: Time,
                           raw: seq<Base64.Byte>, now: Time)
    requires ValidConfig(c) && subject != "" && clientId != "" && OpenId in scopes && |raw| == 16
    requires Unix(issuedAt) > 0 && issuedAt <= now
    ensures ClaimsValid(c, ClaimsFor(c, subject, clientId, scopes, issuedAt, JTI_PREFIX + Base64.Encode(raw)), now) <==>
            now <= (issuedAt + c.accessTtl) / SECOND * SECOND + c.clockSkew
  {
    hide ParseScopeClaim, ScopeText, Unix, ValidConfig, ValidJti, Base64.Encode;
    MintedJti(raw);
    ParseExact(ScopeText(scopes), scopes);
    ConfigBounds(c);
    MintedInstants(issuedAt, c.accessTtl, c.clockSkew, now);
    MintedSeconds(issuedAt, c.accessTtl);
  }

  lemma ConfigBounds(c: Config)
    requires ValidConfig(c)
    ensures MINUTE <= c.accessTtl <= MAX_ACCESS_TTL && c.clockSkew >= 0
  {
  }

  /** The claims a stored row was minted with. */
  ghost predicate ClaimsOfRow(db: Db, c: Config, a: Access, claims: AccessClaims) {
    && a.user in db.users && a.client in db.clients
    && claims.issuer == c.issuer && claims.audience == UserInfoAudience(c)
    && claims.subject == db.users[a.user].subject && claims.clientId == db.clients[a.client].publicId
    && claims.scope == ScopeText(a.scopes)
    && claims.issuedAt == Unix(a.issuedAt) && claims.expiresAt == Unix(a.expiresAt)
    && HashJti(claims.jti) == a.jtiHash
  }

  /** The facts of the invariant that bear on one live access row. */
  lemma LiveRowFacts(db: Db, id: Id, now: Time)
    requires Inv(db, now) && id in db.accesses && db.accesses[id].revokedAt.None? && now < db.accesses[id].expiresAt
    ensures var a := db.accesses[id];
      && AccessOk(a, db.grants, now) && OfItsFamily(a, db.families) && AccessAlive(a, db.users, db.clients, db.grants)
      && (a.family.Some? ==> FamilyOk(db.families[a.family.value], db.grants, now))
      && FindAccess(db.accesses, a.jtiHash) == Some(id)
  {
    hide FreshOk, ClientsOk, GrantsOk, CodesOk, TransactionsOk, FamilyCodesOk, LiveFamiliesOk, GenerationsOk;
    hide ChainsOk, AccessCodesOk, AccessSourcesOk, SessionsOk, LogoutsOk;
    hide AccessOk, FamilyOk, AccessAlive;
    assert OfItsFamily(db.accesses[id], db.families);
  }

  lemma LiveRowKeys(db: Db, id: Id, now: Time)
    requires Inv(db, now) && id in db.accesses
    ensures var a := db.accesses[id];
      && id != NIL && a.user != NIL && a.client != NIL && a.grant != NIL
      && OnGrant(db.grants, a.user, a.client, a.grant) && db.grants[GrantKey(a.user, a.client)].version >= 1
      && a.client in db.clients && ValidProfile(db.clients[a.client]) && db.clients[a.client].publicId != ""
  {
    hide CodesOk, TransactionsOk, FamiliesOk, FamilyCodesOk, LiveFamiliesOk, GenerationsOk;
    hide ChainsOk, AccessCodesOk, AccessFamiliesOk, AccessSourcesOk, LiveAccessesOk, SessionsOk, LogoutsOk;
    hide BindingsFresh, CodeHashesFresh, GenerationHashesFresh, AccessHashesFresh, SessionHashesFresh,
         LogoutHashesFresh;
    assert AccessOk(db.accesses[id], db.grants, now);
  }

  /**
   In a reachable state the only things that can refuse the verified token of an unrevoked,
   unexpired row are the family's absolute deadline and a client that has since lost a scope:
   user, client, grant and family revocation have already withdrawn the row.
   */
  lemma LiveAccessAccepted(db: Db, c: Config, jose: string -> Option<AccessClaims>, token: string, id: Id, now: Time)
    requires Inv(db, now) && id in db.accesses && db.accesses[id].revokedAt.None? && now < db.accesses[id].expiresAt
    requires VerifyAccess(c, jose, token, now).Some?
    requires ClaimsOfRow(db, c, db.accesses[id], VerifyAccess(c, jose, token, now).value)
    ensures var a := db.accesses[id];
      UserInfoFor(db, c, jose, token, now).Some? <==>
        && a.scopes <= db.clients[a.client].scopes
        && (a.family.Some? ==> a.family.value in db.families && now < db.families[a.family.value].absoluteExpiresAt)
  {
    hide Inv, VerifyAccess, ParseScopeClaim, ScopeText, HashJti, Unix;
    var a := db.accesses[id];
    LiveRowFacts(db, id, now);
    LiveRowKeys(db, id, now);
    ParseExact(VerifyAccess(c, jose, token, now).value.scope, a.scopes);
    assert AuthorityLoads(db, a, now);
  }

  // ----- What acceptance requires -----

  /**
   Whatever token UserInfo accepts, in any state: its claims are those of a live row, inside their window, and
   every row behind it stands.
   */
  lemma AcceptedRequires(db: Db, c: Config, jose: string -> Option<AccessClaims>, token: string, now: Time)
    requires UserInfoFor(db, c, jose, token, now).Some?
    ensures token != "" && |token| <= 16384 && Dots(token) == 2 && jose(token).Some?
    ensures var claims := jose(token).value;
      var found := FindAccess(db.accesses, HashJti(claims.jti));
      && 0 < claims.issuedAt < claims.expiresAt <= claims.issuedAt + 1800
      && (claims.issuedAt + UNIX_OFFSET) * SECOND <= now + c.clockSkew
      && now <= (claims.expiresAt + UNIX_OFFSET) * SECOND + c.clockSkew
      && found.Some? && ClaimsOfRow(db, c, db.accesses[found.value], claims)
      && UserInfoFor(db, c, jose, token, now) == Some(UserInfo(claims.subject, db.accesses[found.value].scopes))
      && Standing(db, db.accesses[found.value], now)
  {
    hide ParseScopeClaim, ScopeText, HashJti, ValidJti, Dots;
    var claims := jose(token).value;
    ParseExact(claims.scope, db.accesses[FindAccess(db.accesses, HashJti(claims.jti)).value].scopes);
  }

  /** The row is live and so is everything it depends on. */
  ghost predicate Standing(db: Db, a: Access, now: Time) {
    var key := GrantKey(a.user, a.client);
    && a.revokedAt.None? && now < a.expiresAt && OpenId in a.scopes
    && a.user in db.users && db.users[a.user].status == Active
    && a.client in db.clients && db.clients[a.client].status == Active && a.scopes <= db.clients[a.client].scopes
    && key in db.grants && db.grants[key].id == a.grant && db.grants[key].revokedAt.None?
    && a.scopes <= db.grants[key].scopes
    && (a.family.Some? ==>
          && a.family.value in db.families
          && var f := db.families[a.family.value];
             f.revokedAt.None? && now < f.absoluteExpiresAt && a.scopes <= f.scopes)
  }

  /** Introspection answers only an active confidential client, about tokens of its own. */
  lemma OnlyOwnersAreAnswered(db: Db, c: Config, jose: string -> Option<AccessClaims>, caller: Caller, token: string,
                              hint: Hint, now: Time)
    requires Introspect(db, c, jose, caller, token, hint, now) != Inactive
    ensures caller.row.kind == Confidential && caller.row.authMethod == SecretBasic && caller.row.status == Active
    ensures var answer := Introspect(db, c, jose, caller, token, hint, now);
      && answer.clientId == caller.row.publicId
      && (answer.ActiveAccess? ==> OwnsAccess(db, c, jose, caller, token, now))
      && (answer.ActiveRefresh? ==>
            && DigestPresented(token).Some?
            && var g := FindGeneration(db.generations, DigestPresented(token).value);
               && g.Some? && db.generations[g.value].family in db.families
               && db.families[db.generations[g.value].family].client == caller.id
               && Unspent(db, g.value, now))
  {
    hide VerifyAccess, ParseScopeClaim, ScopeText, HashJti, DigestPresented, AuthorityMatches;
  }

  /** The generation can still be presented and everything behind it stands. */
  ghost predicate Unspent(db: Db, g: Id, now: Time)
    requires g in db.generations && db.generations[g].family in db.families
  {
    var f := db.families[db.generations[g].family];
    var key := GrantKey(f.user, f.client);
    && db.generations[g].consumedAt.None? && now < db.generations[g].expiresAt
    && f.revokedAt.None? && now < f.absoluteExpiresAt
    && f.user in db.users && db.users[f.user].status == Active
    && f.client in db.clients && db.clients[f.client].status == Active
    && key in db.grants && db.grants[key].id == f.grant && db.grants[key].revokedAt.None?
  }
}
