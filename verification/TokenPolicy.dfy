/**
 The decision functions of package token: refresh token grammar, deadlines, scope selection,
 minting, and the storage validators that re-check what was minted.

 Random draws are parameters. A signed JWT is represented by the claims it carries.
 */
module TokenPolicy {
  import opened Schema
  import opened ScopeClaims
  import Base64

  datatype Error =
    | InvalidGrant
    | InvalidScope
    | InvalidOperation
    | StorageFailure

  datatype Result<+T> = Ok(value: T) | Err(error: Error)

  const MAX_ROLLING: Time := 30 * DAY
  const MAX_ABSOLUTE: Time := 365 * DAY
  const MAX_ACCESS_TTL: Time := 30 * MINUTE
  const MAX_ID_TTL: Time := 15 * MINUTE
  const MAX_GENERATION: nat := 0x7fff_ffff_ffff_ffff

  // ----- Opaque values and their digests -----

  const REFRESH_PREFIX: string := "r1_"

  function HashRefresh(token: string): Digest {
    Sha256("oneissuer:refresh-token:v1:" + token)
  }

  function HashJti(jti: string): Digest {
    Sha256("oneissuer:access-token-jti:v1:" + jti)
  }

  /** GenerateRefreshToken on 32 drawn bytes. */
  function RefreshToken(raw: seq<Base64.Byte>): string {
    REFRESH_PREFIX + Base64.Encode(raw)
  }

  /** DigestPresentedRefreshToken. */
  function DigestPresented(token: string): Option<Digest> {
    if |token| != 46 || token[..3] != REFRESH_PREFIX then None
    else
      var raw := Base64.Decode(token[3..]);
      if raw.None? || |raw.value| != 32 then None else Some(HashRefresh(token))
  }

  /** The grammar accepts exactly the tokens the generator can produce. */
  lemma GrammarExact(token: string)
    ensures DigestPresented(token).Some? <==>
            exists raw: seq<Base64.Byte> :: |raw| == 32 && token == RefreshToken(raw)
  {
    if DigestPresented(token).Some? {
      var raw := Base64.Decode(token[3..]).value;
      Base64.DecodeExact(token[3..], raw);
      Base64.EncodeLength(raw);
      assert Base64.DropNewlines(token[3..]) == token[3..];
      assert token == token[..3] + token[3..];
      assert token == RefreshToken(raw);
    }
    if raw: seq<Base64.Byte> :| |raw| == 32 && token == RefreshToken(raw) {
      Base64.EncodeLength(raw);
      Base64.RoundTrip(raw);
      assert token[..3] == REFRESH_PREFIX && token[3..] == Base64.Encode(raw);
    }
  }

  lemma {:induction false} SamePrefix(p: string, a: string, b: string)
    requires p + a == p + b
    ensures a == b
  {
    assert (p + a)[|p|..] == a;
    assert (p + b)[|p|..] == b;
  }

  lemma HashRefreshInjective(a: string, b: string)
    requires HashRefresh(a) == HashRefresh(b)
    ensures a == b
  {
    SamePrefix("oneissuer:refresh-token:v1:", a, b);
  }

  // ----- Configuration and deadlines -----

  datatype Config = Config(
    issuer: string, idTtl: Time, accessTtl: Time, clockSkew: Time,
    rollingTtl: Time, absoluteTtl: Time)

  predicate ValidLifetimes(rolling: Time, absolute: Time) {
    && HOUR <= rolling <= MAX_ROLLING
    && DAY <= absolute <= MAX_ABSOLUTE
    && rolling <= absolute
  }

  /** What NewService and WithRefreshLifetimes enforce. */
  predicate ValidConfig(c: Config) {
    && MINUTE <= c.idTtl <= MAX_ID_TTL
    && MINUTE <= c.accessTtl <= MAX_ACCESS_TTL
    && 0 <= c.clockSkew <= 2 * MINUTE
    && ValidLifetimes(c.rollingTtl, c.absoluteTtl)
  }

  function Min(a: Time, b: Time): Time {
    if a <= b then a else b
  }

  /** RefreshDeadlines: the rolling and the absolute deadline of generation 0. */
  function RefreshDeadlines(issuedAt: Time, rolling: Time, absolute: Time): (r: Option<(Time, Time)>)
    ensures r.Some? <==> issuedAt != 0 && ValidLifetimes(rolling, absolute)
    ensures r.Some? ==> r.value == (issuedAt + rolling, issuedAt + absolute)
    ensures r.Some? ==> issuedAt < r.value.0 <= r.value.1 <= issuedAt + MAX_ABSOLUTE
    ensures r.Some? ==> r.value.0 <= issuedAt + MAX_ROLLING
  {
    if issuedAt == 0 || !ValidLifetimes(rolling, absolute) then None
    else Some((Min(issuedAt + rolling, issuedAt + absolute), issuedAt + absolute))
  }

  /** ReplacementRefreshExpiry: the rolling deadline, capped by the family's absolute one. */
  function ReplacementExpiry(issuedAt: Time, rolling: Time, absolute: Time): (r: Option<Time>)
    ensures r.Some? <==> issuedAt != 0 && absolute != 0 && issuedAt < absolute && HOUR <= rolling <= MAX_ROLLING
    ensures r.Some? ==> issuedAt < r.value <= absolute && r.value <= issuedAt + rolling <= issuedAt + MAX_ROLLING
    ensures r.Some? ==> r.value == absolute || r.value == issuedAt + rolling
  {
    if issuedAt == 0 || absolute == 0 || issuedAt >= absolute || rolling < HOUR || rolling > MAX_ROLLING then None
    else Some(Min(issuedAt + rolling, absolute))
  }

  // ----- Scope selection -----

  /** SelectRefreshAccessScopes: the current authority, optionally narrowed by the request. */
  function SelectScopes(requested: Option<set<Scope>>, family: set<Scope>, grant: set<Scope>, client: set<Scope>)
    : (r: Result<set<Scope>>)
    ensures r == Err(InvalidGrant) <==> !({OpenId, OfflineAccess} <= family * grant * client)
    ensures r.Ok? ==> OpenId in r.value && r.value <= family * grant * client
    ensures r.Ok? ==> r.value == if requested.Some? then requested.value else family * grant * client
    ensures r.Ok? || r == Err(InvalidGrant) ||
            (r == Err(InvalidScope) && requested.Some? &&
             (OpenId !in requested.value || !(requested.value <= family * grant * client)))
  {
    var effective := family * grant * client;
    if OpenId !in family || OfflineAccess !in family then Err(InvalidGrant)
    else if OpenId !in effective || OfflineAccess !in effective then Err(InvalidGrant)
    else if requested.None? then Ok(effective)
    else if OpenId in requested.value && requested.value <= effective then Ok(requested.value)
    else Err(InvalidScope)
  }

  // ----- Minting -----

  datatype AccessClaims = AccessClaims(
    issuer: string, subject: string, audience: string, clientId: string, scope: string,
    issuedAt: int, expiresAt: int, jti: string)

  function UserInfoAudience(c: Config): string {
    c.issuer + "/oauth2/userinfo"
  }

  function ClaimsFor(c: Config, subject: string, clientId: string, scopes: set<Scope>, issuedAt: Time, jti: string)
    : AccessClaims
  {
    AccessClaims(c.issuer, subject, UserInfoAudience(c), clientId, ScopeText(scopes),
                 Unix(issuedAt), Unix(issuedAt + c.accessTtl), jti)
  }

  predicate ActiveClient(id: Id, c: Client) {
    id != NIL && c.publicId != "" && c.status == Active && ValidProfile(c)
  }

  datatype InitialRefresh = InitialRefresh(
    family: Id, token: Id, hash: Digest, clear: string, expiresAt: Time, absoluteExpiresAt: Time)

  datatype Minted = Minted(
    accessId: Id, jtiHash: Digest, access: AccessClaims, issuedAt: Time,
    accessExpiresAt: Time, idExpiresAt: Time, initial: Option<InitialRefresh>)

  /** The random draws of one code exchange. */
  datatype CodeDraws = CodeDraws(jti: string, accessId: Id, raw: seq<Base64.Byte>, family: Id, token: Id)

  datatype CodeAuthority = CodeAuthority(
    code: Id, grant: Id, userId: Id, user: User, clientId: Id, client: Client,
    originSession: Option<Id>, binding: Option<Id>, scopes: set<Scope>,
    authenticatedAt: Time, issuedAt: Time)

  predicate IsId(o: Option<Id>) {
    o.Some? && o.value != NIL
  }

  /** Service.mint. */
  function Mint(c: Config, a: CodeAuthority, d: CodeDraws): Result<Minted> {
    if OpenId !in a.scopes || a.code == NIL || a.grant == NIL || a.userId == NIL ||
       a.user.status != Active || !ActiveClient(a.clientId, a.client) ||
       a.authenticatedAt == 0 || a.authenticatedAt > a.issuedAt || !(a.scopes <= a.client.scopes)
    then Err(InvalidGrant)
    else
      var minted := Minted(
        d.accessId, HashJti(d.jti),
        ClaimsFor(c, a.user.subject, a.client.publicId, a.scopes, a.issuedAt, d.jti),
        a.issuedAt, a.issuedAt + c.accessTtl, a.issuedAt + c.idTtl, None);
      if OfflineAccess !in a.scopes then Ok(minted)
      else if !IsId(a.originSession) || !IsId(a.binding) then Err(InvalidGrant)
      else
        var deadlines := RefreshDeadlines(a.issuedAt, c.rollingTtl, c.absoluteTtl);
        if deadlines.None? then Err(InvalidOperation)
        else
          var clear := RefreshToken(d.raw);
          Ok(minted.(initial := Some(InitialRefresh(
            d.family, d.token, HashRefresh(clear), clear, deadlines.value.0, deadlines.value.1))))
  }

  datatype RefreshMinted = RefreshMinted(
    accessId: Id, jtiHash: Digest, access: AccessClaims, issuedAt: Time, accessExpiresAt: Time,
    replacement: Id, replacementHash: Digest, replacementClear: string, replacementExpiresAt: Time)

  /** The random draws of one refresh. */
  datatype RefreshDraws = RefreshDraws(raw: seq<Base64.Byte>, replacement: Id, jti: string, accessId: Id)

  datatype RefreshAuthority = RefreshAuthority(
    presentedId: Id, presented: Generation, familyId: Id, family: Family, grant: Grant,
    userId: Id, user: User, clientId: Id, client: Client, scopes: set<Scope>, issuedAt: Time)

  /** Service.mintRefresh. */
  function MintRefresh(c: Config, a: RefreshAuthority, d: RefreshDraws): Result<RefreshMinted> {
    if OpenId !in a.scopes || a.presentedId == NIL || a.familyId == NIL || a.presented.family != a.familyId ||
       a.userId != a.family.user || a.clientId != a.family.client || a.grant.id != a.family.grant ||
       a.user.status != Active || !ActiveClient(a.clientId, a.client) || a.issuedAt == 0 ||
       a.family.revokedAt.Some? || a.issuedAt >= a.family.absoluteExpiresAt ||
       !(a.scopes <= a.family.scopes) || !(a.scopes <= a.client.scopes)
    then Err(InvalidGrant)
    else
      var expires := ReplacementExpiry(a.issuedAt, c.rollingTtl, a.family.absoluteExpiresAt);
      if expires.None? then Err(InvalidGrant)
      else
        var clear := RefreshToken(d.raw);
        Ok(RefreshMinted(
          d.accessId, HashJti(d.jti),
          ClaimsFor(c, a.user.subject, a.client.publicId, a.scopes, a.issuedAt, d.jti),
          a.issuedAt, a.issuedAt + c.accessTtl, d.replacement, HashRefresh(clear), clear, expires.value))
  }

  // ----- Storage validators -----

  /** validMintedTokens. */
  predicate ValidMinted(m: Minted, now: Time, offline: bool) {
    && m.accessId != NIL
    && m.issuedAt == now
    && m.issuedAt < m.accessExpiresAt <= m.issuedAt + 30 * MINUTE
    && m.issuedAt < m.idExpiresAt <= m.issuedAt + 15 * MINUTE
    && (if !offline then m.initial.None?
        else
          && m.initial.Some?
          && m.initial.value.family != NIL && m.initial.value.token != NIL && m.initial.value.clear != ""
          && m.issuedAt < m.initial.value.expiresAt <= m.initial.value.absoluteExpiresAt
          && m.initial.value.expiresAt <= m.issuedAt + 30 * DAY
          && m.initial.value.absoluteExpiresAt <= m.issuedAt + 365 * DAY
          && DigestPresented(m.initial.value.clear) == Some(m.initial.value.hash))
  }

  /** validRefreshMinted. */
  predicate ValidRefreshMinted(m: RefreshMinted, presentedId: Id, presented: Generation, family: Family, now: Time) {
    && m.accessId != NIL && m.replacement != NIL && m.replacement != presentedId
    && m.replacementClear != ""
    && m.issuedAt == now
    && m.issuedAt < m.accessExpiresAt <= m.issuedAt + 30 * MINUTE
    && m.issuedAt < m.replacementExpiresAt <= m.issuedAt + 30 * DAY
    && m.replacementExpiresAt <= family.absoluteExpiresAt
    && presented.number != MAX_GENERATION
    && DigestPresented(m.replacementClear) == Some(m.replacementHash)
  }

  predicate RealDraws(d: CodeDraws) {
    d.accessId != NIL && d.family != NIL && d.token != NIL && |d.raw| == 32
  }

  predicate RealRefreshDraws(d: RefreshDraws) {
    d.accessId != NIL && d.replacement != NIL && |d.raw| == 32
  }

  lemma GeneratedIsPresentable(raw: seq<Base64.Byte>)
    requires |raw| == 32
    ensures DigestPresented(RefreshToken(raw)) == Some(HashRefresh(RefreshToken(raw)))
  {
    GrammarExact(RefreshToken(raw));
  }

  /** Whatever mint produces under a valid configuration passes the storage validator. */
  lemma MintedIsValid(c: Config, a: CodeAuthority, d: CodeDraws)
    requires ValidConfig(c) && RealDraws(d) && Mint(c, a, d).Ok?
    ensures ValidMinted(Mint(c, a, d).value, a.issuedAt, OfflineAccess in a.scopes)
  {
    GeneratedIsPresentable(d.raw);
  }

  /** Likewise for a refresh, except at the largest generation number. */
  lemma RefreshMintedIsValid(c: Config, a: RefreshAuthority, d: RefreshDraws)
    requires ValidConfig(c) && RealRefreshDraws(d) && MintRefresh(c, a, d).Ok?
    requires d.replacement != a.presentedId
    ensures ValidRefreshMinted(MintRefresh(c, a, d).value, a.presentedId, a.presented, a.family, a.issuedAt) <==>
            a.presented.number != MAX_GENERATION
  {
    GeneratedIsPresentable(d.raw);
  }
}
