/**
 The rows of OneIssuer's PostgreSQL schema, as values, and one database snapshot `Db`.

 - A digest is a free constructor over its preimage: SHA-256 is taken as injective, and the
   domain-separation prefixes of the source are part of the preimage text.
 - `usedIds` and `usedHashes` remember every identifier and digest ever stored. A colliding
   insert aborts the transaction, and identifiers of cleaned-up rows never come back.
 */
module Schema {

  datatype Option<+T> = None | Some(value: T)

  // Nanoseconds since the zero instant; instant 0 is the zero time of the source.
  type Time = int

  // A uuid; 0 is the nil uuid.
  type Id = nat

  const NIL: Id := 0

  const SECOND: Time := 1_000_000_000
  const MINUTE: Time := 60 * SECOND
  const HOUR: Time := 60 * MINUTE
  const DAY: Time := 24 * HOUR

  // Seconds between the zero instant and 1970-01-01.
  const UNIX_OFFSET: int := 62_135_596_800

  function Unix(t: Time): int {
    t / SECOND - UNIX_OFFSET
  }

  datatype Digest = Sha256(preimage: string)

  datatype Scope = OpenId | Profile | Email | OfflineAccess

  datatype Status = Active | Disabled

  datatype Role = Member | Admin

  datatype ClientKind = Public | Confidential

  datatype AuthMethod = NoAuth | SecretBasic

  datatype User = User(subject: string, status: Status, role: Role, version: int)

  datatype Client = Client(
    publicId: string, kind: ClientKind, authMethod: AuthMethod, status: Status,
    redirectUris: set<string>, scopes: set<Scope>, version: int)

  // consent_grants has UNIQUE (user_id, client_id): the pair is the key.
  datatype GrantKey = GrantKey(user: Id, client: Id)

  datatype Grant = Grant(
    id: Id, scopes: set<Scope>, createdAt: Time, updatedAt: Time,
    revokedAt: Option<Time>, version: int)

  // The immutable part of an authorization transaction.
  datatype AuthRequest = AuthRequest(
    isAuthorization: bool, client: Option<Id>, tokenHash: Digest, redirectUri: string,
    scopes: set<Scope>, challenge: Digest, state: string, nonce: string, prompts: string)

  datatype Failure = NoFailure | Expired | AccessDenied

  datatype AuthTransaction = AuthTransaction(
    request: AuthRequest, createdAt: Time, expiresAt: Time,
    consumedAt: Option<Time>, failure: Failure)

  datatype Code = Code(
    hash: Digest, transaction: Id, grant: Id, grantVersion: int, user: Id, client: Id,
    redirectUri: string, scopes: set<Scope>, challenge: Digest, nonce: string,
    authTime: Time, createdAt: Time, expiresAt: Time, consumedAt: Option<Time>,
    originSession: Option<Id>, binding: Option<Id>)

  datatype Family = Family(
    originCode: Option<Id>, grant: Id, user: Id, client: Id,
    originSession: Option<Id>, binding: Id, scopes: set<Scope>,
    createdAt: Time, absoluteExpiresAt: Time, revokedAt: Option<Time>)

  datatype Generation = Generation(
    family: Id, hash: Digest, number: nat, issuedAt: Time, expiresAt: Time,
    consumedAt: Option<Time>)

  datatype Source = FromCode | FromRefresh

  datatype Access = Access(
    jtiHash: Digest, code: Option<Id>, grant: Id, user: Id, client: Id, scopes: set<Scope>,
    issuedAt: Time, expiresAt: Time, source: Source, sourceGeneration: Option<Id>,
    family: Option<Id>, originSession: Option<Id>, binding: Option<Id>,
    revokedAt: Option<Time>)

  datatype Session = Session(
    user: Id, binding: Id, tokenHash: Digest, createdAt: Time, expiresAt: Time,
    idleExpiresAt: Time, revokedAt: Option<Time>)

  datatype Stage = PreConfirm | BoundConfirmable | Confirmed | Canceled

  datatype Logout = Logout(
    lookupHash: Digest, stage: Stage, csrfHash: Option<Digest>,
    user: Option<Id>, session: Option<Id>, binding: Option<Id>,
    createdAt: Time, expiresAt: Time, consumedAt: Option<Time>, attempts: nat)

  datatype Db = Db(
    users: map<Id, User>,
    clients: map<Id, Client>,
    grants: map<GrantKey, Grant>,
    transactions: map<Id, AuthTransaction>,
    codes: map<Id, Code>,
    families: map<Id, Family>,
    generations: map<Id, Generation>,
    accesses: map<Id, Access>,
    sessions: map<Id, Session>,
    logouts: map<Id, Logout>,
    usedIds: set<Id>,
    usedHashes: set<Digest>)

  const EMPTY: Db := Db(map[], map[], map[], map[], map[], map[], map[], map[], map[], map[], {NIL}, {})

  /** A registered client whose type and token endpoint method belong together. */
  predicate ValidProfile(c: Client) {
    (c.kind == Public && c.authMethod == NoAuth) ||
    (c.kind == Confidential && c.authMethod == SecretBasic)
  }

  // ----- Unique-index lookups -----

  ghost function FindCode(codes: map<Id, Code>, hash: Digest): (r: Option<Id>)
    ensures r.Some? ==> r.value in codes && codes[r.value].hash == hash
    ensures r.None? ==> forall id :: id in codes ==> codes[id].hash != hash
  {
    if exists id :: id in codes && codes[id].hash == hash then
      var id :| id in codes && codes[id].hash == hash;
      Some(id)
    else
      None
  }

  ghost function FindGeneration(generations: map<Id, Generation>, hash: Digest): (r: Option<Id>)
    ensures r.Some? ==> r.value in generations && generations[r.value].hash == hash
    ensures r.None? ==> forall id :: id in generations ==> generations[id].hash != hash
  {
    if exists id :: id in generations && generations[id].hash == hash then
      var id :| id in generations && generations[id].hash == hash;
      Some(id)
    else
      None
  }

  ghost function FindAccess(accesses: map<Id, Access>, hash: Digest): (r: Option<Id>)
    ensures r.Some? ==> r.value in accesses && accesses[r.value].jtiHash == hash
    ensures r.None? ==> forall id :: id in accesses ==> accesses[id].jtiHash != hash
  {
    if exists id :: id in accesses && accesses[id].jtiHash == hash then
      var id :| id in accesses && accesses[id].jtiHash == hash;
      Some(id)
    else
      None
  }

  ghost function FindSession(sessions: map<Id, Session>, hash: Digest): (r: Option<Id>)
    ensures r.Some? ==> r.value in sessions && sessions[r.value].tokenHash == hash
    ensures r.None? ==> forall id :: id in sessions ==> sessions[id].tokenHash != hash
  {
    if exists id :: id in sessions && sessions[id].tokenHash == hash then
      var id :| id in sessions && sessions[id].tokenHash == hash;
      Some(id)
    else
      None
  }

  ghost function FindLogout(logouts: map<Id, Logout>, hash: Digest): (r: Option<Id>)
    ensures r.Some? ==> r.value in logouts && logouts[r.value].lookupHash == hash
    ensures r.None? ==> forall id :: id in logouts ==> logouts[id].lookupHash != hash
  {
    if exists id :: id in logouts && logouts[id].lookupHash == hash then
      var id :| id in logouts && logouts[id].lookupHash == hash;
      Some(id)
    else
      None
  }

  // ----- Sizes -----

  lemma {:induction false} SubsetSize<T>(a: set<T>, b: set<T>)
    requires a <= b
    ensures |a| <= |b|
  {
    if a != {} {
      var x :| x in a;
      SubsetSize(a - {x}, b - {x});
    }
  }
}
