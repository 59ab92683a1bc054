/**
 What every reachable database satisfies (`Inv`) and what every step keeps (`Stable`).
 Each predicate takes only the tables it reads, so that a step that leaves those tables alone
 keeps it for free.
 */
module Invariants {
  import opened Schema

  // ----- Identifiers and digests -----

  ghost predicate KeysFresh<T>(table: map<Id, T>, ids: set<Id>) {
    table.Keys <= ids && NIL !in table
  }

  ghost predicate GrantIdsFresh(grants: map<GrantKey, Grant>, ids: set<Id>) {
    forall k :: k in grants ==> grants[k].id in ids && grants[k].id != NIL
  }

  ghost predicate BindingsFresh(sessions: map<Id, Session>, ids: set<Id>) {
    forall s :: s in sessions ==> sessions[s].binding in ids && sessions[s].binding != NIL
  }

  ghost predicate CodeHashesFresh(codes: map<Id, Code>, hashes: set<Digest>) {
    forall c :: c in codes ==> codes[c].hash in hashes
  }

  ghost predicate GenerationHashesFresh(generations: map<Id, Generation>, hashes: set<Digest>) {
    forall g :: g in generations ==> generations[g].hash in hashes
  }

  ghost predicate AccessHashesFresh(accesses: map<Id, Access>, hashes: set<Digest>) {
    forall a :: a in accesses ==> accesses[a].jtiHash in hashes
  }

  ghost predicate SessionHashesFresh(sessions: map<Id, Session>, hashes: set<Digest>) {
    forall s :: s in sessions ==> sessions[s].tokenHash in hashes
  }

  ghost predicate LogoutHashesFresh(logouts: map<Id, Logout>, hashes: set<Digest>) {
    forall l :: l in logouts ==> logouts[l].lookupHash in hashes
  }

  /** Every stored identifier and digest is remembered, and the nil uuid is never a key. */
  ghost predicate FreshOk(db: Db) {
    && NIL in db.usedIds
    && KeysFresh(db.users, db.usedIds)
    && KeysFresh(db.clients, db.usedIds)
    && KeysFresh(db.transactions, db.usedIds)
    && KeysFresh(db.codes, db.usedIds)
    && KeysFresh(db.families, db.usedIds)
    && KeysFresh(db.generations, db.usedIds)
    && KeysFresh(db.accesses, db.usedIds)
    && KeysFresh(db.sessions, db.usedIds)
    && KeysFresh(db.logouts, db.usedIds)
    && GrantIdsFresh(db.grants, db.usedIds)
    && BindingsFresh(db.sessions, db.usedIds)
    && CodeHashesFresh(db.codes, db.usedHashes)
    && GenerationHashesFresh(db.generations, db.usedHashes)
    && AccessHashesFresh(db.accesses, db.usedHashes)
    && SessionHashesFresh(db.sessions, db.usedHashes)
    && LogoutHashesFresh(db.logouts, db.usedHashes)
  }

  lemma FreshGrows(db: Db, ids: set<Id>, hashes: set<Digest>)
    requires FreshOk(db) && db.usedIds <= ids && db.usedHashes <= hashes
    ensures FreshOk(db.(usedIds := ids, usedHashes := hashes))
  {
  }

  // ----- Accounts and grants -----

  ghost predicate ClientsOk(clients: map<Id, Client>) {
    forall c :: c in clients ==> ValidProfile(clients[c]) && OpenId in clients[c].scopes && clients[c].publicId != ""
  }

  ghost predicate GrantsOk(grants: map<GrantKey, Grant>, users: map<Id, User>, clients: map<Id, Client>) {
    && (forall k :: k in grants ==>
          k.user in users && k.client in clients && grants[k].version >= 1 && OpenId in grants[k].scopes)
    && (forall j, k :: j in grants && k in grants && grants[j].id == grants[k].id ==> j == k)
  }

  /** The grant row of a user and client exists and has this id. */
  ghost predicate OnGrant(grants: map<GrantKey, Grant>, user: Id, client: Id, grant: Id) {
    GrantKey(user, client) in grants && grants[GrantKey(user, client)].id == grant
  }

  // ----- Codes -----

  /**
   Version fencing: a code never runs ahead of its grant, and while it is level with it the
   grant is unrevoked and covers the code's scopes.
   */
  ghost predicate Fenced(code: Code, grants: map<GrantKey, Grant>) {
    && OnGrant(grants, code.user, code.client, code.grant)
    && var grant := grants[GrantKey(code.user, code.client)];
       && 1 <= code.grantVersion <= grant.version
       && (code.grantVersion == grant.version ==> grant.revokedAt.None? && code.scopes <= grant.scopes)
  }

  ghost predicate CodeOk(code: Code, clock: Time) {
    && OpenId in code.scopes
    && code.binding.Some? && code.binding.value != NIL
    && code.createdAt <= clock
    && code.createdAt < code.expiresAt <= code.createdAt + 5 * MINUTE
    && code.authTime != 0 && code.authTime <= code.createdAt
  }

  ghost predicate CodesOk(codes: map<Id, Code>, grants: map<GrantKey, Grant>, clock: Time) {
    && (forall c :: c in codes ==> CodeOk(codes[c], clock) && Fenced(codes[c], grants))
    && (forall c, d :: c in codes && d in codes && codes[c].hash == codes[d].hash ==> c == d)
  }

  /** Each consumed transaction has at most one code, and a code's transaction is consumed. */
  ghost predicate TransactionsOk(codes: map<Id, Code>, transactions: map<Id, AuthTransaction>) {
    && (forall c :: c in codes ==>
          codes[c].transaction in transactions && transactions[codes[c].transaction].consumedAt.Some?)
    && (forall c, d :: c in codes && d in codes && codes[c].transaction == codes[d].transaction ==> c == d)
  }

  /** A row that names a code names a consumed one, on the same grant and binding. */
  ghost predicate OfCode(code: Option<Id>, grant: Id, user: Id, client: Id, scopes: set<Scope>, session: Option<Id>,
                         binding: Option<Id>, codes: map<Id, Code>) {
    code.Some? ==>
      && code.value in codes
      && var c := codes[code.value];
         c.consumedAt.Some? && c.grant == grant && c.user == user && c.client == client && c.scopes == scopes &&
         c.originSession == session && c.binding == binding
  }

  // ----- Families and generations -----

  ghost predicate FamilyOk(f: Family, grants: map<GrantKey, Grant>, clock: Time) {
    && OnGrant(grants, f.user, f.client, f.grant)
    && OpenId in f.scopes && OfflineAccess in f.scopes
    && f.binding != NIL
    && f.createdAt <= clock
    && f.createdAt < f.absoluteExpiresAt <= f.createdAt + 365 * DAY
    && (f.revokedAt.Some? ==> f.createdAt <= f.revokedAt.value <= clock)
  }

  ghost predicate FamiliesOk(families: map<Id, Family>, grants: map<GrantKey, Grant>, clock: Time) {
    forall f :: f in families ==> FamilyOk(families[f], grants, clock)
  }

  ghost predicate FamilyCodesOk(families: map<Id, Family>, codes: map<Id, Code>) {
    && (forall f :: f in families ==> var r := families[f];
          OfCode(r.originCode, r.grant, r.user, r.client, r.scopes, r.originSession, Some(r.binding), codes))
    && (forall f, h ::
          f in families && h in families && families[f].originCode.Some? &&
          families[f].originCode == families[h].originCode
          ==> f == h)
  }

  /** The authority behind an unrevoked family. */
  ghost predicate FamilyAlive(f: Family, users: map<Id, User>, clients: map<Id, Client>, grants: map<GrantKey, Grant>) {
    && f.user in users && users[f.user].status == Active
    && f.client in clients && clients[f.client].status == Active
    && OpenId in clients[f.client].scopes && OfflineAccess in clients[f.client].scopes
    && GrantKey(f.user, f.client) in grants
    && var grant := grants[GrantKey(f.user, f.client)];
       grant.id == f.grant && grant.revokedAt.None? && f.scopes <= grant.scopes
  }

  ghost predicate LiveFamiliesOk(families: map<Id, Family>, users: map<Id, User>, clients: map<Id, Client>,
                                 grants: map<GrantKey, Grant>) {
    forall f :: f in families && families[f].revokedAt.None? ==> FamilyAlive(families[f], users, clients, grants)
  }

  ghost predicate GenerationOk(g: Generation, families: map<Id, Family>, clock: Time) {
    && g.family in families
    && families[g.family].createdAt <= g.issuedAt <= clock
    && g.issuedAt < g.expiresAt <= families[g.family].absoluteExpiresAt
    && g.expiresAt <= g.issuedAt + 30 * DAY
    && (g.consumedAt.Some? ==> g.issuedAt <= g.consumedAt.value <= clock && g.consumedAt.value < g.expiresAt)
  }

  /** Within a family, numbers are unique and every generation below another one is consumed. */
  ghost predicate Ordered(generations: map<Id, Generation>, g: Id, h: Id)
    requires g in generations && h in generations
  {
    generations[g].family == generations[h].family && g != h ==>
      && generations[g].number != generations[h].number
      && (generations[g].number < generations[h].number ==> generations[g].consumedAt.Some?)
  }

  ghost predicate GenerationsOk(generations: map<Id, Generation>, families: map<Id, Family>, clock: Time) {
    && (forall g :: g in generations ==> GenerationOk(generations[g], families, clock))
    && (forall g, h :: g in generations && h in generations && generations[g].hash == generations[h].hash ==> g == h)
    && (forall g, h :: g in generations && h in generations ==> Ordered(generations, g, h))
  }

  ghost predicate HasNumber(generations: map<Id, Generation>, family: Id, number: int) {
    exists g :: g in generations && generations[g].family == family && generations[g].number == number
  }

  /** `g` is the last of its family: unconsumed, above all others, with no number missing below it. */
  ghost predicate IsHead(generations: map<Id, Generation>, family: Id, g: Id) {
    && g in generations
    && generations[g].family == family
    && generations[g].consumedAt.None?
    && (forall h :: h in generations && generations[h].family == family && h != g ==>
          generations[h].number < generations[g].number)
    && (forall k :: 0 <= k < generations[g].number ==> HasNumber(generations, family, k))
  }

  ghost predicate HasHead(generations: map<Id, Generation>, family: Id) {
    exists g :: IsHead(generations, family, g)
  }

  /** Until its absolute deadline a family's generations are exactly 0..n with only n unconsumed. */
  ghost predicate ChainsOk(families: map<Id, Family>, generations: map<Id, Generation>, clock: Time) {
    forall f :: f in families && families[f].absoluteExpiresAt > clock ==> HasHead(generations, f)
  }

  // ----- Access rows -----

  ghost predicate AccessOk(a: Access, grants: map<GrantKey, Grant>, clock: Time) {
    && OnGrant(grants, a.user, a.client, a.grant)
    && OpenId in a.scopes
    && 0 < a.issuedAt <= clock
    && a.issuedAt < a.expiresAt <= a.issuedAt + 30 * MINUTE
    && (a.revokedAt.Some? ==> a.issuedAt <= a.revokedAt.value <= clock)
    && a.binding.Some?
    && (OfflineAccess in a.scopes ==> a.family.Some?)
    && (match a.source
        case FromCode => a.sourceGeneration.None? && (a.family.Some? ==> OfflineAccess in a.scopes)
        case FromRefresh => a.sourceGeneration.Some? && a.family.Some? && a.code.None?)
  }

  ghost predicate AccessesOk(accesses: map<Id, Access>, grants: map<GrantKey, Grant>, clock: Time) {
    && (forall a :: a in accesses ==> AccessOk(accesses[a], grants, clock))
    && (forall a, b :: a in accesses && b in accesses && accesses[a].jtiHash == accesses[b].jtiHash ==> a == b)
  }

  ghost predicate AccessCodesOk(accesses: map<Id, Access>, codes: map<Id, Code>) {
    && (forall a :: a in accesses ==> var r := accesses[a];
          OfCode(r.code, r.grant, r.user, r.client, r.scopes, r.originSession, r.binding, codes))
    && (forall a, b ::
          a in accesses && b in accesses && accesses[a].code.Some? && accesses[a].code == accesses[b].code
          ==> a == b)
  }

  /** An access row agrees with its family, and is dead once the family is revoked. */
  ghost predicate OfItsFamily(a: Access, families: map<Id, Family>) {
    a.family.Some? ==>
      && a.family.value in families
      && var f := families[a.family.value];
         && f.user == a.user && f.client == a.client && f.grant == a.grant
         && a.binding == Some(f.binding) && a.originSession == f.originSession
         && a.scopes <= f.scopes
         && f.createdAt <= a.issuedAt < f.absoluteExpiresAt
         && (f.revokedAt.Some? ==> a.revokedAt.Some? || a.expiresAt <= f.revokedAt.value)
  }

  ghost predicate AccessFamiliesOk(accesses: map<Id, Access>, families: map<Id, Family>) {
    forall a :: a in accesses ==> OfItsFamily(accesses[a], families)
  }

  ghost predicate AccessSourcesOk(accesses: map<Id, Access>, generations: map<Id, Generation>) {
    && (forall a :: a in accesses && accesses[a].sourceGeneration.Some? ==>
          var g := accesses[a].sourceGeneration.value;
          && g in generations && generations[g].consumedAt.Some? && accesses[a].family == Some(generations[g].family))
    && (forall a, b ::
          a in accesses && b in accesses && accesses[a].sourceGeneration.Some? &&
          accesses[a].sourceGeneration == accesses[b].sourceGeneration
          ==> a == b)
  }

  /** The authority behind an access row that is unrevoked and unexpired. */
  ghost predicate AccessAlive(a: Access, users: map<Id, User>, clients: map<Id, Client>, grants: map<GrantKey, Grant>) {
    && a.user in users && users[a.user].status == Active
    && a.client in clients && clients[a.client].status == Active
    && GrantKey(a.user, a.client) in grants
    && var grant := grants[GrantKey(a.user, a.client)];
       grant.id == a.grant && grant.revokedAt.None? && a.scopes <= grant.scopes
  }

  ghost predicate LiveAccessesOk(accesses: map<Id, Access>, users: map<Id, User>, clients: map<Id, Client>,
                                 grants: map<GrantKey, Grant>, clock: Time) {
    forall a :: a in accesses && accesses[a].revokedAt.None? && accesses[a].expiresAt > clock ==>
      AccessAlive(accesses[a], users, clients, grants)
  }

  // ----- Sessions and logout -----

  /** A binding belongs to one user and has at most one unrevoked session. */
  ghost predicate SessionsOk(sessions: map<Id, Session>, users: map<Id, User>) {
    && (forall s :: s in sessions ==> sessions[s].user in users && sessions[s].idleExpiresAt <= sessions[s].expiresAt)
    && (forall s, t :: s in sessions && t in sessions && sessions[s].tokenHash == sessions[t].tokenHash ==> s == t)
    && (forall s, t :: s in sessions && t in sessions && sessions[s].binding == sessions[t].binding ==>
          && sessions[s].user == sessions[t].user
          && (sessions[s].revokedAt.None? && sessions[t].revokedAt.None? ==> s == t))
  }

  ghost predicate BoundToSession(l: Logout, sessions: map<Id, Session>) {
    && l.user.Some? && l.session.Some? && l.binding.Some?
    && l.session.value in sessions
    && sessions[l.session.value].user == l.user.value
    && sessions[l.session.value].binding == l.binding.value
  }

  ghost predicate LogoutOk(l: Logout, sessions: map<Id, Session>) {
    && l.createdAt < l.expiresAt <= l.createdAt + 15 * MINUTE
    && l.attempts <= 10
    && (match l.stage
        case PreConfirm => l.csrfHash.None? && l.user.None? && l.session.None? && l.binding.None? && l.consumedAt.None?
        case BoundConfirmable => l.csrfHash.Some? && BoundToSession(l, sessions) && l.consumedAt.None?
        case Confirmed => l.csrfHash.None? && BoundToSession(l, sessions) && l.consumedAt.Some?
        case Canceled => l.csrfHash.None? && BoundToSession(l, sessions) && l.consumedAt.Some?)
  }

  ghost predicate LogoutsOk(logouts: map<Id, Logout>, sessions: map<Id, Session>) {
    && (forall l :: l in logouts ==> LogoutOk(logouts[l], sessions))
    && (forall l, m :: l in logouts && m in logouts && logouts[l].lookupHash == logouts[m].lookupHash ==> l == m)
  }

  // ----- The invariant -----

  ghost predicate Inv(db: Db, clock: Time) {
    && clock > 0
    && FreshOk(db)
    && ClientsOk(db.clients)
    && GrantsOk(db.grants, db.users, db.clients)
    && CodesOk(db.codes, db.grants, clock)
    && TransactionsOk(db.codes, db.transactions)
    && FamiliesOk(db.families, db.grants, clock)
    && FamilyCodesOk(db.families, db.codes)
    && LiveFamiliesOk(db.families, db.users, db.clients, db.grants)
    && GenerationsOk(db.generations, db.families, clock)
    && ChainsOk(db.families, db.generations, clock)
    && AccessesOk(db.accesses, db.grants, clock)
    && AccessCodesOk(db.accesses, db.codes)
    && AccessFamiliesOk(db.accesses, db.families)
    && AccessSourcesOk(db.accesses, db.generations)
    && LiveAccessesOk(db.accesses, db.users, db.clients, db.grants, clock)
    && SessionsOk(db.sessions, db.users)
    && LogoutsOk(db.logouts, db.sessions)
  }

  lemma EmptyIsOk(clock: Time)
    requires clock > 0
    ensures Inv(EMPTY, clock)
  {
  }

  lemma TimePassesForCodes(db: Db, clock: Time, later: Time)
    requires clock <= later && CodesOk(db.codes, db.grants, clock)
    ensures CodesOk(db.codes, db.grants, later)
  {
  }

  lemma TimePassesForFamilies(db: Db, clock: Time, later: Time)
    requires clock <= later
    requires FamiliesOk(db.families, db.grants, clock) && ChainsOk(db.families, db.generations, clock)
    ensures FamiliesOk(db.families, db.grants, later) && ChainsOk(db.families, db.generations, later)
  {
  }

  lemma TimePassesForGenerations(db: Db, clock: Time, later: Time)
    requires clock <= later && GenerationsOk(db.generations, db.families, clock)
    ensures GenerationsOk(db.generations, db.families, later)
  {
  }

  lemma TimePassesForAccesses(db: Db, clock: Time, later: Time)
    requires clock <= later
    requires AccessesOk(db.accesses, db.grants, clock)
    requires LiveAccessesOk(db.accesses, db.users, db.clients, db.grants, clock)
    ensures AccessesOk(db.accesses, db.grants, later)
    ensures LiveAccessesOk(db.accesses, db.users, db.clients, db.grants, later)
  {
  }

  lemma TimePasses(db: Db, clock: Time, later: Time)
    requires Inv(db, clock) && clock <= later
    ensures Inv(db, later)
  {
    hide FreshOk, CodesOk, FamiliesOk, GenerationsOk, ChainsOk, AccessesOk, LiveAccessesOk;
    TimePassesForCodes(db, clock, later);
    TimePassesForFamilies(db, clock, later);
    TimePassesForGenerations(db, clock, later);
    TimePassesForAccesses(db, clock, later);
  }

  // ----- What a step may change -----

  /** Set once, then fixed. */
  predicate Latched(before: Option<Time>, after: Option<Time>) {
    before.Some? ==> after == before
  }

  /** Fixed, except that deleting the row it names clears it. */
  predicate Detached(before: Option<Id>, after: Option<Id>) {
    after == before || after.None?
  }

  predicate CodeKept(c: Code, d: Code) {
    && d == c.(consumedAt := d.consumedAt, originSession := d.originSession)
    && Latched(c.consumedAt, d.consumedAt) && Detached(c.originSession, d.originSession)
  }

  predicate FamilyKept(f: Family, h: Family) {
    && h == f.(revokedAt := h.revokedAt, originCode := h.originCode, originSession := h.originSession)
    && Latched(f.revokedAt, h.revokedAt) && Detached(f.originCode, h.originCode)
    && Detached(f.originSession, h.originSession)
  }

  predicate GenerationKept(g: Generation, h: Generation) {
    h == g.(consumedAt := h.consumedAt) && Latched(g.consumedAt, h.consumedAt)
  }

  predicate AccessKept(a: Access, b: Access) {
    && b == a.(revokedAt := b.revokedAt, code := b.code, originSession := b.originSession)
    && Latched(a.revokedAt, b.revokedAt) && Detached(a.code, b.code) && Detached(a.originSession, b.originSession)
  }

  predicate SessionKept(s: Session, t: Session) {
    t == s.(revokedAt := t.revokedAt, idleExpiresAt := t.idleExpiresAt) && Latched(s.revokedAt, t.revokedAt)
  }

  predicate TransactionKept(t: AuthTransaction, u: AuthTransaction) {
    && u == t.(consumedAt := u.consumedAt, failure := u.failure)
    && (t.consumedAt.Some? ==> u == t)
  }

  predicate StageReaches(s: Stage, t: Stage) {
    s == t || s == PreConfirm || (s == BoundConfirmable && t != PreConfirm)
  }

  predicate LogoutKept(l: Logout, m: Logout) {
    && m.lookupHash == l.lookupHash && m.createdAt == l.createdAt && m.expiresAt == l.expiresAt
    && StageReaches(l.stage, m.stage)
    && l.attempts <= m.attempts
    && (l.stage != PreConfirm ==> m.user == l.user && m.session == l.session && m.binding == l.binding)
    && (l.consumedAt.Some? ==> m == l)
  }

  ghost predicate UsersStable(users: map<Id, User>, after: map<Id, User>) {
    forall u :: u in users ==>
      u in after && after[u].subject == users[u].subject && users[u].version <= after[u].version
  }

  ghost predicate ClientsStable(clients: map<Id, Client>, after: map<Id, Client>) {
    forall c :: c in clients ==>
      && c in after && after[c].publicId == clients[c].publicId && after[c].kind == clients[c].kind
      && after[c].authMethod == clients[c].authMethod && clients[c].version <= after[c].version
  }

  /** A grant row is never deleted, and any change to it raises its version. */
  ghost predicate GrantsStable(grants: map<GrantKey, Grant>, after: map<GrantKey, Grant>) {
    forall k :: k in grants ==>
      && k in after && after[k].id == grants[k].id && grants[k].version <= after[k].version
      && (grants[k].version == after[k].version ==> after[k] == grants[k])
  }

  ghost predicate CodesStable(db: Db, codes: map<Id, Code>) {
    forall c :: c in codes ==>
      if c in db.codes then CodeKept(db.codes[c], codes[c])
      else c !in db.usedIds && codes[c].hash !in db.usedHashes
  }

  ghost predicate FamiliesStable(db: Db, families: map<Id, Family>) {
    forall f :: f in families ==>
      if f in db.families then FamilyKept(db.families[f], families[f]) else f !in db.usedIds
  }

  ghost predicate GenerationsStable(db: Db, generations: map<Id, Generation>) {
    forall g :: g in generations ==>
      if g in db.generations then GenerationKept(db.generations[g], generations[g])
      else g !in db.usedIds && generations[g].hash !in db.usedHashes
  }

  ghost predicate AccessesStable(db: Db, accesses: map<Id, Access>) {
    forall a :: a in accesses ==>
      if a in db.accesses then AccessKept(db.accesses[a], accesses[a])
      else a !in db.usedIds && accesses[a].jtiHash !in db.usedHashes
  }

  ghost predicate SessionsStable(db: Db, sessions: map<Id, Session>) {
    forall s :: s in sessions ==>
      if s in db.sessions then SessionKept(db.sessions[s], sessions[s])
      else s !in db.usedIds && sessions[s].tokenHash !in db.usedHashes
  }

  ghost predicate TransactionsStable(db: Db, transactions: map<Id, AuthTransaction>) {
    forall t :: t in transactions ==>
      if t in db.transactions then TransactionKept(db.transactions[t], transactions[t]) else t !in db.usedIds
  }

  ghost predicate LogoutsStable(db: Db, logouts: map<Id, Logout>) {
    forall l :: l in logouts ==>
      if l in db.logouts then LogoutKept(db.logouts[l], logouts[l])
      else l !in db.usedIds && logouts[l].lookupHash !in db.usedHashes
  }

  ghost predicate Stable(db: Db, after: Db) {
    && db.usedIds <= after.usedIds
    && db.usedHashes <= after.usedHashes
    && UsersStable(db.users, after.users)
    && ClientsStable(db.clients, after.clients)
    && GrantsStable(db.grants, after.grants)
    && TransactionsStable(db, after.transactions)
    && CodesStable(db, after.codes)
    && FamiliesStable(db, after.families)
    && GenerationsStable(db, after.generations)
    && AccessesStable(db, after.accesses)
    && SessionsStable(db, after.sessions)
    && LogoutsStable(db, after.logouts)
  }

  lemma StableReflexive(db: Db)
    ensures Stable(db, db)
  {
  }

  lemma TransactionsStableTransitive(a: Db, b: Db, c: Db)
    requires a.transactions.Keys <= a.usedIds && a.usedIds <= b.usedIds && a.usedHashes <= b.usedHashes
    requires TransactionsStable(a, b.transactions) && TransactionsStable(b, c.transactions)
    ensures TransactionsStable(a, c.transactions)
  {
  }

  lemma CodesStableTransitive(a: Db, b: Db, c: Db)
    requires a.codes.Keys <= a.usedIds && a.usedIds <= b.usedIds && a.usedHashes <= b.usedHashes
    requires CodesStable(a, b.codes) && CodesStable(b, c.codes)
    ensures CodesStable(a, c.codes)
  {
  }

  lemma FamiliesStableTransitive(a: Db, b: Db, c: Db)
    requires a.families.Keys <= a.usedIds && a.usedIds <= b.usedIds && a.usedHashes <= b.usedHashes
    requires FamiliesStable(a, b.families) && FamiliesStable(b, c.families)
    ensures FamiliesStable(a, c.families)
  {
  }

  lemma GenerationsStableTransitive(a: Db, b: Db, c: Db)
    requires a.generations.Keys <= a.usedIds && a.usedIds <= b.usedIds && a.usedHashes <= b.usedHashes
    requires GenerationsStable(a, b.generations) && GenerationsStable(b, c.generations)
    ensures GenerationsStable(a, c.generations)
  {
  }

  lemma AccessesStableTransitive(a: Db, b: Db, c: Db)
    requires a.accesses.Keys <= a.usedIds && a.usedIds <= b.usedIds && a.usedHashes <= b.usedHashes
    requires AccessesStable(a, b.accesses) && AccessesStable(b, c.accesses)
    ensures AccessesStable(a, c.accesses)
  {
  }

  lemma SessionsStableTransitive(a: Db, b: Db, c: Db)
    requires a.sessions.Keys <= a.usedIds && a.usedIds <= b.usedIds && a.usedHashes <= b.usedHashes
    requires SessionsStable(a, b.sessions) && SessionsStable(b, c.sessions)
    ensures SessionsStable(a, c.sessions)
  {
  }

  lemma LogoutsStableTransitive(a: Db, b: Db, c: Db)
    requires a.logouts.Keys <= a.usedIds && a.usedIds <= b.usedIds && a.usedHashes <= b.usedHashes
    requires LogoutsStable(a, b.logouts) && LogoutsStable(b, c.logouts)
    ensures LogoutsStable(a, c.logouts)
  {
  }

  lemma AccountsStableTransitive(a: Db, b: Db, c: Db)
    requires UsersStable(a.users, b.users) && UsersStable(b.users, c.users)
    requires ClientsStable(a.clients, b.clients) && ClientsStable(b.clients, c.clients)
    requires GrantsStable(a.grants, b.grants) && GrantsStable(b.grants, c.grants)
    ensures UsersStable(a.users, c.users) && ClientsStable(a.clients, c.clients) && GrantsStable(a.grants, c.grants)
  {
  }

  lemma StableTransitive(a: Db, b: Db, c: Db, clock: Time)
    requires Inv(a, clock)
    requires Stable(a, b) && Stable(b, c)
    ensures Stable(a, c)
  {
    hide ClientsOk, GrantsOk, CodesOk, TransactionsOk, FamiliesOk, FamilyCodesOk, LiveFamiliesOk, GenerationsOk,
         ChainsOk;
    hide AccessesOk, AccessCodesOk, AccessFamiliesOk, AccessSourcesOk, LiveAccessesOk, SessionsOk, LogoutsOk;
    AccountsStableTransitive(a, b, c);
    TransactionsStableTransitive(a, b, c);
    CodesStableTransitive(a, b, c);
    FamiliesStableTransitive(a, b, c);
    GenerationsStableTransitive(a, b, c);
    AccessesStableTransitive(a, b, c);
    SessionsStableTransitive(a, b, c);
    LogoutsStableTransitive(a, b, c);
  }
}
