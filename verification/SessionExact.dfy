/**
 Browser sessions and logout transactions, exactly: when a login, a registration or a step of a logout
 succeeds, the row it writes, what it ends, and that nothing else changes.
 */
module SessionExact {
  import opened Schema
  import opened Sessions
  import opened Invariants
  import opened WithdrawalExact

  // ----- Sessions -----

  /** The new session can be stored. */
  predicate Storable(db: Db, x: LoginInput, now: Time) {
    && x.session != NIL && x.session !in db.usedIds && x.tokenHash !in db.usedHashes
    && now < x.idleExpiresAt && x.idleExpiresAt <= x.expiresAt
  }

  /** The browser came with the cookie of this session, which is unrevoked and inside both its deadlines. */
  ghost predicate CameWith(db: Db, x: LoginInput, id: Id, now: Time) {
    && id in db.sessions && x.existing == Some(db.sessions[id].tokenHash)
    && db.sessions[id].revokedAt.None? && now < db.sessions[id].expiresAt && now < db.sessions[id].idleExpiresAt
  }

  lemma ExistingExact(db: Db, x: LoginInput, now: Time)
    requires Inv(db, now)
    ensures forall id: Id :: CameWith(db, x, id, now) <==> Existing(db, x, now) == Some(id)
  {
    hide Inv;
    forall id: Id | CameWith(db, x, id, now)
      ensures Existing(db, x, now) == Some(id)
    {
      OneSessionPerHash(db, id, db.sessions[id].tokenHash, now);
    }
  }

  ghost predicate Alone(db: Db, x: LoginInput, now: Time) {
    forall id: Id :: !CameWith(db, x, id, now)
  }

  /** The state after the session row is stored over the sessions, families and access rows of `mid`. */
  ghost predicate Stores(db: Db, after: Db, mid: Db, x: LoginInput, binding: Id, now: Time) {
    && after.sessions ==
       mid.sessions[x.session := Session(x.user, binding, x.tokenHash, now, x.expiresAt, x.idleExpiresAt, None)]
    && after.families == mid.families && after.accesses == mid.accesses
    && after.clients == db.clients && after.grants == db.grants && after.transactions == db.transactions
    && after.codes == db.codes && after.generations == db.generations && after.logouts == db.logouts
    && after.usedHashes == db.usedHashes + {x.tokenHash}
  }

  lemma InsertStores(db: Db, mid: Db, x: LoginInput, binding: Id, now: Time)
    requires mid.clients == db.clients && mid.grants == db.grants && mid.transactions == db.transactions
    requires mid.codes == db.codes && mid.generations == db.generations && mid.logouts == db.logouts
    requires mid.usedHashes == db.usedHashes
    ensures var after := InsertSession(mid, x, binding, now);
      Stores(db, after, mid, x, binding, now) && after.usedIds == mid.usedIds + {x.session}
  {
  }

  lemma CloseFrame(db: Db, ids: set<Id>, now: Time)
    ensures var after := CloseSessions(db, ids, now);
      && after.clients == db.clients && after.transactions == db.transactions && after.codes == db.codes
      && after.usedIds == db.usedIds && after.usedHashes == db.usedHashes
  {
  }

  /**
   CommitLogin succeeds exactly for an active user and a storable session. A browser that came with a live
   session of the same user keeps its binding, and that session ends alone; another user's session ends with
   all that is recorded under its binding.
   */
  lemma LoginExact(db: Db, x: LoginInput, now: Time)
    requires Inv(db, now)
    ensures var (after, binding) := Login(db, x, now);
      && (binding.Some? <==> Storable(db, x, now) && x.user in db.users && db.users[x.user].status == Active)
      && (binding.None? ==> after == db)
      && (binding.Some? ==> after.users == db.users && after.usedIds == db.usedIds + {x.session})
      && (binding.Some? && Alone(db, x, now) ==>
            binding == Some(x.session) && Stores(db, after, db, x, x.session, now))
  {
    hide Inv, CloseSessions, RevokeSessions, CameWith, Existing, InsertSession, Stores;
    ExistingExact(db, x, now);
    InsertStores(db, db, x, x.session, now);
    if Existing(db, x, now).Some? {
      var id := Existing(db, x, now).value;
      assert CameWith(db, x, id, now);
      CloseFrame(db, {id}, now);
      InsertStores(db, CloseSessions(db, {id}, now), x, x.session, now);
      InsertStores(db, db.(sessions := RevokeSessions(db.sessions, {id}, now)), x, db.sessions[id].binding, now);
    }
  }

  lemma ReturningLoginExact(db: Db, x: LoginInput, id: Id, now: Time)
    requires Inv(db, now) && CameWith(db, x, id, now) && Login(db, x, now).1.Some?
    ensures var (after, binding) := Login(db, x, now);
      var previous := db.sessions[id];
      if previous.user == x.user then
        && binding == Some(previous.binding)
        && Stores(db, after, db.(sessions := db.sessions[id := previous.(revokedAt := Some(now))]), x,
                  previous.binding, now)
      else
        && binding == Some(x.session)
        && Stores(db, after, RevokeSession(db, id, None, now), x, x.session, now)
  {
    hide Inv, CameWith, CloseSessions, Existing, InsertSession, Stores, RevokeSessions;
    ExistingExact(db, x, now);
    OneRevoked(db, x, id, now);
    CloseFrame(db, {id}, now);
    InsertStores(db, CloseSessions(db, {id}, now), x, x.session, now);
    InsertStores(db, db.(sessions := RevokeSessions(db.sessions, {id}, now)), x, db.sessions[id].binding, now);
  }

  lemma OneRevoked(db: Db, x: LoginInput, id: Id, now: Time)
    requires CameWith(db, x, id, now)
    ensures id in db.sessions && db.sessions[id].revokedAt.None?
    ensures RevokeSessions(db.sessions, {id}, now) == db.sessions[id := db.sessions[id].(revokedAt := Some(now))]
  {
  }

  predicate NewAccount(db: Db, x: LoginInput, u: User) {
    x.user !in db.usedIds && x.user != x.session && u.status == Active && u.version == 1
  }

  function Registered(db: Db, x: LoginInput, u: User): Db {
    db.(users := db.users[x.user := u], usedIds := db.usedIds + {x.user})
  }

  /** CommitRegistration: the account and its first session together; another user's session in the browser ends. */
  lemma RegisterExact(db: Db, x: LoginInput, u: User, now: Time)
    requires Inv(db, now)
    ensures var after := Register(db, x, u, now);
      if Storable(db, x, now) && NewAccount(db, x, u) then
        && after.users == db.users[x.user := u] && after.usedIds == db.usedIds + {x.user, x.session}
        && (Alone(db, x, now) ==> Stores(db, after, db, x, x.session, now))
      else after == db
  {
    hide Inv, CloseSessions, CameWith, Existing, InsertSession, Stores;
    ExistingExact(db, x, now);
    var registered := Registered(db, x, u);
    InsertStores(db, registered, x, x.session, now);
    if Existing(db, x, now).Some? {
      var id := Existing(db, x, now).value;
      assert CameWith(db, x, id, now);
      CloseFrame(registered, {id}, now);
      InsertStores(db, CloseSessions(registered, {id}, now), x, x.session, now);
    }
    SameStores(db, registered, Register(db, x, u, now), x, now);
  }

  lemma ReturningRegisterExact(db: Db, x: LoginInput, u: User, id: Id, now: Time)
    requires Inv(db, now) && CameWith(db, x, id, now) && Storable(db, x, now) && NewAccount(db, x, u)
    ensures Stores(db, Register(db, x, u, now), RevokeSession(db, id, None, now), x, x.session, now)
  {
    hide Inv, CloseSessions, CameWith, Existing, InsertSession;
    ExistingExact(db, x, now);
    OneRevoked(db, x, id, now);
    OwnerIsUsed(db, id, now);
    var registered := Registered(db, x, u);
    CloseFrame(registered, {id}, now);
    SameClosing(db, registered, id, now);
    InsertStores(db, CloseSessions(registered, {id}, now), x, x.session, now);
  }

  lemma SameStores(db: Db, mid: Db, after: Db, x: LoginInput, now: Time)
    requires mid.sessions == db.sessions && mid.families == db.families && mid.accesses == db.accesses
    ensures Stores(db, after, mid, x, x.session, now) <==> Stores(db, after, db, x, x.session, now)
  {
  }

  lemma SameClosing(db: Db, other: Db, id: Id, now: Time)
    requires other.sessions == db.sessions && other.families == db.families && other.accesses == db.accesses
    ensures var (a, b) := (CloseSessions(db, {id}, now), CloseSessions(other, {id}, now));
      a.sessions == b.sessions && a.families == b.families && a.accesses == b.accesses
  {
  }

  lemma OwnerIsUsed(db: Db, id: Id, now: Time)
    requires Inv(db, now) && id in db.sessions
    ensures db.sessions[id].user in db.usedIds
  {
    hide ClientsOk, GrantsOk, CodesOk, TransactionsOk, FamiliesOk, FamilyCodesOk, LiveFamiliesOk, GenerationsOk;
    hide ChainsOk, AccessesOk, AccessCodesOk, AccessFamiliesOk, AccessSourcesOk, LiveAccessesOk, LogoutsOk;
  }

  /** TouchLoginSession moves the idle deadline of a live session, to the absolute deadline at most. */
  lemma TouchExact(db: Db, id: Id, idleExpiresAt: Time, now: Time)
    ensures var after := Touch(db, id, idleExpiresAt, now);
      if id in db.sessions && db.sessions[id].revokedAt.None? && now < db.sessions[id].expiresAt &&
         now < db.sessions[id].idleExpiresAt && db.sessions[id].createdAt < idleExpiresAt
      then
        && after == db.(sessions := after.sessions) && after.sessions.Keys == db.sessions.Keys
        && (forall s :: s in db.sessions && s != id ==> after.sessions[s] == db.sessions[s])
        && var idle := after.sessions[id].idleExpiresAt;
           && after.sessions[id] == db.sessions[id].(idleExpiresAt := idle)
           && idle <= idleExpiresAt && idle <= db.sessions[id].expiresAt
           && (idle == idleExpiresAt || idle == db.sessions[id].expiresAt)
      else after == db
  {
  }
}
