/**
 Session, login, account and logout steps keep the invariant.
 */
module SessionProofs {
  import opened Schema
  import opened Revocation
  import opened Sessions
  import opened Accounts
  import opened Logouts
  import opened Invariants
  import opened WithdrawalProofs

  /** Logout rows only read the owner and binding of their session. */
  lemma LogoutsFollow(logouts: map<Id, Logout>, sessions: map<Id, Session>, after: map<Id, Session>)
    requires LogoutsOk(logouts, sessions)
    requires forall s :: s in sessions ==>
      s in after && after[s].user == sessions[s].user && after[s].binding == sessions[s].binding
    ensures LogoutsOk(logouts, after)
  {
    forall l | l in logouts
      ensures LogoutOk(logouts[l], after)
    {
      assert LogoutOk(logouts[l], sessions);
    }
  }

  // ----- Revoking sessions -----

  lemma RevokeSessionsFresh(db: Db, ids: set<Id>, now: Time)
    requires FreshOk(db)
    ensures FreshOk(db.(sessions := RevokeSessions(db.sessions, ids, now)))
  {
    var after := RevokeSessions(db.sessions, ids, now);
    assert after.Keys == db.sessions.Keys;
    assert forall s :: s in after ==>
        after[s].binding == db.sessions[s].binding && after[s].tokenHash == db.sessions[s].tokenHash;
  }

  lemma RevokeSessionsOk(db: Db, ids: set<Id>, now: Time)
    requires SessionsOk(db.sessions, db.users) && LogoutsOk(db.logouts, db.sessions)
    ensures SessionsOk(RevokeSessions(db.sessions, ids, now), db.users)
    ensures LogoutsOk(db.logouts, RevokeSessions(db.sessions, ids, now))
  {
    hide LogoutsOk;
    LogoutsFollow(db.logouts, db.sessions, RevokeSessions(db.sessions, ids, now));
  }

  lemma RevokeSessionsKeeps(db: Db, ids: set<Id>, now: Time)
    requires Inv(db, now)
    ensures Inv(db.(sessions := RevokeSessions(db.sessions, ids, now)), now)
    ensures Stable(db, db.(sessions := RevokeSessions(db.sessions, ids, now)))
  {
    hide FreshOk, ClientsOk, GrantsOk, CodesOk, TransactionsOk, FamiliesOk, FamilyCodesOk, LiveFamiliesOk,
         GenerationsOk;
    hide ChainsOk, AccessesOk, AccessCodesOk, AccessFamiliesOk, AccessSourcesOk, LiveAccessesOk, SessionsOk, LogoutsOk;
    RevokeSessionsFresh(db, ids, now);
    RevokeSessionsOk(db, ids, now);
  }

  lemma CloseSessionsKeeps(db: Db, ids: set<Id>, now: Time)
    requires Inv(db, now)
    ensures Inv(CloseSessions(db, ids, now), now) && Stable(db, CloseSessions(db, ids, now))
  {
    hide Inv, Stable, RevokeFamilies, RevokeAccesses, RevokeSessions;
    var mid := Cascade(db, OnBindings(BindingsOf(db.sessions, ids)), now);
    CascadeKeeps(db, OnBindings(BindingsOf(db.sessions, ids)), now);
    RevokeSessionsKeeps(mid, ids, now);
    StableTransitive(db, mid, CloseSessions(db, ids, now), now);
  }

  lemma SessionRevocationsKeep(db: Db, id: Id, owner: Option<Id>, hash: Digest, user: Id, now: Time)
    requires Inv(db, now)
    ensures Inv(RevokeSession(db, id, owner, now), now) && Stable(db, RevokeSession(db, id, owner, now))
    ensures Inv(RevokeSessionByHash(db, hash, now), now) && Stable(db, RevokeSessionByHash(db, hash, now))
    ensures Inv(RevokeOthers(db, user, id, now), now) && Stable(db, RevokeOthers(db, user, id, now))
    ensures Inv(RevokeAll(db, user, now), now) && Stable(db, RevokeAll(db, user, now))
  {
    hide Inv, Stable, CloseSessions, ActiveSessionsOf;
    StableReflexive(db);
    CloseSessionsKeeps(db, {id}, now);
    CloseSessionsKeeps(db, ActiveSessionsOf(db.sessions, user) - {id}, now);
    CloseSessionsKeeps(db, ActiveSessionsOf(db.sessions, user), now);
    var found := FindSession(db.sessions, hash);
    if found.Some? {
      CloseSessionsKeeps(db, {found.value}, now);
    }
  }

  lemma WithdrawnKeeps(db: Db, id: Id, u: UserUpdate, now: Time)
    requires Inv(db, now)
    ensures Inv(Withdrawn(db, id, u, now), now) && Stable(db, Withdrawn(db, id, u, now))
    ensures Withdrawn(db, id, u, now).users == db.users
    ensures u.status == Disabled ==> Emptied(Withdrawn(db, id, u, now), OfUser(id), now)
  {
    hide Inv, Stable, RevokeFamilies, RevokeAccesses, RevokeSessions, ActiveSessionsOf, Emptied;
    StableReflexive(db);
    var withdrawn := if u.status == Disabled then Cascade(db, OfUser(id), now) else db;
    if u.status == Disabled {
      CascadeKeeps(db, OfUser(id), now);
      CascadeEmpties(db, OfUser(id), now);
    }
    if u.revokeSessions {
      var ids := ActiveSessionsOf(db.sessions, id);
      CloseSessionsKeeps(withdrawn, ids, now);
      if u.status == Disabled { ClosingKeepsEmptied(withdrawn, ids, OfUser(id), now); }
      StableTransitive(db, withdrawn, CloseSessions(withdrawn, ids, now), now);
    }
  }

  lemma UpdateUserKeeps(db: Db, id: Id, u: UserUpdate, now: Time)
    requires Inv(db, now)
    ensures Inv(UpdateUser(db, id, u, now), now) && Stable(db, UpdateUser(db, id, u, now))
  {
    hide Inv, Stable, Withdrawn, Emptied, ActiveAdmins;
    StableReflexive(db);
    if id in db.users && !LastAdminBlocks(db, id, u) && db.users[id].version == u.expectedVersion {
      var mid := Withdrawn(db, id, u, now);
      WithdrawnKeeps(db, id, u, now);
      UserChangeKeeps(mid, id, db.users[id].(status := u.status, role := u.role, version := db.users[id].version + 1),
                      now);
      StableTransitive(db, mid, UpdateUser(db, id, u, now), now);
    }
  }

  lemma ClosingKeepsEmptied(db: Db, ids: set<Id>, s: Selector, now: Time)
    requires Emptied(db, s, now)
    ensures Emptied(CloseSessions(db, ids, now), s, now)
  {
    var after := CloseSessions(db, ids, now);
    assert forall f :: f in after.families && SelectsFamily(s, f, after.families[f]) ==>
        SelectsFamily(s, f, db.families[f]);
    assert forall a :: a in after.accesses && SelectsAccess(s, after.accesses[a]) ==> SelectsAccess(s, db.accesses[a]);
  }

  // ----- New sessions -----

  /** A session may join a binding that is its own fresh id, or one its user holds no open session on. */
  ghost predicate BindingFree(db: Db, x: LoginInput, binding: Id) {
    binding == x.session ||
    (&& binding in db.usedIds && binding != NIL
     && forall s :: s in db.sessions && db.sessions[s].binding == binding ==>
          db.sessions[s].user == x.user && db.sessions[s].revokedAt.Some?)
  }

  lemma InsertSessionFresh(db: Db, x: LoginInput, binding: Id, now: Time)
    requires FreshOk(db) && SessionInsertable(db, x, now) && BindingFree(db, x, binding)
    ensures FreshOk(InsertSession(db, x, binding, now))
  {
  }

  lemma InsertedIsOk(db: Db, x: LoginInput, binding: Id, now: Time)
    requires FreshOk(db) && SessionInsertable(db, x, now) && BindingFree(db, x, binding) && x.user in db.users
    requires SessionsOk(db.sessions, db.users)
    ensures SessionsOk(InsertSession(db, x, binding, now).sessions, db.users)
  {
    hide GrantIdsFresh, CodeHashesFresh, GenerationHashesFresh, AccessHashesFresh, LogoutHashesFresh;
  }

  lemma InsertSessionOk(db: Db, x: LoginInput, binding: Id, now: Time)
    requires FreshOk(db) && SessionInsertable(db, x, now) && BindingFree(db, x, binding) && x.user in db.users
    requires SessionsOk(db.sessions, db.users) && LogoutsOk(db.logouts, db.sessions)
    ensures var after := InsertSession(db, x, binding, now);
      && SessionsOk(after.sessions, db.users) && LogoutsOk(db.logouts, after.sessions)
      && SessionsStable(db, after.sessions)
  {
    hide LogoutsOk, SessionsOk, GrantIdsFresh, CodeHashesFresh, GenerationHashesFresh, AccessHashesFresh;
    hide LogoutHashesFresh, BindingsFresh;
    var after := InsertSession(db, x, binding, now);
    assert x.session !in db.sessions;
    InsertedIsOk(db, x, binding, now);
    LogoutsFollow(db.logouts, db.sessions, after.sessions);
  }

  lemma InsertSessionKeeps(db: Db, x: LoginInput, binding: Id, now: Time)
    requires Inv(db, now) && SessionInsertable(db, x, now) && BindingFree(db, x, binding) && x.user in db.users
    ensures Inv(InsertSession(db, x, binding, now), now) && Stable(db, InsertSession(db, x, binding, now))
  {
    hide FreshOk, ClientsOk, GrantsOk, CodesOk, TransactionsOk, FamiliesOk, FamilyCodesOk, LiveFamiliesOk,
         GenerationsOk;
    hide ChainsOk, AccessesOk, AccessCodesOk, AccessFamiliesOk, AccessSourcesOk, LiveAccessesOk, SessionsOk, LogoutsOk;
    hide SessionsStable, BindingFree;
    InsertSessionFresh(db, x, binding, now);
    InsertSessionOk(db, x, binding, now);
  }

  /** Once its one unrevoked session is revoked, a binding is free for its user. */
  lemma RotationFreesBinding(db: Db, id: Id, x: LoginInput, now: Time)
    requires FreshOk(db) && SessionsOk(db.sessions, db.users)
    requires id in db.sessions && db.sessions[id].revokedAt.None? && db.sessions[id].user == x.user
    ensures BindingFree(db.(sessions := RevokeSessions(db.sessions, {id}, now)), x, db.sessions[id].binding)
  {
  }

  lemma LoginKeeps(db: Db, x: LoginInput, now: Time)
    requires Inv(db, now)
    ensures Inv(Login(db, x, now).0, now) && Stable(db, Login(db, x, now).0)
  {
    hide Inv, Stable, CloseSessions, RevokeSessions, InsertSession;
    StableReflexive(db);
    if !(x.session == NIL || x.user !in db.users || db.users[x.user].status != Active ||
         !SessionInsertable(db, x, now))
    {
      var existing := Existing(db, x, now);
      if existing.None? {
        InsertSessionKeeps(db, x, x.session, now);
      } else if db.sessions[existing.value].user == x.user {
        var rotated := db.(sessions := RevokeSessions(db.sessions, {existing.value}, now));
        RevokeSessionsKeeps(db, {existing.value}, now);
        SessionsAreOk(db, now);
        RotationFreesBinding(db, existing.value, x, now);
        InsertSessionKeeps(rotated, x, db.sessions[existing.value].binding, now);
        StableTransitive(db, rotated, Login(db, x, now).0, now);
      } else {
        var closed := CloseSessions(db, {existing.value}, now);
        CloseSessionsKeeps(db, {existing.value}, now);
        ClosingKeepsNames(db, {existing.value}, now);
        InsertSessionKeeps(closed, x, x.session, now);
        StableTransitive(db, closed, Login(db, x, now).0, now);
      }
    }
  }

  lemma SessionsAreOk(db: Db, now: Time)
    requires Inv(db, now)
    ensures FreshOk(db) && SessionsOk(db.sessions, db.users)
  {
  }

  lemma ClosingKeepsNames(db: Db, ids: set<Id>, now: Time)
    ensures var after := CloseSessions(db, ids, now);
      after.users == db.users && after.usedIds == db.usedIds && after.usedHashes == db.usedHashes
  {
  }

  // ----- New accounts -----

  lemma CreateUserFresh(db: Db, id: Id, u: User)
    requires FreshOk(db)
    ensures FreshOk(CreateUser(db, id, u))
  {
    hide GrantIdsFresh, BindingsFresh, CodeHashesFresh, GenerationHashesFresh, AccessHashesFresh, SessionHashesFresh;
    hide LogoutHashesFresh;
    FreshGrows(db, db.usedIds + {id}, db.usedHashes);
    var grown := db.(usedIds := db.usedIds + {id});
    assert FreshOk(grown);
  }

  lemma CreateUserStable(db: Db, id: Id, u: User)
    requires FreshOk(db)
    ensures Stable(db, CreateUser(db, id, u))
  {
    hide ClientsStable, GrantsStable, TransactionsStable, CodesStable, FamiliesStable, GenerationsStable;
    hide AccessesStable, SessionsStable, LogoutsStable;
    hide GrantIdsFresh, BindingsFresh, CodeHashesFresh, GenerationHashesFresh, AccessHashesFresh;
    hide SessionHashesFresh, LogoutHashesFresh;
    StableReflexive(db);
    assert id !in db.usedIds ==> id !in db.users;
  }

  lemma CreateUserKeeps(db: Db, id: Id, u: User, now: Time)
    requires Inv(db, now)
    ensures Inv(CreateUser(db, id, u), now) && Stable(db, CreateUser(db, id, u))
  {
    hide FreshOk, ClientsOk, GrantsOk, CodesOk, TransactionsOk, FamiliesOk, FamilyCodesOk, LiveFamiliesOk,
         GenerationsOk;
    hide ChainsOk, AccessesOk, AccessCodesOk, AccessFamiliesOk, AccessSourcesOk, LiveAccessesOk, SessionsOk, LogoutsOk;
    hide Stable;
    CreateUserFresh(db, id, u);
    CreateUserStable(db, id, u);
    if id !in db.usedIds {
      UnusedIsAbsent(db, id);
      NewUserAlive(db, id, u, now);
      UserChangeOwners(db, id, u);
    }
  }

  lemma UnusedIsAbsent(db: Db, id: Id)
    requires FreshOk(db) && id !in db.usedIds
    ensures id !in db.users && id !in db.clients && id !in db.logouts && id !in db.transactions
  {
  }

  lemma NewUserAlive(db: Db, id: Id, u: User, now: Time)
    requires id !in db.users
    requires LiveFamiliesOk(db.families, db.users, db.clients, db.grants)
    requires LiveAccessesOk(db.accesses, db.users, db.clients, db.grants, now)
    ensures LiveFamiliesOk(db.families, db.users[id := u], db.clients, db.grants)
    ensures LiveAccessesOk(db.accesses, db.users[id := u], db.clients, db.grants, now)
  {
  }

  lemma NewClientAlive(db: Db, id: Id, c: Client, now: Time)
    requires id !in db.clients
    requires LiveFamiliesOk(db.families, db.users, db.clients, db.grants)
    requires LiveAccessesOk(db.accesses, db.users, db.clients, db.grants, now)
    ensures LiveFamiliesOk(db.families, db.users, db.clients[id := c], db.grants)
    ensures LiveAccessesOk(db.accesses, db.users, db.clients[id := c], db.grants, now)
  {
  }

  lemma CreateClientFresh(db: Db, id: Id, c: Client)
    requires FreshOk(db)
    ensures FreshOk(CreateClient(db, id, c))
  {
    hide GrantIdsFresh, BindingsFresh, CodeHashesFresh, GenerationHashesFresh, AccessHashesFresh, SessionHashesFresh;
    hide LogoutHashesFresh;
    FreshGrows(db, db.usedIds + {id}, db.usedHashes);
    var grown := db.(usedIds := db.usedIds + {id});
    assert FreshOk(grown);
  }

  lemma CreateClientStable(db: Db, id: Id, c: Client)
    requires FreshOk(db)
    ensures Stable(db, CreateClient(db, id, c))
  {
    hide UsersStable, GrantsStable, TransactionsStable, CodesStable, FamiliesStable, GenerationsStable;
    hide AccessesStable, SessionsStable, LogoutsStable;
    hide GrantIdsFresh, BindingsFresh, CodeHashesFresh, GenerationHashesFresh, AccessHashesFresh;
    hide SessionHashesFresh, LogoutHashesFresh;
    StableReflexive(db);
    assert id !in db.usedIds ==> id !in db.clients;
  }

  lemma CreateClientOwners(db: Db, id: Id, c: Client)
    requires ClientsOk(db.clients) && GrantsOk(db.grants, db.users, db.clients)
    ensures var after := CreateClient(db, id, c);
      ClientsOk(after.clients) && GrantsOk(db.grants, db.users, after.clients)
  {
  }

  lemma CreateClientKeeps(db: Db, id: Id, c: Client, now: Time)
    requires Inv(db, now)
    ensures Inv(CreateClient(db, id, c), now) && Stable(db, CreateClient(db, id, c))
  {
    hide FreshOk, ClientsOk, GrantsOk, CodesOk, TransactionsOk, FamiliesOk, FamilyCodesOk, LiveFamiliesOk,
         GenerationsOk;
    hide ChainsOk, AccessesOk, AccessCodesOk, AccessFamiliesOk, AccessSourcesOk, LiveAccessesOk, SessionsOk, LogoutsOk;
    hide Stable;
    CreateClientFresh(db, id, c);
    CreateClientStable(db, id, c);
    CreateClientOwners(db, id, c);
    if id !in db.usedIds {
      UnusedIsAbsent(db, id);
      NewClientAlive(db, id, c, now);
    }
  }

  lemma RegisterKeeps(db: Db, x: LoginInput, u: User, now: Time)
    requires Inv(db, now)
    ensures Inv(Register(db, x, u, now), now) && Stable(db, Register(db, x, u, now))
  {
    hide Inv, Stable, CloseSessions, InsertSession;
    StableReflexive(db);
    if Registrable(db, x, u, now) {
      var registered := CreateUser(db, x.user, u);
      CreateUserKeeps(db, x.user, u, now);
      var existing := Existing(db, x, now);
      if existing.None? || db.sessions[existing.value].user == x.user {
        InsertSessionKeeps(registered, x, x.session, now);
        assert Register(db, x, u, now) == InsertSession(registered, x, x.session, now);
        StableTransitive(db, registered, Register(db, x, u, now), now);
      } else {
        var closed := CloseSessions(registered, {existing.value}, now);
        assert Register(db, x, u, now) == InsertSession(closed, x, x.session, now);
        CloseSessionsKeeps(registered, {existing.value}, now);
        ClosingKeepsNames(registered, {existing.value}, now);
        InsertSessionKeeps(closed, x, x.session, now);
        StableTransitive(db, registered, closed, now);
        StableTransitive(db, closed, Register(db, x, u, now), now);
      }
    }
  }

  lemma TouchFresh(db: Db, id: Id, idle: Time, now: Time)
    requires FreshOk(db)
    ensures FreshOk(Touch(db, id, idle, now))
  {
    assert Touch(db, id, idle, now).sessions.Keys == db.sessions.Keys;
  }

  lemma TouchSessions(db: Db, id: Id, idle: Time, now: Time)
    requires SessionsOk(db.sessions, db.users)
    ensures SessionsOk(Touch(db, id, idle, now).sessions, db.users)
  {
  }

  lemma TouchLogouts(db: Db, id: Id, idle: Time, now: Time)
    requires LogoutsOk(db.logouts, db.sessions)
    ensures LogoutsOk(db.logouts, Touch(db, id, idle, now).sessions)
  {
    hide LogoutsOk;
    LogoutsFollow(db.logouts, db.sessions, Touch(db, id, idle, now).sessions);
  }

  lemma TouchStable(db: Db, id: Id, idle: Time, now: Time)
    ensures Stable(db, Touch(db, id, idle, now))
  {
    hide UsersStable, ClientsStable, GrantsStable, TransactionsStable, CodesStable, FamiliesStable, GenerationsStable;
    hide AccessesStable, LogoutsStable;
    StableReflexive(db);
  }

  lemma TouchKeeps(db: Db, id: Id, idle: Time, now: Time)
    requires Inv(db, now)
    ensures Inv(Touch(db, id, idle, now), now) && Stable(db, Touch(db, id, idle, now))
  {
    hide FreshOk, ClientsOk, GrantsOk, CodesOk, TransactionsOk, FamiliesOk, FamilyCodesOk, LiveFamiliesOk,
         GenerationsOk;
    hide ChainsOk, AccessesOk, AccessCodesOk, AccessFamiliesOk, AccessSourcesOk, LiveAccessesOk, SessionsOk, LogoutsOk;
    hide Stable;
    TouchFresh(db, id, idle, now);
    TouchSessions(db, id, idle, now);
    TouchLogouts(db, id, idle, now);
    TouchStable(db, id, idle, now);
  }

  // ----- Logout transactions -----

  lemma LogoutChangeStable(db: Db, id: Id, after: Logout)
    requires id in db.logouts && LogoutKept(db.logouts[id], after)
    ensures Stable(db, db.(logouts := db.logouts[id := after]))
  {
    hide UsersStable, ClientsStable, GrantsStable, TransactionsStable, CodesStable, FamiliesStable, GenerationsStable;
    hide AccessesStable, SessionsStable;
    StableReflexive(db);
  }

  lemma LogoutChangeFresh(db: Db, id: Id, after: Logout)
    requires FreshOk(db) && id in db.logouts && LogoutKept(db.logouts[id], after)
    ensures FreshOk(db.(logouts := db.logouts[id := after]))
  {
    assert db.logouts[id := after].Keys == db.logouts.Keys;
  }

  lemma LogoutChangeOk(db: Db, id: Id, after: Logout)
    requires LogoutsOk(db.logouts, db.sessions) && id in db.logouts
    requires LogoutOk(after, db.sessions) && after.lookupHash == db.logouts[id].lookupHash
    ensures LogoutsOk(db.logouts[id := after], db.sessions)
  {
    hide LogoutOk;
  }

  /** Replacing a logout row by a legal successor. */
  lemma LogoutChangeKeeps(db: Db, id: Id, after: Logout, now: Time)
    requires Inv(db, now) && id in db.logouts
    requires LogoutOk(after, db.sessions) && LogoutKept(db.logouts[id], after)
    ensures Inv(db.(logouts := db.logouts[id := after]), now)
    ensures Stable(db, db.(logouts := db.logouts[id := after]))
  {
    hide FreshOk, ClientsOk, GrantsOk, CodesOk, TransactionsOk, FamiliesOk, FamilyCodesOk, LiveFamiliesOk,
         GenerationsOk;
    hide ChainsOk, AccessesOk, AccessCodesOk, AccessFamiliesOk, AccessSourcesOk, LiveAccessesOk, SessionsOk, LogoutsOk;
    hide Stable, LogoutOk;
    LogoutChangeFresh(db, id, after);
    LogoutChangeOk(db, id, after);
    LogoutChangeStable(db, id, after);
  }

  lemma LogoutRowOk(db: Db, id: Id, now: Time)
    requires Inv(db, now) && id in db.logouts
    ensures LogoutOk(db.logouts[id], db.sessions)
  {
  }

  lemma StartFresh(db: Db, id: Id, lookupHash: Digest, expiresAt: Time, now: Time)
    requires FreshOk(db)
    ensures FreshOk(Start(db, id, lookupHash, expiresAt, now))
  {
    hide GrantIdsFresh, BindingsFresh, CodeHashesFresh, GenerationHashesFresh, AccessHashesFresh, SessionHashesFresh;
    FreshGrows(db, db.usedIds + {id}, db.usedHashes + {lookupHash});
    assert FreshOk(db.(usedIds := db.usedIds + {id}, usedHashes := db.usedHashes + {lookupHash}));
  }

  lemma StartOk(db: Db, id: Id, lookupHash: Digest, expiresAt: Time, now: Time)
    requires FreshOk(db) && LogoutsOk(db.logouts, db.sessions)
    ensures LogoutsOk(Start(db, id, lookupHash, expiresAt, now).logouts, db.sessions)
  {
    hide BoundToSession;
  }

  lemma StartStable(db: Db, id: Id, lookupHash: Digest, expiresAt: Time, now: Time)
    requires FreshOk(db)
    ensures Stable(db, Start(db, id, lookupHash, expiresAt, now))
  {
    hide UsersStable, ClientsStable, GrantsStable, TransactionsStable, CodesStable, FamiliesStable, GenerationsStable;
    hide AccessesStable, SessionsStable;
    hide GrantIdsFresh, BindingsFresh, CodeHashesFresh, GenerationHashesFresh, AccessHashesFresh;
    hide SessionHashesFresh, LogoutHashesFresh;
    StableReflexive(db);
  }

  lemma StartKeeps(db: Db, id: Id, lookupHash: Digest, expiresAt: Time, now: Time)
    requires Inv(db, now)
    ensures Inv(Start(db, id, lookupHash, expiresAt, now), now) && Stable(db, Start(db, id, lookupHash, expiresAt, now))
  {
    hide FreshOk, ClientsOk, GrantsOk, CodesOk, TransactionsOk, FamiliesOk, FamilyCodesOk, LiveFamiliesOk,
         GenerationsOk;
    hide ChainsOk, AccessesOk, AccessCodesOk, AccessFamiliesOk, AccessSourcesOk, LiveAccessesOk, SessionsOk, LogoutsOk;
    hide Stable;
    StartFresh(db, id, lookupHash, expiresAt, now);
    StartOk(db, id, lookupHash, expiresAt, now);
    StartStable(db, id, lookupHash, expiresAt, now);
  }

  lemma BindKeeps(db: Db, lookupHash: Digest, csrfHash: Digest, p: Principal, maxActive: int, maxAttempts: int,
                  now: Time)
    requires Inv(db, now)
    ensures var after := Bind(db, lookupHash, csrfHash, p, maxActive, maxAttempts, now).0;
      Inv(after, now) && Stable(db, after)
  {
    hide Inv, Stable, LiveBoundOf;
    StableReflexive(db);
    var found := FindLogout(db.logouts, lookupHash);
    var result := Bind(db, lookupHash, csrfHash, p, maxActive, maxAttempts, now);
    if result.1 == BoundNow || result.1 == ProofRotated {
      LogoutRowOk(db, found.value, now);
      LogoutChangeKeeps(db, found.value, result.0.logouts[found.value], now);
    }
  }

  lemma CompleteKeeps(db: Db, lookupHash: Digest, csrfHash: Digest, decision: Decision, p: Principal, maxAttempts: int,
                      now: Time)
    requires Inv(db, now)
    ensures var after := Complete(db, lookupHash, csrfHash, decision, p, maxAttempts, now).0;
      Inv(after, now) && Stable(db, after)
  {
    hide Inv, Stable, RevokeFamilies, RevokeAccesses, RevokeSessions;
    StableReflexive(db);
    var found := FindLogout(db.logouts, lookupHash);
    var result := Complete(db, lookupHash, csrfHash, decision, p, maxAttempts, now);
    if result.1 != CompleteNotFound {
      LogoutRowOk(db, found.value, now);
      LogoutChangeKeeps(db, found.value, result.0.logouts[found.value], now);
      var moved := db.(logouts := result.0.logouts);
      if result.1 == LogoutConfirmed {
        CloseSessionsKeeps(moved, {p.session}, now);
        StableTransitive(db, moved, result.0, now);
      }
    }
  }
}
