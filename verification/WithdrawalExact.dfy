/**
 Every operation that withdraws authority, exactly: when it does anything, the row it writes, and which
 families, access rows and sessions it ends, each named by what its row says.
 */
module WithdrawalExact {
  import opened Schema
  import opened Revocation
  import opened Sessions
  import opened Accounts
  import opened Invariants

  // ----- What ends -----

  /** Exactly the unrevoked ones among these families end at `now`; all other rows are as they were. */
  ghost predicate FamiliesEnd(before: map<Id, Family>, after: map<Id, Family>, ended: set<Id>, now: Time) {
    && after.Keys == before.Keys
    && forall f :: f in before ==>
         after[f] == if f in ended && before[f].revokedAt.None? then before[f].(revokedAt := Some(now)) else before[f]
  }

  /** Exactly the unrevoked and unexpired ones among these access rows end at `now`. */
  ghost predicate AccessesEnd(before: map<Id, Access>, after: map<Id, Access>, ended: set<Id>, now: Time) {
    && after.Keys == before.Keys
    && forall a :: a in before ==>
         after[a] == if a in ended && before[a].revokedAt.None? && now < before[a].expiresAt
                     then before[a].(revokedAt := Some(now)) else before[a]
  }

  ghost predicate SessionsEnd(before: map<Id, Session>, after: map<Id, Session>, ended: set<Id>, now: Time) {
    && after.Keys == before.Keys
    && forall s :: s in before ==>
         after[s] == if s in ended && before[s].revokedAt.None? then before[s].(revokedAt := Some(now)) else before[s]
  }

  /** Nothing but accounts, grants and what ends may differ. */
  ghost predicate NothingElse(db: Db, after: Db) {
    && after.transactions == db.transactions && after.codes == db.codes && after.generations == db.generations
    && after.logouts == db.logouts && after.usedIds == db.usedIds && after.usedHashes == db.usedHashes
  }

  ghost predicate Ends(db: Db, after: Db, families: set<Id>, accesses: set<Id>, sessions: set<Id>, now: Time) {
    && FamiliesEnd(db.families, after.families, families, now)
    && AccessesEnd(db.accesses, after.accesses, accesses, now)
    && SessionsEnd(db.sessions, after.sessions, sessions, now)
    && NothingElse(db, after)
  }

  lemma CascadeEnds(db: Db, s: Selector, families: set<Id>, accesses: set<Id>, now: Time)
    requires forall f :: f in db.families ==> (f in families <==> SelectsFamily(s, f, db.families[f]))
    requires forall a :: a in db.accesses ==> (a in accesses <==> SelectsAccess(s, db.accesses[a]))
    ensures FamiliesEnd(db.families, RevokeFamilies(db.families, s, now), families, now)
    ensures AccessesEnd(db.accesses, RevokeAccesses(db.accesses, s, now), accesses, now)
  {
    hide SelectsFamily, SelectsAccess;
  }

  lemma NothingEnds(db: Db, now: Time)
    ensures FamiliesEnd(db.families, db.families, {}, now) && AccessesEnd(db.accesses, db.accesses, {}, now)
    ensures SessionsEnd(db.sessions, db.sessions, {}, now)
  {
  }

  // ----- Grants -----

  /** RevokeCurrentUserGrant. */
  lemma RevokeGrantExact(db: Db, user: Id, client: Id, now: Time)
    ensures var after := RevokeGrant(db, user, client, now);
      var key := GrantKey(user, client);
      if user in db.users && client in db.clients && key in db.grants && db.grants[key].revokedAt.None? then
        var g := db.grants[key];
        && after.users == db.users && after.clients == db.clients
        && after.grants == db.grants[key := Grant(g.id, g.scopes, g.createdAt, now, Some(now), g.version + 1)]
        && Ends(db, after, (set f | f in db.families && db.families[f].grant == g.id),
                (set a | a in db.accesses && db.accesses[a].grant == g.id), {}, now)
      else after == db
  {
    hide FamiliesEnd, AccessesEnd, SessionsEnd, RevokeFamilies, RevokeAccesses;
    var key := GrantKey(user, client);
    if key in db.grants {
      var g := db.grants[key].id;
      CascadeEnds(db, OfGrant(g), (set f | f in db.families && db.families[f].grant == g),
                  (set a | a in db.accesses && db.accesses[a].grant == g), now);
      NothingEnds(db, now);
    }
  }

  // ----- Clients -----

  ghost function ClientFamilies(db: Db, id: Id, u: ClientUpdate): set<Id>
    requires id in db.clients
  {
    set f | f in db.families && db.families[f].client == id &&
            (u.status == Disabled || (OfflineAccess in db.clients[id].scopes && OfflineAccess !in u.scopes))
  }

  ghost function ClientAccesses(db: Db, id: Id, u: ClientUpdate): set<Id>
    requires id in db.clients
  {
    set a | a in db.accesses && db.accesses[a].client == id &&
            (u.status == Disabled ||
             (OfflineAccess in db.clients[id].scopes && OfflineAccess !in u.scopes && db.accesses[a].family.Some?))
  }

  /**
   UpdateClient: the row carries the requested status, redirect addresses and scopes. Disabling ends all the
   client's authority, giving up offline_access ends the offline part of it, anything else ends nothing.
   */
  lemma UpdateClientExact(db: Db, id: Id, u: ClientUpdate, now: Time)
    ensures var after := UpdateClient(db, id, u, now);
      if id in db.clients && OpenId in u.scopes && db.clients[id].version == u.expectedVersion then
        var c := db.clients[id];
        && after.clients ==
           db.clients[id := Client(c.publicId, c.kind, c.authMethod, u.status, u.redirectUris, u.scopes, c.version + 1)]
        && after.users == db.users && after.grants == db.grants
        && Ends(db, after, ClientFamilies(db, id, u), ClientAccesses(db, id, u), {}, now)
      else after == db
  {
    hide FamiliesEnd, AccessesEnd, SessionsEnd, RevokeFamilies, RevokeAccesses;
    if id in db.clients {
      var selector := UpdateSelector(id, db.clients[id], u);
      NothingEnds(db, now);
      if selector.Some? {
        CascadeEnds(db, selector.value, ClientFamilies(db, id, u), ClientAccesses(db, id, u), now);
      } else {
        assert ClientFamilies(db, id, u) == {} && ClientAccesses(db, id, u) == {};
      }
    }
  }

  // ----- Users and sessions -----

  /** An unrevoked session of this user that is not spared is on the binding. */
  ghost predicate Open(sessions: map<Id, Session>, user: Id, spared: set<Id>, b: Id) {
    exists s :: s in sessions && sessions[s].user == user && sessions[s].revokedAt.None? && s !in spared &&
                sessions[s].binding == b
  }

  lemma SessionsRevoked(sessions: map<Id, Session>, ids: set<Id>, ended: set<Id>, now: Time)
    requires forall s :: s in sessions && sessions[s].revokedAt.None? ==> (s in ids <==> s in ended)
    ensures SessionsEnd(sessions, RevokeSessions(sessions, ids, now), ended, now)
  {
  }

  /** Closing sessions: they end, and with them what is recorded under their bindings. */
  lemma CloseSessionsEnds(db: Db, ids: set<Id>, families: set<Id>, accesses: set<Id>, ended: set<Id>, now: Time)
    requires var bindings := BindingsOf(db.sessions, ids);
      && (forall f :: f in db.families ==> (f in families <==> db.families[f].binding in bindings))
      && (forall a :: a in db.accesses ==>
            (a in accesses <==> db.accesses[a].binding.Some? && db.accesses[a].binding.value in bindings))
    requires forall s :: s in db.sessions && db.sessions[s].revokedAt.None? ==> (s in ids <==> s in ended)
    ensures var after := CloseSessions(db, ids, now);
      && after.clients == db.clients && Ends(db, after, families, accesses, ended, now)
  {
    hide FamiliesEnd, AccessesEnd, SessionsEnd, RevokeFamilies, RevokeAccesses, RevokeSessions, BindingsOf;
    CascadeEnds(db, OnBindings(BindingsOf(db.sessions, ids)), families, accesses, now);
    SessionsRevoked(db.sessions, ids, ended, now);
  }

  lemma BindingsOfOpen(sessions: map<Id, Session>, user: Id, spared: set<Id>)
    ensures forall b :: b in BindingsOf(sessions, ActiveSessionsOf(sessions, user) - spared) <==>
                        Open(sessions, user, spared, b)
  {
    forall b | Open(sessions, user, spared, b)
      ensures b in BindingsOf(sessions, ActiveSessionsOf(sessions, user) - spared)
    {
      var s :| s in sessions && sessions[s].user == user && sessions[s].revokedAt.None? && s !in spared &&
               sessions[s].binding == b;
      assert s in ActiveSessionsOf(sessions, user) - spared;
    }
  }

  /** The families and access rows recorded under the open bindings of a user's unspared sessions. */
  ghost function FamiliesUnder(db: Db, user: Id, spared: set<Id>): set<Id> {
    set f | f in db.families && Open(db.sessions, user, spared, db.families[f].binding)
  }

  ghost function AccessesUnder(db: Db, user: Id, spared: set<Id>): set<Id> {
    set a | a in db.accesses && db.accesses[a].binding.Some? &&
            Open(db.sessions, user, spared, db.accesses[a].binding.value)
  }

  ghost function SessionsOf(db: Db, user: Id, spared: set<Id>): set<Id> {
    set s | s in db.sessions && db.sessions[s].user == user && s !in spared
  }

  lemma CloseOpenEnds(db: Db, user: Id, spared: set<Id>, now: Time)
    ensures var after := CloseSessions(db, ActiveSessionsOf(db.sessions, user) - spared, now);
      && after.clients == db.clients
      && Ends(db, after, FamiliesUnder(db, user, spared), AccessesUnder(db, user, spared), SessionsOf(db, user, spared),
              now)
  {
    hide Open, Ends, CloseSessions, BindingsOf;
    BindingsOfOpen(db.sessions, user, spared);
    CloseSessionsEnds(db, ActiveSessionsOf(db.sessions, user) - spared, FamiliesUnder(db, user, spared),
                      AccessesUnder(db, user, spared), SessionsOf(db, user, spared), now);
  }

  /** RevokeUserSession and RevokeManagedSession: the one session, if it is unrevoked and the owner's. */
  lemma RevokeSessionExact(db: Db, id: Id, owner: Option<Id>, now: Time)
    ensures var after := RevokeSession(db, id, owner, now);
      if id in db.sessions && db.sessions[id].revokedAt.None? && (owner.Some? ==> db.sessions[id].user == owner.value)
      then
        && after.users == db.users && after.clients == db.clients && after.grants == db.grants
        && Ends(db, after, (set f | f in db.families && db.families[f].binding == db.sessions[id].binding),
                (set a | a in db.accesses && db.accesses[a].binding == Some(db.sessions[id].binding)), {id}, now)
      else after == db
  {
    hide CloseSessions, Ends;
    if id in db.sessions {
      assert BindingsOf(db.sessions, {id}) == {db.sessions[id].binding};
      CloseSessionsEnds(db, {id}, (set f | f in db.families && db.families[f].binding == db.sessions[id].binding),
                        (set a | a in db.accesses && db.accesses[a].binding == Some(db.sessions[id].binding)), {id},
                        now);
    }
  }

  /** RevokeSessionByHash. */
  lemma RevokeByHashExact(db: Db, hash: Digest, id: Id, now: Time)
    requires Inv(db, now) && id in db.sessions && db.sessions[id].tokenHash == hash
    ensures RevokeSessionByHash(db, hash, now) == RevokeSession(db, id, None, now)
  {
    hide RevokeSession, Inv;
    OneSessionPerHash(db, id, hash, now);
  }

  lemma OneSessionPerHash(db: Db, id: Id, hash: Digest, now: Time)
    requires Inv(db, now) && id in db.sessions && db.sessions[id].tokenHash == hash
    ensures FindSession(db.sessions, hash) == Some(id)
  {
    hide FreshOk, ClientsOk, GrantsOk, CodesOk, TransactionsOk, FamiliesOk, FamilyCodesOk, LiveFamiliesOk;
    hide GenerationsOk, ChainsOk, AccessesOk, AccessCodesOk, AccessFamiliesOk, AccessSourcesOk, LiveAccessesOk;
    hide LogoutsOk;
  }

  /** RevokeOtherUserSessions. */
  lemma RevokeOthersExact(db: Db, user: Id, current: Id, now: Time)
    ensures var after := RevokeOthers(db, user, current, now);
      && after.users == db.users && after.clients == db.clients && after.grants == db.grants
      && Ends(db, after, FamiliesUnder(db, user, {current}), AccessesUnder(db, user, {current}),
              SessionsOf(db, user, {current}), now)
  {
    hide Ends, CloseSessions, FamiliesUnder, AccessesUnder, SessionsOf;
    CloseOpenEnds(db, user, {current}, now);
  }

  /** RevokeAllManagedUserSessions. */
  lemma RevokeAllExact(db: Db, user: Id, now: Time)
    ensures var after := RevokeAll(db, user, now);
      if user in db.users then
        && after.users == db.users && after.clients == db.clients && after.grants == db.grants
        && Ends(db, after, FamiliesUnder(db, user, {}), AccessesUnder(db, user, {}), SessionsOf(db, user, {}), now)
      else after == db
  {
    hide Ends, CloseSessions, FamiliesUnder, AccessesUnder, SessionsOf;
    assert ActiveSessionsOf(db.sessions, user) - {} == ActiveSessionsOf(db.sessions, user);
    CloseOpenEnds(db, user, {}, now);
  }

  predicate ActiveAdmin(u: User) {
    u.role == Admin && u.status == Active
  }

  /** The only active administrator would stop being one. */
  ghost predicate LosesLastAdmin(users: map<Id, User>, id: Id, u: UserUpdate)
    requires id in users
  {
    && ActiveAdmin(users[id]) && !(u.role == Admin && u.status == Active)
    && forall o :: o in users && ActiveAdmin(users[o]) ==> o == id
  }

  lemma LastAdminExact(db: Db, id: Id, u: UserUpdate)
    requires id in db.users
    ensures LastAdminBlocks(db, id, u) <==> LosesLastAdmin(db.users, id, u)
  {
    var admins := ActiveAdmins(db.users);
    assert forall o :: o in admins <==> o in db.users && ActiveAdmin(db.users[o]);
    if id in admins {
      var others := admins - {id};
      assert |admins| == |others| + 1;
      if others != {} {
        var o :| o in others;
        assert o in db.users && ActiveAdmin(db.users[o]) && o != id;
      }
    }
  }

  /** What disabling takes from a user. */
  ghost function FamiliesOfDisabled(db: Db, id: Id, u: UserUpdate): set<Id> {
    set f | f in db.families && u.status == Disabled && db.families[f].user == id
  }

  ghost function AccessesOfDisabled(db: Db, id: Id, u: UserUpdate): set<Id> {
    set a | a in db.accesses && u.status == Disabled && db.accesses[a].user == id
  }

  ghost function UserFamilies(db: Db, id: Id, u: UserUpdate): set<Id> {
    FamiliesOfDisabled(db, id, u) + (if u.revokeSessions then FamiliesUnder(db, id, {}) else {})
  }

  ghost function UserAccesses(db: Db, id: Id, u: UserUpdate): set<Id> {
    AccessesOfDisabled(db, id, u) + (if u.revokeSessions then AccessesUnder(db, id, {}) else {})
  }

  /**
   UpdateManagedUser: the row carries the requested status and role. Disabling ends all the user's authority;
   revoking the sessions ends them and what is recorded under their bindings.
   */
  lemma UpdateUserExact(db: Db, id: Id, u: UserUpdate, now: Time)
    ensures var after := UpdateUser(db, id, u, now);
      if id in db.users && !LosesLastAdmin(db.users, id, u) && db.users[id].version == u.expectedVersion then
        && after.users == db.users[id := User(db.users[id].subject, u.status, u.role, db.users[id].version + 1)]
        && after.clients == db.clients && after.grants == db.grants
        && Ends(db, after, UserFamilies(db, id, u), UserAccesses(db, id, u),
                if u.revokeSessions then SessionsOf(db, id, {}) else {}, now)
      else after == db
  {
    hide Withdrawn, LosesLastAdmin, LastAdminBlocks, FamiliesEnd, AccessesEnd, SessionsEnd, UserFamilies, UserAccesses;
    hide SessionsOf;
    if id in db.users {
      LastAdminExact(db, id, u);
      WithdrawnEnds(db, id, u, now);
    }
  }

  lemma EndTwice(before: Db, mid: Db, after: Db, f: set<Id>, g: set<Id>, a: set<Id>, b: set<Id>, now: Time)
    requires FamiliesEnd(before.families, mid.families, f, now) && FamiliesEnd(mid.families, after.families, g, now)
    requires AccessesEnd(before.accesses, mid.accesses, a, now) && AccessesEnd(mid.accesses, after.accesses, b, now)
    ensures FamiliesEnd(before.families, after.families, f + g, now)
    ensures AccessesEnd(before.accesses, after.accesses, a + b, now)
  {
  }

  lemma SameUnder(db: Db, mid: Db, user: Id, f: set<Id>, a: set<Id>, now: Time)
    requires mid.sessions == db.sessions
    requires FamiliesEnd(db.families, mid.families, f, now) && AccessesEnd(db.accesses, mid.accesses, a, now)
    ensures FamiliesUnder(mid, user, {}) == FamiliesUnder(db, user, {})
    ensures AccessesUnder(mid, user, {}) == AccessesUnder(db, user, {})
  {
    hide Open;
  }

  lemma DisablingEnds(db: Db, id: Id, u: UserUpdate, now: Time)
    ensures var mid := CascadeIf(db, if u.status == Disabled then Some(OfUser(id)) else None, now);
      && mid.clients == db.clients
      && Ends(db, mid, FamiliesOfDisabled(db, id, u), AccessesOfDisabled(db, id, u), {}, now)
  {
    hide FamiliesEnd, AccessesEnd, SessionsEnd, RevokeFamilies, RevokeAccesses;
    NothingEnds(db, now);
    if u.status == Disabled {
      CascadeEnds(db, OfUser(id), FamiliesOfDisabled(db, id, u), AccessesOfDisabled(db, id, u), now);
    } else {
      assert FamiliesOfDisabled(db, id, u) == {} && AccessesOfDisabled(db, id, u) == {};
    }
  }

  lemma WithdrawnEnds(db: Db, id: Id, u: UserUpdate, now: Time)
    ensures var after := Withdrawn(db, id, u, now);
      && after.clients == db.clients
      && Ends(db, after, UserFamilies(db, id, u), UserAccesses(db, id, u),
              if u.revokeSessions then SessionsOf(db, id, {}) else {}, now)
  {
    hide CloseSessions, CascadeIf, FamiliesEnd, AccessesEnd, SessionsEnd, FamiliesUnder, AccessesUnder, SessionsOf;
    hide ActiveSessionsOf, FamiliesOfDisabled, AccessesOfDisabled;
    var mid := CascadeIf(db, if u.status == Disabled then Some(OfUser(id)) else None, now);
    var (f, a) := (FamiliesOfDisabled(db, id, u), AccessesOfDisabled(db, id, u));
    DisablingEnds(db, id, u, now);
    if u.revokeSessions {
      assert ActiveSessionsOf(db.sessions, id) - {} == ActiveSessionsOf(db.sessions, id);
      CloseOpenEnds(mid, id, {}, now);
      SameUnder(db, mid, id, f, a, now);
      EndTwice(db, mid, Withdrawn(db, id, u, now), f, FamiliesUnder(db, id, {}), a, AccessesUnder(db, id, {}), now);
      assert SessionsOf(mid, id, {}) == SessionsOf(db, id, {}) by { SameSessions(db, mid, id); }
    } else {
      assert f + {} == f && a + {} == a;
    }
  }

  lemma SameSessions(db: Db, mid: Db, id: Id)
    requires mid.sessions == db.sessions
    ensures SessionsOf(mid, id, {}) == SessionsOf(db, id, {})
  {
  }
}
