/**
 Cascades and the operations that withdraw authority keep the invariant. The heart is that a
 selector naming a family also names every access row of that family.
 */
module WithdrawalProofs {
  import opened Schema
  import opened Revocation
  import opened Accounts
  import opened Invariants

  // ----- Cascade -----

  /** A selector that names a family names its access rows too. */
  lemma SelectorCoversAccesses(s: Selector, id: Id, families: map<Id, Family>, a: Access)
    requires id in families && SelectsFamily(s, id, families[id])
    requires a.family == Some(id) && OfItsFamily(a, families)
    ensures SelectsAccess(s, a)
  {
  }

  lemma CascadeFamilies(db: Db, s: Selector, now: Time)
    requires FamiliesOk(db.families, db.grants, now)
    ensures FamiliesOk(RevokeFamilies(db.families, s, now), db.grants, now)
  {
    hide SelectsFamily;
  }

  lemma CascadeFamilyCodes(db: Db, s: Selector, now: Time)
    requires FamilyCodesOk(db.families, db.codes)
    ensures FamilyCodesOk(RevokeFamilies(db.families, s, now), db.codes)
  {
    hide SelectsFamily;
    var after := RevokeFamilies(db.families, s, now);
    assert forall f :: f in after ==> after[f].originCode == db.families[f].originCode;
  }

  lemma CascadeLiveFamilies(db: Db, s: Selector, now: Time)
    requires LiveFamiliesOk(db.families, db.users, db.clients, db.grants)
    ensures LiveFamiliesOk(RevokeFamilies(db.families, s, now), db.users, db.clients, db.grants)
  {
    hide SelectsFamily;
  }

  lemma CascadeGenerations(db: Db, s: Selector, now: Time)
    requires GenerationsOk(db.generations, db.families, now) && ChainsOk(db.families, db.generations, now)
    ensures var after := RevokeFamilies(db.families, s, now);
      GenerationsOk(db.generations, after, now) && ChainsOk(after, db.generations, now)
  {
    hide SelectsFamily, SelectsAccess;
    var after := RevokeFamilies(db.families, s, now);
    forall g | g in db.generations
      ensures GenerationOk(db.generations[g], after, now)
    {
      assert GenerationOk(db.generations[g], db.families, now);
    }
  }

  lemma CascadeAccesses(db: Db, s: Selector, now: Time)
    requires AccessesOk(db.accesses, db.grants, now)
    ensures AccessesOk(RevokeAccesses(db.accesses, s, now), db.grants, now)
  {
    hide SelectsFamily, SelectsAccess;
    var after := RevokeAccesses(db.accesses, s, now);
    forall a | a in after
      ensures AccessOk(after[a], db.grants, now)
    {
      assert AccessOk(db.accesses[a], db.grants, now);
    }
  }

  lemma CascadeAccessCodes(db: Db, s: Selector, now: Time)
    requires AccessCodesOk(db.accesses, db.codes)
    ensures AccessCodesOk(RevokeAccesses(db.accesses, s, now), db.codes)
  {
    hide SelectsFamily, SelectsAccess;
    var after := RevokeAccesses(db.accesses, s, now);
    assert forall a :: a in after ==> after[a].code == db.accesses[a].code;
  }

  lemma CascadeAccessSources(db: Db, s: Selector, now: Time)
    requires AccessSourcesOk(db.accesses, db.generations)
    ensures AccessSourcesOk(RevokeAccesses(db.accesses, s, now), db.generations)
  {
    hide SelectsFamily, SelectsAccess;
    var after := RevokeAccesses(db.accesses, s, now);
    assert forall a :: a in after ==> after[a].sourceGeneration == db.accesses[a].sourceGeneration;
  }

  lemma CascadeLiveAccesses(db: Db, s: Selector, now: Time)
    requires LiveAccessesOk(db.accesses, db.users, db.clients, db.grants, now)
    ensures LiveAccessesOk(RevokeAccesses(db.accesses, s, now), db.users, db.clients, db.grants, now)
  {
    hide SelectsFamily, SelectsAccess;
  }

  lemma CascadeReachesAccesses(db: Db, s: Selector, now: Time)
    requires AccessFamiliesOk(db.accesses, db.families)
    ensures AccessFamiliesOk(RevokeAccesses(db.accesses, s, now), RevokeFamilies(db.families, s, now))
  {
    var families := RevokeFamilies(db.families, s, now);
    var accesses := RevokeAccesses(db.accesses, s, now);
    forall a | a in accesses
      ensures OfItsFamily(accesses[a], families)
    {
      var row := db.accesses[a];
      assert OfItsFamily(row, db.families);
      if row.family.Some? && SelectsFamily(s, row.family.value, db.families[row.family.value]) {
        SelectorCoversAccesses(s, row.family.value, db.families, row);
      }
    }
  }

  lemma CascadeStable(db: Db, s: Selector, now: Time)
    ensures Stable(db, Cascade(db, s, now))
  {
    hide UsersStable, ClientsStable, GrantsStable, TransactionsStable, CodesStable, GenerationsStable;
    hide SessionsStable, LogoutsStable, SelectsFamily, SelectsAccess;
    StableReflexive(db);
  }

  lemma CascadeFresh(db: Db, s: Selector, now: Time)
    requires FreshOk(db)
    ensures FreshOk(Cascade(db, s, now))
  {
    var after := Cascade(db, s, now);
    assert after.families.Keys == db.families.Keys;
    assert after.accesses.Keys == db.accesses.Keys;
  }

  lemma CascadeKeeps(db: Db, s: Selector, now: Time)
    requires Inv(db, now)
    ensures Inv(Cascade(db, s, now), now) && Stable(db, Cascade(db, s, now))
  {
    CascadeFresh(db, s, now);
    CascadeFamilies(db, s, now);
    CascadeFamilyCodes(db, s, now);
    CascadeLiveFamilies(db, s, now);
    CascadeGenerations(db, s, now);
    CascadeAccesses(db, s, now);
    CascadeAccessCodes(db, s, now);
    CascadeAccessSources(db, s, now);
    CascadeLiveAccesses(db, s, now);
    CascadeReachesAccesses(db, s, now);
    CascadeStable(db, s, now);
  }

  /** A cascade leaves nothing alive that its selector names. */
  lemma CascadeEmpties(db: Db, s: Selector, now: Time)
    ensures Emptied(Cascade(db, s, now), s, now)
  {
    var after := Cascade(db, s, now);
    assert forall f :: f in after.families && SelectsFamily(s, f, after.families[f]) ==>
        SelectsFamily(s, f, db.families[f]);
  }

  // ----- Changing one grant row -----

  /** A new version of a grant row is safe when it only grows, or when nothing lives on it. */
  ghost predicate GrantChangeSafe(db: Db, key: GrantKey, after: Grant, now: Time) {
    && key in db.grants
    && var before := db.grants[key];
       && after.id == before.id && after.version > before.version && OpenId in after.scopes
       && (|| Emptied(db, OfGrant(before.id), now)
           || (before.revokedAt.None? && after.revokedAt.None? && before.scopes <= after.scopes))
  }

  lemma GrantChangeFences(db: Db, key: GrantKey, after: Grant, now: Time)
    requires GrantChangeSafe(db, key, after, now)
    requires GrantsOk(db.grants, db.users, db.clients) && CodesOk(db.codes, db.grants, now)
    ensures GrantsOk(db.grants[key := after], db.users, db.clients) && CodesOk(db.codes, db.grants[key := after], now)
  {
    forall c | c in db.codes
      ensures Fenced(db.codes[c], db.grants[key := after])
    {
      assert Fenced(db.codes[c], db.grants);
    }
  }

  lemma GrantChangeFamilies(db: Db, key: GrantKey, after: Grant, now: Time)
    requires GrantChangeSafe(db, key, after, now)
    requires FamiliesOk(db.families, db.grants, now)
    requires LiveFamiliesOk(db.families, db.users, db.clients, db.grants)
    ensures FamiliesOk(db.families, db.grants[key := after], now)
    ensures LiveFamiliesOk(db.families, db.users, db.clients, db.grants[key := after])
  {
    forall f | f in db.families
      ensures FamilyOk(db.families[f], db.grants[key := after], now)
    {
      assert FamilyOk(db.families[f], db.grants, now);
    }
    forall f | f in db.families && db.families[f].revokedAt.None?
      ensures FamilyAlive(db.families[f], db.users, db.clients, db.grants[key := after])
    {
      assert FamilyAlive(db.families[f], db.users, db.clients, db.grants);
    }
  }

  lemma GrantChangeAccesses(db: Db, key: GrantKey, after: Grant, now: Time)
    requires GrantChangeSafe(db, key, after, now)
    requires AccessesOk(db.accesses, db.grants, now)
    requires LiveAccessesOk(db.accesses, db.users, db.clients, db.grants, now)
    ensures AccessesOk(db.accesses, db.grants[key := after], now)
    ensures LiveAccessesOk(db.accesses, db.users, db.clients, db.grants[key := after], now)
  {
    forall a | a in db.accesses
      ensures AccessOk(db.accesses[a], db.grants[key := after], now)
    {
      assert AccessOk(db.accesses[a], db.grants, now);
    }
    forall a | a in db.accesses && db.accesses[a].revokedAt.None? && db.accesses[a].expiresAt > now
      ensures AccessAlive(db.accesses[a], db.users, db.clients, db.grants[key := after])
    {
      assert AccessAlive(db.accesses[a], db.users, db.clients, db.grants);
    }
  }

  lemma GrantChangeKeeps(db: Db, key: GrantKey, after: Grant, now: Time)
    requires Inv(db, now) && GrantChangeSafe(db, key, after, now)
    ensures Inv(db.(grants := db.grants[key := after]), now)
    ensures Stable(db, db.(grants := db.grants[key := after]))
  {
    hide ClientsOk, GrantsOk, CodesOk, TransactionsOk, FamiliesOk, FamilyCodesOk, LiveFamiliesOk, GenerationsOk,
         ChainsOk;
    hide AccessesOk, AccessCodesOk, AccessFamiliesOk, AccessSourcesOk, LiveAccessesOk, SessionsOk, LogoutsOk;
    GrantChangeFences(db, key, after, now);
    GrantChangeFamilies(db, key, after, now);
    GrantChangeAccesses(db, key, after, now);
  }

  /** Nothing lives on a revoked grant. */
  lemma RevokedGrantIsEmpty(db: Db, key: GrantKey, now: Time)
    requires Inv(db, now) && key in db.grants && db.grants[key].revokedAt.Some?
    ensures Emptied(db, OfGrant(db.grants[key].id), now)
  {
    hide FreshOk, ClientsOk, CodesOk, TransactionsOk, FamilyCodesOk, GenerationsOk, ChainsOk;
    hide AccessCodesOk, AccessFamiliesOk, AccessSourcesOk, SessionsOk, LogoutsOk;
    var grant := db.grants[key];
    forall f | f in db.families && db.families[f].grant == grant.id
      ensures db.families[f].revokedAt.Some?
    {
      assert FamilyOk(db.families[f], db.grants, now);
      assert GrantKey(db.families[f].user, db.families[f].client) == key;
    }
    forall a | a in db.accesses && db.accesses[a].grant == grant.id
      ensures db.accesses[a].revokedAt.Some? || db.accesses[a].expiresAt <= now
    {
      assert AccessOk(db.accesses[a], db.grants, now);
      assert GrantKey(db.accesses[a].user, db.accesses[a].client) == key;
    }
  }

  lemma GrantScopes(db: Db, key: GrantKey, now: Time)
    requires Inv(db, now) && key in db.grants
    ensures OpenId in db.grants[key].scopes
  {
  }

  lemma RevokeGrantKeeps(db: Db, user: Id, client: Id, now: Time)
    requires Inv(db, now)
    ensures Inv(RevokeGrant(db, user, client, now), now) && Stable(db, RevokeGrant(db, user, client, now))
  {
    hide Inv, Stable, RevokeFamilies, RevokeAccesses;
    var key := GrantKey(user, client);
    if user in db.users && client in db.clients && key in db.grants && db.grants[key].revokedAt.None? {
      GrantScopes(db, key, now);
      var grant := db.grants[key];
      var mid := Cascade(db, OfGrant(grant.id), now);
      CascadeKeeps(db, OfGrant(grant.id), now);
      CascadeEmpties(db, OfGrant(grant.id), now);
      GrantChangeKeeps(mid, key, grant.(revokedAt := Some(now), updatedAt := now, version := grant.version + 1), now);
      StableTransitive(db, mid, RevokeGrant(db, user, client, now), now);
    } else {
      StableReflexive(db);
    }
  }

  // ----- Changing one client row -----

  ghost predicate ClientChangeSafe(db: Db, id: Id, after: Client, now: Time) {
    && id in db.clients
    && var before := db.clients[id];
       && after == before.(status := after.status, redirectUris := after.redirectUris, scopes := after.scopes,
                           version := before.version + 1)
       && OpenId in after.scopes
       && (after.status == Disabled ==> Emptied(db, OfClient(id), now))
       && (OfflineAccess !in after.scopes ==>
             forall f :: f in db.families && db.families[f].client == id ==> db.families[f].revokedAt.Some?)
  }

  lemma ClientChangeAlive(db: Db, id: Id, after: Client, now: Time)
    requires ClientChangeSafe(db, id, after, now)
    requires LiveFamiliesOk(db.families, db.users, db.clients, db.grants)
    requires LiveAccessesOk(db.accesses, db.users, db.clients, db.grants, now)
    ensures LiveFamiliesOk(db.families, db.users, db.clients[id := after], db.grants)
    ensures LiveAccessesOk(db.accesses, db.users, db.clients[id := after], db.grants, now)
  {
    forall f | f in db.families && db.families[f].revokedAt.None?
      ensures FamilyAlive(db.families[f], db.users, db.clients[id := after], db.grants)
    {
      assert FamilyAlive(db.families[f], db.users, db.clients, db.grants);
      assert SelectsFamily(OfClient(id), f, db.families[f]) <==> db.families[f].client == id;
    }
    forall a | a in db.accesses && db.accesses[a].revokedAt.None? && db.accesses[a].expiresAt > now
      ensures AccessAlive(db.accesses[a], db.users, db.clients[id := after], db.grants)
    {
      assert AccessAlive(db.accesses[a], db.users, db.clients, db.grants);
      assert SelectsAccess(OfClient(id), db.accesses[a]) <==> db.accesses[a].client == id;
    }
  }

  lemma ClientChangeFresh(db: Db, id: Id, after: Client)
    requires FreshOk(db) && id in db.clients
    ensures FreshOk(db.(clients := db.clients[id := after]))
  {
    assert db.clients[id := after].Keys == db.clients.Keys;
  }

  lemma ClientChangeKeeps(db: Db, id: Id, after: Client, now: Time)
    requires Inv(db, now) && ClientChangeSafe(db, id, after, now)
    ensures Inv(db.(clients := db.clients[id := after]), now)
    ensures Stable(db, db.(clients := db.clients[id := after]))
  {
    hide CodesOk, TransactionsOk, FamiliesOk, FamilyCodesOk, LiveFamiliesOk, GenerationsOk, ChainsOk;
    hide AccessesOk, AccessCodesOk, AccessFamiliesOk, AccessSourcesOk, LiveAccessesOk, SessionsOk, LogoutsOk;
    ClientChangeAlive(db, id, after, now);
    ClientChangeFresh(db, id, after);
  }

  /** Without offline_access on the client, none of its families is unrevoked. */
  lemma OnlineClientHasNoFamilies(db: Db, id: Id)
    requires LiveFamiliesOk(db.families, db.users, db.clients, db.grants)
    requires id in db.clients && OfflineAccess !in db.clients[id].scopes
    ensures forall f :: f in db.families && db.families[f].client == id ==> db.families[f].revokedAt.Some?
  {
  }

  /** After the cascade an update needs, the new client row is safe. */
  lemma UpdateSelectorSuffices(db: Db, id: Id, u: ClientUpdate, now: Time)
    requires LiveFamiliesOk(db.families, db.users, db.clients, db.grants)
    requires id in db.clients && OpenId in u.scopes
    ensures
      var current := db.clients[id];
      var selector := UpdateSelector(id, current, u);
      var mid := if selector.Some? then Cascade(db, selector.value, now) else db;
      ClientChangeSafe(mid, id, Updated(current, u), now)
  {
    var selector := UpdateSelector(id, db.clients[id], u);
    if selector.Some? {
      CascadeEmpties(db, selector.value, now);
      var mid := Cascade(db, selector.value, now);
      assert forall f :: f in mid.families && mid.families[f].client == id ==>
          SelectsFamily(selector.value, f, mid.families[f]);
    } else if OfflineAccess !in u.scopes {
      OnlineClientHasNoFamilies(db, id);
    }
  }

  lemma FamiliesAreAlive(db: Db, now: Time)
    requires Inv(db, now)
    ensures LiveFamiliesOk(db.families, db.users, db.clients, db.grants)
  {
  }

  lemma UpdateClientKeeps(db: Db, id: Id, u: ClientUpdate, now: Time)
    requires Inv(db, now)
    ensures Inv(UpdateClient(db, id, u, now), now) && Stable(db, UpdateClient(db, id, u, now))
  {
    hide Inv, Stable, ClientChangeSafe, LiveFamiliesOk, RevokeFamilies, RevokeAccesses, Cascade;
    hide UpdateSelector, Updated;
    if id !in db.clients || OpenId !in u.scopes || db.clients[id].version != u.expectedVersion {
      StableReflexive(db);
    } else {
      FamiliesAreAlive(db, now);
      UpdateSelectorSuffices(db, id, u, now);
      var current := db.clients[id];
      var selector := UpdateSelector(id, current, u);
      var mid := if selector.Some? then Cascade(db, selector.value, now) else db;
      if selector.Some? { CascadeKeeps(db, selector.value, now); } else { StableReflexive(db); }
      ClientChangeKeeps(mid, id, Updated(current, u), now);
      StableTransitive(db, mid, UpdateClient(db, id, u, now), now);
    }
  }

  // ----- Changing one user row -----

  ghost predicate UserChangeSafe(db: Db, id: Id, after: User, now: Time) {
    && id in db.users
    && after.subject == db.users[id].subject && after.version == db.users[id].version + 1
    && (after.status == Disabled ==> Emptied(db, OfUser(id), now))
  }

  lemma UserChangeAlive(db: Db, id: Id, after: User, now: Time)
    requires UserChangeSafe(db, id, after, now)
    requires LiveFamiliesOk(db.families, db.users, db.clients, db.grants)
    requires LiveAccessesOk(db.accesses, db.users, db.clients, db.grants, now)
    ensures LiveFamiliesOk(db.families, db.users[id := after], db.clients, db.grants)
    ensures LiveAccessesOk(db.accesses, db.users[id := after], db.clients, db.grants, now)
  {
    forall f | f in db.families && db.families[f].revokedAt.None?
      ensures FamilyAlive(db.families[f], db.users[id := after], db.clients, db.grants)
    {
      assert FamilyAlive(db.families[f], db.users, db.clients, db.grants);
      assert SelectsFamily(OfUser(id), f, db.families[f]) <==> db.families[f].user == id;
    }
    forall a | a in db.accesses && db.accesses[a].revokedAt.None? && db.accesses[a].expiresAt > now
      ensures AccessAlive(db.accesses[a], db.users[id := after], db.clients, db.grants)
    {
      assert AccessAlive(db.accesses[a], db.users, db.clients, db.grants);
      assert SelectsAccess(OfUser(id), db.accesses[a]) <==> db.accesses[a].user == id;
    }
  }

  lemma UserChangeFresh(db: Db, id: Id, after: User)
    requires FreshOk(db) && id in db.users
    ensures FreshOk(db.(users := db.users[id := after]))
  {
    assert db.users[id := after].Keys == db.users.Keys;
  }

  lemma UserChangeOwners(db: Db, id: Id, after: User)
    requires GrantsOk(db.grants, db.users, db.clients) && SessionsOk(db.sessions, db.users)
    ensures GrantsOk(db.grants, db.users[id := after], db.clients) && SessionsOk(db.sessions, db.users[id := after])
  {
  }

  lemma UserChangeKeeps(db: Db, id: Id, after: User, now: Time)
    requires Inv(db, now) && UserChangeSafe(db, id, after, now)
    ensures Inv(db.(users := db.users[id := after]), now)
    ensures Stable(db, db.(users := db.users[id := after]))
  {
    hide FreshOk, ClientsOk, GrantsOk, SessionsOk, CodesOk, TransactionsOk, FamiliesOk, FamilyCodesOk, LiveFamiliesOk,
         GenerationsOk, ChainsOk;
    hide AccessesOk, AccessCodesOk, AccessFamiliesOk, AccessSourcesOk, LiveAccessesOk, LogoutsOk;
    UserChangeAlive(db, id, after, now);
    UserChangeFresh(db, id, after);
    UserChangeOwners(db, id, after);
  }
}
