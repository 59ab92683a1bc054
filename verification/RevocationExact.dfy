/**
 Client-requested revocation, exactly: whose tokens it withdraws, when, and which rows it ends; and that a
 client can withdraw an access token exactly while UserInfo accepts it.
 */
module RevocationExact {
  import opened Schema
  import opened TokenPolicy
  import opened Tokens
  import opened Revocation
  import opened Invariants
  import opened Progress
  import opened WithdrawalExact
  import Introspection
  import TokenProofs

  /** No access row and no refresh generation that the request names is this client's. */
  ghost predicate Foreign(db: Db, caller: Caller, jti: Option<Digest>, refresh: Option<Digest>) {
    && (forall a :: a in db.accesses && Some(db.accesses[a].jtiHash) == jti ==> db.accesses[a].client != caller.id)
    && (forall g :: g in db.generations && Some(db.generations[g].hash) == refresh ==>
          db.generations[g].family in db.families ==> db.families[db.generations[g].family].client != caller.id)
  }

  /** Another client's revocation request changes nothing at all, and neither does one with false credentials. */
  lemma ForeignRevocationIsVoid(db: Db, caller: Caller, jti: Option<Digest>, refresh: Option<Digest>, now: Time)
    requires Foreign(db, caller, jti, refresh) || !Genuine(db, caller)
    ensures RevokeToken(db, caller, jti, refresh, now) == db
  {
    hide Cascade;
  }

  lemma UniqueJti(db: Db, id: Id, now: Time)
    requires Inv(db, now) && id in db.accesses
    ensures FindAccess(db.accesses, db.accesses[id].jtiHash) == Some(id)
    ensures OfItsFamily(db.accesses[id], db.families)
    ensures id != NIL && db.accesses[id].client in db.clients ==>
      db.accesses[id].client != NIL && ValidProfile(db.clients[db.accesses[id].client])
  {
    hide GrantsOk, CodesOk, TransactionsOk, FamiliesOk, FamilyCodesOk, LiveFamiliesOk, GenerationsOk, ChainsOk;
    hide AccessCodesOk, AccessSourcesOk, LiveAccessesOk, SessionsOk, LogoutsOk;
    hide BindingsFresh, CodeHashesFresh, GenerationHashesFresh, AccessHashesFresh, SessionHashesFresh,
         LogoutHashesFresh;
    assert OfItsFamily(db.accesses[id], db.families);
  }

  /** What still lets the client of an access row withdraw it, in a reachable state. */
  ghost predicate Withdrawable(db: Db, a: Access, now: Time) {
    && a.revokedAt.None? && now < a.expiresAt
    && a.client in db.clients && a.scopes <= db.clients[a.client].scopes
    && (a.family.Some? ==> a.family.value in db.families && now < db.families[a.family.value].absoluteExpiresAt)
  }

  lemma RevocableRows(db: Db, id: Id, caller: Caller, now: Time)
    requires Inv(db, now) && Genuine(db, caller) && id in db.accesses && db.accesses[id].client == caller.id
    ensures AccessRevocable(db, db.accesses[id], caller, now) <==> Withdrawable(db, db.accesses[id], now)
  {
    hide Inv;
    var a := db.accesses[id];
    UniqueJti(db, id, now);
    if a.revokedAt.None? && now < a.expiresAt {
      Introspection.LiveRowFacts(db, id, now);
      Introspection.LiveRowKeys(db, id, now);
    }
  }

  /**
   An access token of the caller: its row alone is revoked, exactly when it is live, still within the client's
   scopes and before its family's deadline. Otherwise nothing changes, whatever refresh token is named besides.
   */
  lemma RevokeAccessExact(db: Db, caller: Caller, id: Id, refresh: Option<Digest>, now: Time)
    requires Inv(db, now) && Genuine(db, caller) && id in db.accesses && db.accesses[id].client == caller.id
    ensures var after := RevokeToken(db, caller, Some(db.accesses[id].jtiHash), refresh, now);
      after ==
        if Withdrawable(db, db.accesses[id], now) then
          db.(accesses := db.accesses[id := db.accesses[id].(revokedAt := Some(now))])
        else db
  {
    hide Inv, AccessRevocable, Withdrawable, Genuine;
    UniqueJti(db, id, now);
    RevocableRows(db, id, caller, now);
    CallerIsReal(db, caller, now);
  }

  lemma CallerIsReal(db: Db, caller: Caller, now: Time)
    requires Inv(db, now) && Genuine(db, caller)
    ensures caller.id != NIL && now > 0 && ValidProfile(db.clients[caller.id])
  {
    hide GrantsOk, CodesOk, TransactionsOk, FamiliesOk, FamilyCodesOk, LiveFamiliesOk, GenerationsOk, ChainsOk;
    hide AccessesOk, AccessCodesOk, AccessFamiliesOk, AccessSourcesOk, LiveAccessesOk, SessionsOk, LogoutsOk;
  }

  lemma UniqueGeneration(db: Db, g: Id, now: Time)
    requires Inv(db, now) && g in db.generations
    ensures FindGeneration(db.generations, db.generations[g].hash) == Some(g)
    ensures db.generations[g].family in db.families
    ensures var f := db.families[db.generations[g].family];
      f.revokedAt.None? ==> FamilyAlive(f, db.users, db.clients, db.grants)
  {
    hide FreshOk, ClientsOk, GrantsOk, CodesOk, TransactionsOk, FamiliesOk, FamilyCodesOk, ChainsOk;
    hide AccessesOk, AccessCodesOk, AccessFamiliesOk, AccessSourcesOk, LiveAccessesOk, SessionsOk, LogoutsOk;
    assert GenerationOk(db.generations[g], db.families, now);
  }

  lemma RevocableFamily(db: Db, g: Id, caller: Caller, now: Time)
    requires Inv(db, now) && Genuine(db, caller) && g in db.generations && db.generations[g].family in db.families
    requires db.families[db.generations[g].family].client == caller.id
    ensures var f := db.families[db.generations[g].family];
      RefreshRevocable(db, f, caller, now) <==> f.revokedAt.None? && now < f.absoluteExpiresAt
  {
    hide Inv;
    UniqueGeneration(db, g, now);
    CallerIsReal(db, caller, now);
  }

  /**
   A refresh token of the caller, consumed or not: its family and the live access rows of that family end,
   exactly when the family is unrevoked and before its deadline. Otherwise nothing changes.
   */
  lemma RevokeRefreshExact(db: Db, caller: Caller, g: Id, jti: Option<Digest>, now: Time)
    requires Inv(db, now) && Genuine(db, caller) && g in db.generations && db.generations[g].family in db.families
    requires db.families[db.generations[g].family].client == caller.id
    requires forall a :: a in db.accesses ==> Some(db.accesses[a].jtiHash) != jti
    ensures var after := RevokeToken(db, caller, jti, Some(db.generations[g].hash), now);
      var f := db.generations[g].family;
      if db.families[f].revokedAt.None? && now < db.families[f].absoluteExpiresAt then
        && after.users == db.users && after.clients == db.clients && after.grants == db.grants
        && Ends(db, after, {f}, (set a | a in db.accesses && db.accesses[a].family == Some(f)), {}, now)
      else after == db
  {
    hide Inv, RefreshRevocable, FamiliesEnd, AccessesEnd, SessionsEnd, RevokeFamilies, RevokeAccesses, Genuine;
    var f := db.generations[g].family;
    UniqueGeneration(db, g, now);
    RevocableFamily(db, g, caller, now);
    CallerIsReal(db, caller, now);
    CascadeEnds(db, OfFamily(f), {f}, (set a | a in db.accesses && db.accesses[a].family == Some(f)), now);
    NothingEnds(db, now);
  }

  /**
   The client of a verified access token can withdraw it exactly while UserInfo accepts it, and once it has
   done so UserInfo does not.
   */
  lemma WithdrawableWhileAccepted(db: Db, c: Config, jose: string -> Option<AccessClaims>, token: string,
                                  caller: Caller, id: Id, refresh: Option<Digest>, now: Time)
    requires Inv(db, now) && Genuine(db, caller) && id in db.accesses && db.accesses[id].client == caller.id
    requires Introspection.VerifyAccess(c, jose, token, now).Some?
    requires Introspection.ClaimsOfRow(db, c, db.accesses[id], Introspection.VerifyAccess(c, jose, token, now).value)
    ensures var jti := HashJti(Introspection.VerifyAccess(c, jose, token, now).value.jti);
      var after := RevokeToken(db, caller, Some(jti), refresh, now);
      && (Introspection.UserInfoFor(db, c, jose, token, now).Some? <==> after != db)
      && Introspection.UserInfoFor(after, c, jose, token, now).None?
  {
    hide Inv, RevokeToken, HashJti, Introspection.VerifyAccess, Introspection.UserInfoFor, Genuine;
    var a := db.accesses[id];
    UniqueJti(db, id, now);
    RevokeAccessExact(db, caller, id, refresh, now);
    var after := RevokeToken(db, caller, Some(a.jtiHash), refresh, now);
    if a.revokedAt.None? && now < a.expiresAt {
      Introspection.LiveAccessAccepted(db, c, jose, token, id, now);
      if Withdrawable(db, a, now) {
        assert after.accesses[id].revokedAt.Some? && a.revokedAt.None?;
        TokenProofs.RevokeTokenKeeps(db, caller, Some(a.jtiHash), refresh, now);
        UniqueJti(after, id, now);
        EndedIsRefused(after, c, jose, token, id, now);
      }
    } else {
      EndedIsRefused(db, c, jose, token, id, now);
    }
  }

  lemma EndedIsRefused(db: Db, c: Config, jose: string -> Option<AccessClaims>, token: string, id: Id, now: Time)
    requires Introspection.VerifyAccess(c, jose, token, now).Some?
    requires FindAccess(db.accesses, HashJti(Introspection.VerifyAccess(c, jose, token, now).value.jti)) == Some(id)
    requires id in db.accesses && (db.accesses[id].revokedAt.Some? || db.accesses[id].expiresAt <= now)
    ensures Introspection.UserInfoFor(db, c, jose, token, now).None?
  {
    hide Introspection.VerifyAccess, HashJti;
  }
}
