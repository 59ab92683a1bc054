/**
 Retention cleanup keeps the invariant: it only removes rows nothing live depends on, and the
 rows that pointed at them are detached together.
 */
module CleanupProofs {
  import opened Schema
  import opened Cleanup
  import opened Invariants

  // ----- Detaching -----

  /** The same families, apart from the references cleanup may clear. */
  ghost predicate FamiliesAlike(families: map<Id, Family>, after: map<Id, Family>) {
    && after.Keys == families.Keys
    && forall f :: f in families ==>
         after[f] == families[f].(originCode := after[f].originCode, originSession := after[f].originSession)
  }

  ghost predicate AccessesAlike(accesses: map<Id, Access>, after: map<Id, Access>) {
    && after.Keys == accesses.Keys
    && forall a :: a in accesses ==>
         after[a] == accesses[a].(code := after[a].code, originSession := after[a].originSession)
  }

  lemma AlikeFamilies(db: Db, after: map<Id, Family>, now: Time)
    requires FamiliesAlike(db.families, after)
    requires FamiliesOk(db.families, db.grants, now)
    requires LiveFamiliesOk(db.families, db.users, db.clients, db.grants)
    ensures FamiliesOk(after, db.grants, now) && LiveFamiliesOk(after, db.users, db.clients, db.grants)
  {
    forall f | f in after
      ensures FamilyOk(after[f], db.grants, now)
    {
      assert FamilyOk(db.families[f], db.grants, now);
    }
    forall f | f in after && after[f].revokedAt.None?
      ensures FamilyAlive(after[f], db.users, db.clients, db.grants)
    {
      assert FamilyAlive(db.families[f], db.users, db.clients, db.grants);
    }
  }

  lemma AlikeGenerations(db: Db, after: map<Id, Family>, now: Time)
    requires FamiliesAlike(db.families, after)
    requires GenerationsOk(db.generations, db.families, now) && ChainsOk(db.families, db.generations, now)
    ensures GenerationsOk(db.generations, after, now) && ChainsOk(after, db.generations, now)
  {
    hide HasHead, Ordered;
    forall g | g in db.generations
      ensures GenerationOk(db.generations[g], after, now)
    {
      assert GenerationOk(db.generations[g], db.families, now);
    }
  }

  lemma AlikeAccesses(db: Db, after: map<Id, Access>, now: Time)
    requires AccessesAlike(db.accesses, after)
    requires AccessesOk(db.accesses, db.grants, now)
    requires LiveAccessesOk(db.accesses, db.users, db.clients, db.grants, now)
    requires forall a :: a in after && after[a].source == FromRefresh && db.accesses[a].code.None? ==>
      after[a].code.None?
    ensures AccessesOk(after, db.grants, now) && LiveAccessesOk(after, db.users, db.clients, db.grants, now)
  {
    forall a | a in after
      ensures AccessOk(after[a], db.grants, now)
    {
      assert AccessOk(db.accesses[a], db.grants, now);
    }
    forall a | a in after && after[a].revokedAt.None? && after[a].expiresAt > now
      ensures AccessAlive(after[a], db.users, db.clients, db.grants)
    {
      assert AccessAlive(db.accesses[a], db.users, db.clients, db.grants);
    }
  }

  lemma AlikeSources(db: Db, after: map<Id, Access>)
    requires AccessesAlike(db.accesses, after) && AccessSourcesOk(db.accesses, db.generations)
    ensures AccessSourcesOk(after, db.generations)
  {
    assert forall a :: a in after ==>
        after[a].sourceGeneration == db.accesses[a].sourceGeneration && after[a].family == db.accesses[a].family;
  }

  lemma AlikeFresh(db: Db, families: map<Id, Family>, accesses: map<Id, Access>)
    requires FreshOk(db) && FamiliesAlike(db.families, families) && AccessesAlike(db.accesses, accesses)
    ensures FreshOk(db.(families := families, accesses := accesses))
  {
    hide GrantIdsFresh, BindingsFresh, CodeHashesFresh, GenerationHashesFresh, SessionHashesFresh, LogoutHashesFresh;
    assert forall a :: a in accesses ==> accesses[a].jtiHash == db.accesses[a].jtiHash;
  }

  /** Nothing but the detached references of families and accesses differs. */
  lemma AlikeStable(db: Db, after: Db)
    requires after == db.(codes := after.codes, families := after.families, accesses := after.accesses,
                          sessions := after.sessions)
    requires CodesStable(db, after.codes) && SessionsStable(db, after.sessions)
    requires FamiliesAlike(db.families, after.families) && AccessesAlike(db.accesses, after.accesses)
    requires forall f :: f in after.families ==>
      && Detached(db.families[f].originCode, after.families[f].originCode)
      && Detached(db.families[f].originSession, after.families[f].originSession)
    requires forall a :: a in after.accesses ==>
      && Detached(db.accesses[a].code, after.accesses[a].code)
      && Detached(db.accesses[a].originSession, after.accesses[a].originSession)
    ensures Stable(db, after)
  {
    hide UsersStable, ClientsStable, GrantsStable, TransactionsStable, GenerationsStable, LogoutsStable, CodesStable;
    hide SessionsStable;
    StableReflexive(db);
  }

  // ----- Codes -----

  lemma DeleteCodesFamilies(db: Db, chosen: set<Id>, cutoff: Time)
    requires CodesRetired(db, chosen, cutoff) && FamilyCodesOk(db.families, db.codes)
    ensures var after := DeleteCodes(db, chosen, cutoff); FamilyCodesOk(after.families, after.codes)
  {
    hide CodesRetired;
    var after := DeleteCodes(db, chosen, cutoff).families;
    assert forall f :: f in after ==>
        after[f].originCode == Detach(db.families[f].originCode, chosen) &&
        (after[f].originCode.Some? ==> after[f].originCode == db.families[f].originCode);
  }

  lemma DeleteCodesAccesses(db: Db, chosen: set<Id>, cutoff: Time)
    requires CodesRetired(db, chosen, cutoff) && AccessCodesOk(db.accesses, db.codes)
    ensures var after := DeleteCodes(db, chosen, cutoff); AccessCodesOk(after.accesses, after.codes)
  {
    hide CodesRetired;
    var after := DeleteCodes(db, chosen, cutoff).accesses;
    assert forall a :: a in after ==>
        after[a].code == Detach(db.accesses[a].code, chosen) &&
        (after[a].code.Some? ==> after[a].code == db.accesses[a].code);
  }

  lemma DeleteCodesAccessFamilies(db: Db, chosen: set<Id>, cutoff: Time)
    requires CodesRetired(db, chosen, cutoff) && AccessFamiliesOk(db.accesses, db.families)
    ensures var after := DeleteCodes(db, chosen, cutoff); AccessFamiliesOk(after.accesses, after.families)
  {
    hide CodesRetired, Detach;
    var after := DeleteCodes(db, chosen, cutoff);
    forall a | a in after.accesses
      ensures OfItsFamily(after.accesses[a], after.families)
    {
      assert OfItsFamily(db.accesses[a], db.families);
    }
  }

  lemma FewerCodes(db: Db, chosen: set<Id>, now: Time)
    requires CodesOk(db.codes, db.grants, now) && TransactionsOk(db.codes, db.transactions)
    requires FreshOk(db)
    ensures CodesOk(db.codes - chosen, db.grants, now) && TransactionsOk(db.codes - chosen, db.transactions)
    ensures FreshOk(db.(codes := db.codes - chosen)) && CodesStable(db, db.codes - chosen)
  {
    hide GrantIdsFresh, BindingsFresh, GenerationHashesFresh, AccessHashesFresh, SessionHashesFresh, LogoutHashesFresh;
    hide CodeOk, Fenced;
  }

  lemma DeleteCodesKeeps(db: Db, chosen: set<Id>, cutoff: Time, now: Time)
    requires Inv(db, now)
    ensures var after := DeleteCodes(db, chosen, cutoff); Inv(after, now) && Stable(db, after)
  {
    hide FreshOk, ClientsOk, GrantsOk, CodesOk, TransactionsOk, FamiliesOk, FamilyCodesOk, LiveFamiliesOk,
         GenerationsOk;
    hide ChainsOk, AccessesOk, AccessCodesOk, AccessFamiliesOk, AccessSourcesOk, LiveAccessesOk, SessionsOk, LogoutsOk;
    hide Stable, CodesRetired, CodesStable, SessionsStable;
    StableReflexive(db);
    if CodesRetired(db, chosen, cutoff) {
      var after := DeleteCodes(db, chosen, cutoff);
      FewerCodes(db, chosen, now);
      AlikeFamilies(db, after.families, now);
      AlikeGenerations(db, after.families, now);
      AlikeAccesses(db, after.accesses, now);
      AlikeSources(db, after.accesses);
      AlikeFresh(db.(codes := db.codes - chosen), after.families, after.accesses);
      DeleteCodesFamilies(db, chosen, cutoff);
      DeleteCodesAccesses(db, chosen, cutoff);
      DeleteCodesAccessFamilies(db, chosen, cutoff);
      SessionsReflexive(db);
      AlikeStable(db, after);
    }
  }

  lemma SessionsReflexive(db: Db)
    ensures SessionsStable(db, db.sessions)
  {
  }

  // ----- Access rows, generations, families -----

  lemma DeleteAccessesKeeps(db: Db, chosen: set<Id>, cutoff: Time, now: Time)
    requires Inv(db, now)
    ensures var after := DeleteAccesses(db, chosen, cutoff); Inv(after, now) && Stable(db, after)
  {
    hide FreshOk, ClientsOk, GrantsOk, CodesOk, TransactionsOk, FamiliesOk, FamilyCodesOk, LiveFamiliesOk,
         GenerationsOk;
    hide ChainsOk, AccessesOk, AccessCodesOk, AccessFamiliesOk, AccessSourcesOk, LiveAccessesOk, SessionsOk, LogoutsOk;
    hide Stable, AccessesRetired;
    StableReflexive(db);
    FewerAccesses(db, chosen, now);
    FewerAccessesFresh(db, chosen);
  }

  lemma FewerAccesses(db: Db, chosen: set<Id>, now: Time)
    requires AccessesOk(db.accesses, db.grants, now) && AccessCodesOk(db.accesses, db.codes)
    requires AccessFamiliesOk(db.accesses, db.families) && AccessSourcesOk(db.accesses, db.generations)
    requires LiveAccessesOk(db.accesses, db.users, db.clients, db.grants, now)
    ensures var after := db.accesses - chosen;
      && AccessesOk(after, db.grants, now) && AccessCodesOk(after, db.codes)
      && AccessFamiliesOk(after, db.families) && AccessSourcesOk(after, db.generations)
      && LiveAccessesOk(after, db.users, db.clients, db.grants, now)
  {
    hide AccessOk, OfCode, OfItsFamily, AccessAlive;
  }

  lemma FewerAccessesFresh(db: Db, chosen: set<Id>)
    requires FreshOk(db)
    ensures FreshOk(db.(accesses := db.accesses - chosen)) && Stable(db, db.(accesses := db.accesses - chosen))
  {
    hide GrantIdsFresh, BindingsFresh, CodeHashesFresh, GenerationHashesFresh, SessionHashesFresh, LogoutHashesFresh;
    hide UsersStable, ClientsStable, GrantsStable, TransactionsStable, CodesStable, FamiliesStable, GenerationsStable;
    hide SessionsStable, LogoutsStable;
    StableReflexive(db);
  }

  lemma FewerGenerations(db: Db, chosen: set<Id>, cutoff: Time, now: Time)
    requires GenerationsRetired(db, chosen, cutoff) && cutoff <= now
    requires GenerationsOk(db.generations, db.families, now) && ChainsOk(db.families, db.generations, now)
    requires AccessSourcesOk(db.accesses, db.generations)
    ensures var after := db.generations - chosen;
      && GenerationsOk(after, db.families, now) && ChainsOk(db.families, after, now)
      && AccessSourcesOk(db.accesses, after)
  {
    FewerOrdered(db, chosen, now);
    FewerChains(db, chosen, cutoff, now);
    hide GenerationOk, HasHead, Ordered;
  }

  lemma FewerOrdered(db: Db, chosen: set<Id>, now: Time)
    requires GenerationsOk(db.generations, db.families, now)
    ensures GenerationsOk(db.generations - chosen, db.families, now)
  {
    hide GenerationOk;
    var after := db.generations - chosen;
    forall g, h | g in after && h in after
      ensures Ordered(after, g, h)
    {
      assert Ordered(db.generations, g, h);
    }
  }

  lemma FewerChains(db: Db, chosen: set<Id>, cutoff: Time, now: Time)
    requires GenerationsRetired(db, chosen, cutoff) && cutoff <= now
    requires ChainsOk(db.families, db.generations, now)
    ensures ChainsOk(db.families, db.generations - chosen, now)
  {
    var after := db.generations - chosen;
    forall f | f in db.families && db.families[f].absoluteExpiresAt > now
      ensures HasHead(after, f)
    {
      assert HasHead(db.generations, f);
      var head :| IsHead(db.generations, f, head);
      forall k | 0 <= k < db.generations[head].number
        ensures HasNumber(after, f, k)
      {
        assert HasNumber(db.generations, f, k);
        var h :| h in db.generations && db.generations[h].family == f && db.generations[h].number == k;
        assert h in after && after[h] == db.generations[h];
      }
      assert IsHead(after, f, head);
    }
  }

  lemma FewerGenerationsFresh(db: Db, chosen: set<Id>)
    requires FreshOk(db)
    ensures FreshOk(db.(generations := db.generations - chosen))
    ensures Stable(db, db.(generations := db.generations - chosen))
  {
    hide GrantIdsFresh, BindingsFresh, CodeHashesFresh, AccessHashesFresh, SessionHashesFresh, LogoutHashesFresh;
    hide UsersStable, ClientsStable, GrantsStable, TransactionsStable, CodesStable, FamiliesStable, AccessesStable;
    hide SessionsStable, LogoutsStable;
    StableReflexive(db);
  }

  lemma DeleteGenerationsKeeps(db: Db, chosen: set<Id>, cutoff: Time, now: Time)
    requires Inv(db, now) && cutoff <= now
    ensures var after := DeleteGenerations(db, chosen, cutoff); Inv(after, now) && Stable(db, after)
  {
    hide FreshOk, ClientsOk, GrantsOk, CodesOk, TransactionsOk, FamiliesOk, FamilyCodesOk, LiveFamiliesOk,
         GenerationsOk;
    hide ChainsOk, AccessesOk, AccessCodesOk, AccessFamiliesOk, AccessSourcesOk, LiveAccessesOk, SessionsOk, LogoutsOk;
    hide Stable, GenerationsRetired;
    StableReflexive(db);
    if GenerationsRetired(db, chosen, cutoff) {
      FewerGenerations(db, chosen, cutoff, now);
      FewerGenerationsFresh(db, chosen);
    }
  }

  lemma FewerFamilies(db: Db, chosen: set<Id>, now: Time)
    requires FamiliesOk(db.families, db.grants, now) && FamilyCodesOk(db.families, db.codes)
    requires LiveFamiliesOk(db.families, db.users, db.clients, db.grants)
    requires ChainsOk(db.families, db.generations, now)
    ensures var after := db.families - chosen;
      && FamiliesOk(after, db.grants, now) && FamilyCodesOk(after, db.codes)
      && LiveFamiliesOk(after, db.users, db.clients, db.grants) && ChainsOk(after, db.generations, now)
  {
    hide FamilyOk, OfCode, FamilyAlive, HasHead;
  }

  lemma UnusedFamilies(db: Db, chosen: set<Id>, cutoff: Time, now: Time)
    requires FamiliesRetired(db, chosen, cutoff)
    requires GenerationsOk(db.generations, db.families, now) && AccessFamiliesOk(db.accesses, db.families)
    ensures GenerationsOk(db.generations, db.families - chosen, now)
    ensures AccessFamiliesOk(db.accesses, db.families - chosen)
  {
    hide Ordered;
    var after := db.families - chosen;
    forall g | g in db.generations
      ensures GenerationOk(db.generations[g], after, now)
    {
      assert GenerationOk(db.generations[g], db.families, now);
    }
    forall a | a in db.accesses
      ensures OfItsFamily(db.accesses[a], after)
    {
      assert OfItsFamily(db.accesses[a], db.families);
    }
  }

  lemma FewerFamiliesFresh(db: Db, chosen: set<Id>)
    requires FreshOk(db)
    ensures FreshOk(db.(families := db.families - chosen)) && Stable(db, db.(families := db.families - chosen))
  {
    hide GrantIdsFresh, BindingsFresh, CodeHashesFresh, GenerationHashesFresh, AccessHashesFresh, SessionHashesFresh;
    hide UsersStable, ClientsStable, GrantsStable, TransactionsStable, CodesStable, GenerationsStable, AccessesStable;
    hide SessionsStable, LogoutsStable, LogoutHashesFresh;
    StableReflexive(db);
  }

  lemma DeleteFamiliesKeeps(db: Db, chosen: set<Id>, cutoff: Time, now: Time)
    requires Inv(db, now)
    ensures var after := DeleteFamilies(db, chosen, cutoff); Inv(after, now) && Stable(db, after)
  {
    hide FreshOk, ClientsOk, GrantsOk, CodesOk, TransactionsOk, FamiliesOk, FamilyCodesOk, LiveFamiliesOk,
         GenerationsOk;
    hide ChainsOk, AccessesOk, AccessCodesOk, AccessFamiliesOk, AccessSourcesOk, LiveAccessesOk, SessionsOk, LogoutsOk;
    hide Stable, FamiliesRetired;
    StableReflexive(db);
    if FamiliesRetired(db, chosen, cutoff) {
      FewerFamilies(db, chosen, now);
      UnusedFamilies(db, chosen, cutoff, now);
      FewerFamiliesFresh(db, chosen);
    }
  }

  // ----- Sessions -----

  function DetachedCodes(codes: map<Id, Code>, chosen: set<Id>): map<Id, Code> {
    map c | c in codes :: CodeOffSessions(codes[c], chosen)
  }

  lemma DetachedCodesOk(db: Db, chosen: set<Id>, now: Time)
    requires CodesOk(db.codes, db.grants, now) && TransactionsOk(db.codes, db.transactions)
    ensures var codes := DetachedCodes(db.codes, chosen);
      CodesOk(codes, db.grants, now) && TransactionsOk(codes, db.transactions)
  {
    hide Detach;
    var codes := DetachedCodes(db.codes, chosen);
    forall c | c in codes
      ensures CodeOk(codes[c], now) && Fenced(codes[c], db.grants)
    {
      assert CodeOk(db.codes[c], now) && Fenced(db.codes[c], db.grants);
    }
  }

  lemma DetachedCodesFresh(db: Db, chosen: set<Id>)
    requires FreshOk(db)
    ensures FreshOk(db.(codes := DetachedCodes(db.codes, chosen))) && CodesStable(db, DetachedCodes(db.codes, chosen))
  {
    hide GrantIdsFresh, BindingsFresh, GenerationHashesFresh, AccessHashesFresh, SessionHashesFresh, LogoutHashesFresh;
    var codes := DetachedCodes(db.codes, chosen);
    assert codes.Keys == db.codes.Keys;
    assert forall c :: c in codes ==> codes[c].hash == db.codes[c].hash;
  }

  lemma DeleteSessionsFamilies(db: Db, chosen: set<Id>, cutoff: Time)
    requires SessionsRetired(db, chosen, cutoff) && FamilyCodesOk(db.families, db.codes)
    ensures var after := DeleteSessions(db, chosen, cutoff); FamilyCodesOk(after.families, after.codes)
  {
    hide SessionsRetired, Detach;
    var after := DeleteSessions(db, chosen, cutoff);
    assert forall f :: f in after.families ==> after.families[f].originCode == db.families[f].originCode;
    forall f | f in after.families
      ensures var r := after.families[f];
        OfCode(r.originCode, r.grant, r.user, r.client, r.scopes, r.originSession, Some(r.binding), after.codes)
    {
      var r := db.families[f];
      assert OfCode(r.originCode, r.grant, r.user, r.client, r.scopes, r.originSession, Some(r.binding), db.codes);
    }
  }

  lemma DeleteSessionsAccesses(db: Db, chosen: set<Id>, cutoff: Time)
    requires SessionsRetired(db, chosen, cutoff) && AccessCodesOk(db.accesses, db.codes)
    ensures var after := DeleteSessions(db, chosen, cutoff); AccessCodesOk(after.accesses, after.codes)
  {
    hide SessionsRetired, Detach;
    var after := DeleteSessions(db, chosen, cutoff);
    assert forall a :: a in after.accesses ==> after.accesses[a].code == db.accesses[a].code;
    forall a | a in after.accesses
      ensures var r := after.accesses[a];
        OfCode(r.code, r.grant, r.user, r.client, r.scopes, r.originSession, r.binding, after.codes)
    {
      var r := db.accesses[a];
      assert OfCode(r.code, r.grant, r.user, r.client, r.scopes, r.originSession, r.binding, db.codes);
    }
  }

  lemma DeleteSessionsAccessFamilies(db: Db, chosen: set<Id>, cutoff: Time)
    requires SessionsRetired(db, chosen, cutoff) && AccessFamiliesOk(db.accesses, db.families)
    ensures var after := DeleteSessions(db, chosen, cutoff); AccessFamiliesOk(after.accesses, after.families)
  {
    hide SessionsRetired, Detach;
    var after := DeleteSessions(db, chosen, cutoff);
    forall a | a in after.accesses
      ensures OfItsFamily(after.accesses[a], after.families)
    {
      assert OfItsFamily(db.accesses[a], db.families);
    }
  }

  lemma FewerSessions(db: Db, chosen: set<Id>, cutoff: Time)
    requires SessionsRetired(db, chosen, cutoff)
    requires SessionsOk(db.sessions, db.users) && LogoutsOk(db.logouts, db.sessions)
    ensures SessionsOk(db.sessions - chosen, db.users) && LogoutsOk(db.logouts, db.sessions - chosen)
  {
    forall l | l in db.logouts
      ensures LogoutOk(db.logouts[l], db.sessions - chosen)
    {
      assert LogoutOk(db.logouts[l], db.sessions);
    }
  }

  lemma FewerSessionsFresh(db: Db, chosen: set<Id>)
    requires FreshOk(db)
    ensures FreshOk(db.(sessions := db.sessions - chosen))
  {
    hide GrantIdsFresh, CodeHashesFresh, GenerationHashesFresh, AccessHashesFresh, LogoutHashesFresh;
  }

  lemma FewerSessionsStable(db: Db, chosen: set<Id>)
    ensures SessionsStable(db, db.sessions - chosen)
  {
  }

  lemma DeleteSessionsKeeps(db: Db, chosen: set<Id>, cutoff: Time, now: Time)
    requires Inv(db, now)
    ensures var after := DeleteSessions(db, chosen, cutoff); Inv(after, now) && Stable(db, after)
  {
    hide FreshOk, ClientsOk, GrantsOk, CodesOk, TransactionsOk, FamiliesOk, FamilyCodesOk, LiveFamiliesOk,
         GenerationsOk;
    hide ChainsOk, AccessesOk, AccessCodesOk, AccessFamiliesOk, AccessSourcesOk, LiveAccessesOk, SessionsOk, LogoutsOk;
    hide Stable, SessionsRetired, CodesStable, SessionsStable;
    StableReflexive(db);
    if SessionsRetired(db, chosen, cutoff) {
      var after := DeleteSessions(db, chosen, cutoff);
      DetachedCodesOk(db, chosen, now);
      DetachedCodesFresh(db, chosen);
      assert after.codes == DetachedCodes(db.codes, chosen);
      AlikeFamilies(db, after.families, now);
      AlikeGenerations(db, after.families, now);
      AlikeAccesses(db, after.accesses, now);
      AlikeSources(db, after.accesses);
      var coded := db.(codes := after.codes);
      AlikeFresh(coded, after.families, after.accesses);
      FewerSessionsFresh(coded.(families := after.families, accesses := after.accesses), chosen);
      DeleteSessionsFamilies(db, chosen, cutoff);
      DeleteSessionsAccesses(db, chosen, cutoff);
      DeleteSessionsAccessFamilies(db, chosen, cutoff);
      FewerSessions(db, chosen, cutoff);
      FewerSessionsStable(db, chosen);
      AlikeStable(db, after);
    }
  }

  // ----- Logout and authorization transactions -----

  lemma FewerLogouts(db: Db, chosen: set<Id>)
    requires LogoutsOk(db.logouts, db.sessions) && FreshOk(db)
    ensures LogoutsOk(db.logouts - chosen, db.sessions) && FreshOk(db.(logouts := db.logouts - chosen))
    ensures Stable(db, db.(logouts := db.logouts - chosen))
  {
    hide LogoutOk, GrantIdsFresh, BindingsFresh, CodeHashesFresh, GenerationHashesFresh, AccessHashesFresh;
    hide UsersStable, ClientsStable, GrantsStable, TransactionsStable, CodesStable, FamiliesStable, GenerationsStable;
    hide AccessesStable, SessionsStable, SessionHashesFresh;
    StableReflexive(db);
  }

  lemma DeleteLogoutsKeeps(db: Db, chosen: set<Id>, now: Time, cutoff: Time)
    requires Inv(db, now)
    ensures var after := DeleteLogouts(db, chosen, now, cutoff); Inv(after, now) && Stable(db, after)
  {
    hide FreshOk, ClientsOk, GrantsOk, CodesOk, TransactionsOk, FamiliesOk, FamilyCodesOk, LiveFamiliesOk,
         GenerationsOk;
    hide ChainsOk, AccessesOk, AccessCodesOk, AccessFamiliesOk, AccessSourcesOk, LiveAccessesOk, SessionsOk, LogoutsOk;
    hide Stable, LogoutsRetired;
    StableReflexive(db);
    FewerLogouts(db, chosen);
  }

  lemma FewerTransactions(db: Db, chosen: set<Id>, cutoff: Time)
    requires TransactionsRetired(db, chosen, cutoff) && TransactionsOk(db.codes, db.transactions) && FreshOk(db)
    ensures TransactionsOk(db.codes, db.transactions - chosen)
    ensures FreshOk(db.(transactions := db.transactions - chosen))
    ensures Stable(db, db.(transactions := db.transactions - chosen))
  {
    hide GrantIdsFresh, BindingsFresh, CodeHashesFresh, GenerationHashesFresh, AccessHashesFresh, LogoutHashesFresh;
    hide UsersStable, ClientsStable, GrantsStable, LogoutsStable, CodesStable, FamiliesStable, GenerationsStable;
    hide AccessesStable, SessionsStable, SessionHashesFresh;
    StableReflexive(db);
  }

  lemma DeleteTransactionsKeeps(db: Db, chosen: set<Id>, cutoff: Time, now: Time)
    requires Inv(db, now)
    ensures var after := DeleteTransactions(db, chosen, cutoff); Inv(after, now) && Stable(db, after)
  {
    hide FreshOk, ClientsOk, GrantsOk, CodesOk, TransactionsOk, FamiliesOk, FamilyCodesOk, LiveFamiliesOk,
         GenerationsOk;
    hide ChainsOk, AccessesOk, AccessCodesOk, AccessFamiliesOk, AccessSourcesOk, LiveAccessesOk, SessionsOk, LogoutsOk;
    hide Stable, TransactionsRetired;
    StableReflexive(db);
    if TransactionsRetired(db, chosen, cutoff) {
      FewerTransactions(db, chosen, cutoff);
    }
  }
}
