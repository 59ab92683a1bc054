/**
 Rotation cannot be refused to an honest client: in a reachable state every check between
 presenting the current generation of a live family and storing its successor passes.
 */
module Progress {
  import opened Schema
  import opened TokenPolicy
  import opened Tokens
  import opened Invariants
  import opened TokenProofs

  /** The caller's authenticated copy of its client row agrees on the fields that never change. */
  ghost predicate Genuine(db: Db, caller: Caller) {
    && caller.id in db.clients
    && caller.row.publicId == db.clients[caller.id].publicId
    && caller.row.kind == db.clients[caller.id].kind
    && caller.row.authMethod == db.clients[caller.id].authMethod
  }

  /** A copy read in an earlier state stays genuine. */
  lemma GenuineForever(db: Db, after: Db, caller: Caller)
    requires Genuine(db, caller) && ClientsStable(db.clients, after.clients)
    ensures Genuine(after, caller)
  {
  }

  /** Random draws that collide with nothing stored. */
  ghost predicate FreshDraws(db: Db, d: RefreshDraws) {
    && RealRefreshDraws(d)
    && d.accessId !in db.usedIds && d.replacement !in db.usedIds && d.accessId != d.replacement
    && HashJti(d.jti) !in db.usedHashes && HashRefresh(RefreshToken(d.raw)) !in db.usedHashes
  }

  /** Digests of different domains never coincide. */
  lemma DomainsDisjoint(refresh: string, jti: string)
    ensures HashRefresh(refresh) != HashJti(jti)
  {
    var a, b := "oneissuer:refresh-token:v1:" + refresh, "oneissuer:access-token-jti:v1:" + jti;
    assert a[10] == 'r' && b[10] == 'a';
  }

  /** The generation a live family's client should present. */
  ghost predicate Presentable(db: Db, g: Id, caller: Caller, now: Time) {
    && g in db.generations
    && db.generations[g].consumedAt.None? && now < db.generations[g].expiresAt
    && db.generations[g].family in db.families
    && var family := db.families[db.generations[g].family];
       family.revokedAt.None? && family.client == caller.id
  }

  function EffectiveScopes(db: Db, family: Family): set<Scope>
    requires FamilyKnown(db, family)
  {
    family.scopes * db.grants[GrantKey(family.user, family.client)].scopes * db.clients[family.client].scopes
  }

  /** The facts of the invariant that bear on one generation. */
  ghost predicate RotationFacts(db: Db, g: Id, now: Time)
    requires g in db.generations && db.generations[g].family in db.families
  {
    var presented := db.generations[g];
    var family := db.families[presented.family];
    && g != NIL && presented.family != NIL && family.user != NIL && family.client != NIL
    && presented.expiresAt <= family.absoluteExpiresAt
    && OpenId in family.scopes && OfflineAccess in family.scopes
    && FamilyAlive(family, db.users, db.clients, db.grants)
    && db.grants[GrantKey(family.user, family.client)].version >= 1
    && ValidProfile(db.clients[family.client]) && db.clients[family.client].publicId != ""
    && !SourceTaken(db.accesses, g) && !NumberTaken(db.generations, presented.family, presented.number + 1)
  }

  lemma UnconsumedIsUnclaimed(db: Db, g: Id, now: Time)
    requires Inv(db, now) && g in db.generations && db.generations[g].consumedAt.None?
    ensures !SourceTaken(db.accesses, g)
    ensures !NumberTaken(db.generations, db.generations[g].family, db.generations[g].number + 1)
  {
    hide FreshOk, ClientsOk, GrantsOk, CodesOk, TransactionsOk, FamiliesOk, FamilyCodesOk, LiveFamiliesOk;
    hide ChainsOk, AccessesOk, AccessCodesOk, AccessFamiliesOk, LiveAccessesOk, SessionsOk, LogoutsOk;
    hide GenerationOk, IsHead;
    assert forall h :: h in db.generations ==> Ordered(db.generations, g, h);
  }

  lemma KeysAreReal(db: Db, g: Id, now: Time)
    requires Inv(db, now) && g in db.generations && db.generations[g].family in db.families
    ensures var family := db.families[db.generations[g].family];
      g != NIL && db.generations[g].family != NIL && family.user != NIL && family.client != NIL
  {
    hide ClientsOk, CodesOk, TransactionsOk, FamilyCodesOk, LiveFamiliesOk, GenerationsOk;
    hide ChainsOk, AccessesOk, AccessCodesOk, AccessFamiliesOk, AccessSourcesOk, LiveAccessesOk, SessionsOk, LogoutsOk;
    hide GrantIdsFresh, BindingsFresh, CodeHashesFresh, GenerationHashesFresh, AccessHashesFresh, SessionHashesFresh;
    hide LogoutHashesFresh;
    assert FamilyOk(db.families[db.generations[g].family], db.grants, now);
  }

  lemma PresentableFacts(db: Db, g: Id, caller: Caller, now: Time)
    requires Inv(db, now) && Presentable(db, g, caller, now)
    ensures RotationFacts(db, g, now)
  {
    hide FreshOk, CodesOk, TransactionsOk, FamiliesOk, FamilyCodesOk, GenerationsOk;
    hide ChainsOk, AccessesOk, AccessCodesOk, AccessFamiliesOk, AccessSourcesOk, LiveAccessesOk, SessionsOk, LogoutsOk;
    KeysAreReal(db, g, now);
    UnconsumedIsUnclaimed(db, g, now);
    GenerationRowOk(db, g, now);
  }

  /** The unique index makes the digest name one generation. */
  lemma HashFindsGeneration(db: Db, g: Id, now: Time)
    requires Inv(db, now) && g in db.generations
    ensures FindGeneration(db.generations, db.generations[g].hash) == Some(g)
  {
    hide FreshOk, ClientsOk, GrantsOk, CodesOk, TransactionsOk, FamiliesOk, FamilyCodesOk, LiveFamiliesOk;
    hide ChainsOk, AccessesOk, AccessCodesOk, AccessFamiliesOk, AccessSourcesOk, LiveAccessesOk, SessionsOk, LogoutsOk;
    hide GenerationOk, Ordered;
  }

  lemma MintSucceeds(db: Db, c: Config, g: Id, caller: Caller, scopes: set<Scope>, d: RefreshDraws, now: Time)
    requires now > 0 && ValidConfig(c) && Presentable(db, g, caller, now) && RotationFacts(db, g, now)
    requires OpenId in scopes && scopes <= EffectiveScopes(db, db.families[db.generations[g].family])
    ensures MintRefresh(c, AuthorityOfRefresh(db, g, scopes, now), d).Ok?
  {
    hide HashRefresh, HashJti, RefreshToken, ClaimsFor, SourceTaken, NumberTaken;
  }

  /** What a live family may be asked for: nothing in particular, or openid and part of the current authority. */
  predicate Askable(requested: Option<set<Scope>>, effective: set<Scope>) {
    requested.Some? ==> OpenId in requested.value && requested.value <= effective
  }

  /** The answer a presentable generation must get. */
  ghost predicate Answered(db: Db, family: Family, number: nat, requested: Option<set<Scope>>, outcome: RefreshOutcome)
    requires FamilyKnown(db, family)
  {
    var effective := EffectiveScopes(db, family);
    if !Askable(requested, effective) then outcome == Refused(InvalidScope)
    else if number == MAX_GENERATION then outcome == Refused(InvalidOperation)
    else outcome.Rotated? && outcome.response.scopes == if requested.Some? then requested.value else effective
  }

  lemma RotateSucceeds(db: Db, c: Config, g: Id, caller: Caller, requested: Option<set<Scope>>, d: RefreshDraws,
                       now: Time)
    requires now > 0 && ValidConfig(c) && FreshDraws(db, d) && Genuine(db, caller)
    requires Presentable(db, g, caller, now) && RotationFacts(db, g, now) && g in db.usedIds
    ensures FamilyKnown(db, db.families[db.generations[g].family])
    ensures Answered(db, db.families[db.generations[g].family], db.generations[g].number, requested,
                     RefreshLocked(db, c, g, RefreshInput(db.generations[g].hash, caller, requested), d, now).1)
  {
    hide ValidRefreshMinted, HashRefresh, HashJti, RefreshToken, ClaimsFor, SourceTaken, NumberTaken, ValidConfig;
    var family := db.families[db.generations[g].family];
    var effective := EffectiveScopes(db, family);
    if Askable(requested, effective) {
      var scopes := if requested.Some? then requested.value else effective;
      MintSucceeds(db, c, g, caller, scopes, d, now);
      RefreshMintedIsValid(c, AuthorityOfRefresh(db, g, scopes, now), d);
      DomainsDisjoint(RefreshToken(d.raw), d.jti);
    }
  }

  /**
   Progress. Presenting the unconsumed, unexpired generation of one's own unrevoked family rotates it:
   without a scope parameter with the full current authority, with one exactly when it asks for openid
   and no more than that authority. Only the largest generation number is refused.
   */
  lemma Rotates(db: Db, c: Config, g: Id, caller: Caller, requested: Option<set<Scope>>, d: RefreshDraws, now: Time)
    requires Inv(db, now) && ValidConfig(c) && FreshDraws(db, d) && Genuine(db, caller)
    requires Presentable(db, g, caller, now)
    ensures FamilyKnown(db, db.families[db.generations[g].family])
    ensures Answered(db, db.families[db.generations[g].family], db.generations[g].number, requested,
                     Refresh(db, c, RefreshInput(db.generations[g].hash, caller, requested), d, now).1)
  {
    hide Inv, RotationFacts, FreshDraws, Genuine, RefreshLocked, ValidConfig, Answered;
    PresentableFacts(db, g, caller, now);
    HashFindsGeneration(db, g, now);
    KnownIds(db, g, caller, now);
    RotateSucceeds(db, c, g, caller, requested, d, now);
  }

  lemma KnownIds(db: Db, g: Id, caller: Caller, now: Time)
    requires Inv(db, now) && g in db.generations && Genuine(db, caller)
    ensures now > 0 && g in db.usedIds && caller.id != NIL
  {
  }

  /** Conversely, whatever rotates was presentable. */
  lemma RotatedWasPresentable(db: Db, c: Config, x: RefreshInput, d: RefreshDraws, now: Time)
    requires Refresh(db, c, x, d, now).1.Rotated?
    ensures FindGeneration(db.generations, x.hash).Some?
    ensures Presentable(db, FindGeneration(db.generations, x.hash).value, x.caller, now)
  {
    var g, scopes, m := RotationOf(db, c, x, d, now);
  }
}
