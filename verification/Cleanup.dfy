/**
 Retention cleanup. A batch deletes some rows that qualify at a cutoff; which ones, and how
 many at most, depends on row locks and the batch size, so a batch is any set of qualifying
 rows. Foreign keys with ON DELETE SET NULL detach the rows that refer to a deleted one;
 those with ON DELETE RESTRICT make a batch fail.
 */
module Cleanup {
  import opened Schema

  function Detach(o: Option<Id>, gone: set<Id>): Option<Id> {
    if o.Some? && o.value in gone then None else o
  }

  // The rows that stay, without their references to the rows that go.

  function FamilyOffCodes(f: Family, gone: set<Id>): Family {
    f.(originCode := Detach(f.originCode, gone))
  }

  function AccessOffCodes(a: Access, gone: set<Id>): Access {
    a.(code := Detach(a.code, gone))
  }

  function CodeOffSessions(c: Code, gone: set<Id>): Code {
    c.(originSession := Detach(c.originSession, gone))
  }

  function FamilyOffSessions(f: Family, gone: set<Id>): Family {
    f.(originSession := Detach(f.originSession, gone))
  }

  function AccessOffSessions(a: Access, gone: set<Id>): Access {
    a.(originSession := Detach(a.originSession, gone))
  }

  predicate CodesRetired(db: Db, chosen: set<Id>, cutoff: Time) {
    forall c :: c in chosen ==> c in db.codes && db.codes[c].expiresAt <= cutoff
  }

  /** DeleteRetiredAuthorizationCodes. */
  function DeleteCodes(db: Db, chosen: set<Id>, cutoff: Time): (after: Db)
    ensures after.logouts == db.logouts && after.generations == db.generations && after.users == db.users
    ensures after.grants == db.grants
  {
    if !CodesRetired(db, chosen, cutoff) then db
    else
      db.(codes := db.codes - chosen,
          families := map f | f in db.families :: FamilyOffCodes(db.families[f], chosen),
          accesses := map a | a in db.accesses :: AccessOffCodes(db.accesses[a], chosen))
  }

  predicate AccessesRetired(db: Db, chosen: set<Id>, cutoff: Time) {
    forall a :: a in chosen ==> a in db.accesses && db.accesses[a].expiresAt <= cutoff
  }

  /** DeleteRetiredAccessTokens. */
  function DeleteAccesses(db: Db, chosen: set<Id>, cutoff: Time): (after: Db)
    ensures after.logouts == db.logouts && after.generations == db.generations && after.users == db.users
    ensures after.grants == db.grants
  {
    if AccessesRetired(db, chosen, cutoff) then db.(accesses := db.accesses - chosen) else db
  }

  /** A family whose evidence window has closed: both its deadline and its revocation are past. */
  predicate FamilyRetired(f: Family, cutoff: Time) {
    f.absoluteExpiresAt <= cutoff && (f.revokedAt.Some? ==> f.revokedAt.value <= cutoff)
  }

  predicate GenerationsRetired(db: Db, chosen: set<Id>, cutoff: Time) {
    && (forall g :: g in chosen ==>
          && g in db.generations
          && db.generations[g].family in db.families
          && FamilyRetired(db.families[db.generations[g].family], cutoff))
    && (forall a :: a in db.accesses && db.accesses[a].sourceGeneration.Some? ==>
          db.accesses[a].sourceGeneration.value !in chosen)
  }

  /** DeleteRetiredRefreshTokens. */
  function DeleteGenerations(db: Db, chosen: set<Id>, cutoff: Time): (after: Db)
    ensures after.logouts == db.logouts && after.users == db.users
    ensures after.grants == db.grants
  {
    if GenerationsRetired(db, chosen, cutoff) then db.(generations := db.generations - chosen) else db
  }

  predicate FamiliesRetired(db: Db, chosen: set<Id>, cutoff: Time) {
    && (forall f :: f in chosen ==> f in db.families && FamilyRetired(db.families[f], cutoff))
    && (forall g :: g in db.generations ==> db.generations[g].family !in chosen)
    && (forall a :: a in db.accesses && db.accesses[a].family.Some? ==> db.accesses[a].family.value !in chosen)
  }

  /** DeleteRetiredRefreshTokenFamilies. */
  function DeleteFamilies(db: Db, chosen: set<Id>, cutoff: Time): (after: Db)
    ensures after.logouts == db.logouts && after.generations == db.generations && after.users == db.users
    ensures after.grants == db.grants
  {
    if FamiliesRetired(db, chosen, cutoff) then db.(families := db.families - chosen) else db
  }

  predicate SessionRetired(s: Session, cutoff: Time) {
    (s.revokedAt.Some? && s.revokedAt.value <= cutoff) || s.expiresAt <= cutoff || s.idleExpiresAt <= cutoff
  }

  predicate SessionsRetired(db: Db, chosen: set<Id>, cutoff: Time) {
    && (forall s :: s in chosen ==> s in db.sessions && SessionRetired(db.sessions[s], cutoff))
    && (forall l :: l in db.logouts && db.logouts[l].session.Some? ==> db.logouts[l].session.value !in chosen)
  }

  /** DeleteRetiredLoginSessions. */
  function DeleteSessions(db: Db, chosen: set<Id>, cutoff: Time): (after: Db)
    ensures after.logouts == db.logouts && after.generations == db.generations && after.users == db.users
    ensures after.grants == db.grants
  {
    if !SessionsRetired(db, chosen, cutoff) then db
    else
      db.(sessions := db.sessions - chosen,
          codes := map c | c in db.codes :: CodeOffSessions(db.codes[c], chosen),
          families := map f | f in db.families :: FamilyOffSessions(db.families[f], chosen),
          accesses := map a | a in db.accesses :: AccessOffSessions(db.accesses[a], chosen))
  }

  predicate LogoutsRetired(db: Db, chosen: set<Id>, now: Time, cutoff: Time) {
    forall l :: l in chosen ==>
      && l in db.logouts
      && (if db.logouts[l].consumedAt.None? then db.logouts[l].expiresAt <= now
          else db.logouts[l].consumedAt.value <= cutoff)
  }

  /** DeleteRetiredLogoutTransactions. */
  function DeleteLogouts(db: Db, chosen: set<Id>, now: Time, cutoff: Time): (after: Db)
    ensures after.generations == db.generations && after.users == db.users
    ensures after.grants == db.grants
  {
    if LogoutsRetired(db, chosen, now, cutoff) then db.(logouts := db.logouts - chosen) else db
  }

  predicate TransactionsRetired(db: Db, chosen: set<Id>, cutoff: Time) {
    && (forall t :: t in chosen ==>
          && t in db.transactions
          && db.transactions[t].consumedAt.Some? && db.transactions[t].consumedAt.value <= cutoff)
    && (forall c :: c in db.codes ==> db.codes[c].transaction !in chosen)
  }

  /** DeleteRetiredAuthTransactions. */
  function DeleteTransactions(db: Db, chosen: set<Id>, cutoff: Time): (after: Db)
    ensures after.logouts == db.logouts && after.generations == db.generations && after.users == db.users
    ensures after.grants == db.grants
  {
    if TransactionsRetired(db, chosen, cutoff) then db.(transactions := db.transactions - chosen) else db
  }
}
