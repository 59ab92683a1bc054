/**
 Retention cleanup, exactly: when a batch may be deleted, that the batch and nothing else goes, and what the
 rows that stay lose.
 */
module CleanupExact {
  import opened Schema
  import opened Cleanup

  /** The reference is kept, or set to null because its row is gone. */
  predicate Loses(before: Option<Id>, after: Option<Id>, gone: set<Id>) {
    after == if before.Some? && before.value in gone then None else before
  }

  predicate CodeLeft(before: Code, after: Code, sessions: set<Id>) {
    && Loses(before.originSession, after.originSession, sessions)
    && after == before.(originSession := after.originSession)
  }

  predicate FamilyLeft(before: Family, after: Family, codes: set<Id>, sessions: set<Id>) {
    && Loses(before.originCode, after.originCode, codes) && Loses(before.originSession, after.originSession, sessions)
    && after == before.(originCode := after.originCode, originSession := after.originSession)
  }

  predicate AccessLeft(before: Access, after: Access, codes: set<Id>, sessions: set<Id>) {
    && Loses(before.code, after.code, codes) && Loses(before.originSession, after.originSession, sessions)
    && after == before.(code := after.code, originSession := after.originSession)
  }

  lemma CodeOff(c: Code, gone: set<Id>)
    ensures CodeLeft(c, CodeOffSessions(c, gone), gone)
  {
  }

  lemma FamilyOff(f: Family, gone: set<Id>)
    ensures FamilyLeft(f, FamilyOffCodes(f, gone), gone, {}) && FamilyLeft(f, FamilyOffSessions(f, gone), {}, gone)
  {
  }

  lemma AccessOff(a: Access, gone: set<Id>)
    ensures AccessLeft(a, AccessOffCodes(a, gone), gone, {}) && AccessLeft(a, AccessOffSessions(a, gone), {}, gone)
  {
  }

  ghost predicate FamiliesLeft(before: map<Id, Family>, after: map<Id, Family>, codes: set<Id>, sessions: set<Id>) {
    after.Keys == before.Keys && forall f :: f in before ==> FamilyLeft(before[f], after[f], codes, sessions)
  }

  ghost predicate AccessesLeft(before: map<Id, Access>, after: map<Id, Access>, codes: set<Id>, sessions: set<Id>) {
    after.Keys == before.Keys && forall a :: a in before ==> AccessLeft(before[a], after[a], codes, sessions)
  }

  ghost predicate CodesLeft(before: map<Id, Code>, after: map<Id, Code>, sessions: set<Id>) {
    after.Keys == before.Keys && forall c :: c in before ==> CodeLeft(before[c], after[c], sessions)
  }

  lemma OffCodes(db: Db, gone: set<Id>)
    ensures FamiliesLeft(db.families, map f | f in db.families :: FamilyOffCodes(db.families[f], gone), gone, {})
    ensures AccessesLeft(db.accesses, map a | a in db.accesses :: AccessOffCodes(db.accesses[a], gone), gone, {})
  {
    hide FamilyLeft, AccessLeft, FamilyOffCodes, AccessOffCodes;
    forall f | f in db.families
      ensures FamilyLeft(db.families[f], FamilyOffCodes(db.families[f], gone), gone, {})
    {
      FamilyOff(db.families[f], gone);
    }
    forall a | a in db.accesses
      ensures AccessLeft(db.accesses[a], AccessOffCodes(db.accesses[a], gone), gone, {})
    {
      AccessOff(db.accesses[a], gone);
    }
  }

  lemma OffSessions(db: Db, gone: set<Id>)
    ensures CodesLeft(db.codes, map c | c in db.codes :: CodeOffSessions(db.codes[c], gone), gone)
    ensures FamiliesLeft(db.families, map f | f in db.families :: FamilyOffSessions(db.families[f], gone), {}, gone)
    ensures AccessesLeft(db.accesses, map a | a in db.accesses :: AccessOffSessions(db.accesses[a], gone), {}, gone)
  {
    hide CodeLeft, FamilyLeft, AccessLeft, CodeOffSessions, FamilyOffSessions, AccessOffSessions;
    forall c | c in db.codes
      ensures CodeLeft(db.codes[c], CodeOffSessions(db.codes[c], gone), gone)
    {
      CodeOff(db.codes[c], gone);
    }
    forall f | f in db.families
      ensures FamilyLeft(db.families[f], FamilyOffSessions(db.families[f], gone), {}, gone)
    {
      FamilyOff(db.families[f], gone);
    }
    forall a | a in db.accesses
      ensures AccessLeft(db.accesses[a], AccessOffSessions(db.accesses[a], gone), {}, gone)
    {
      AccessOff(db.accesses[a], gone);
    }
  }

  // ----- Table by table -----

  /** Codes go once expired; families and access rows only lose their reference to them. */
  lemma DeleteCodesExact(db: Db, chosen: set<Id>, cutoff: Time)
    ensures var after := DeleteCodes(db, chosen, cutoff);
      if forall c :: c in chosen ==> c in db.codes && db.codes[c].expiresAt <= cutoff then
        && after == db.(codes := db.codes - chosen, families := after.families, accesses := after.accesses)
        && FamiliesLeft(db.families, after.families, chosen, {})
        && AccessesLeft(db.accesses, after.accesses, chosen, {})
      else after == db
  {
    hide FamiliesLeft, AccessesLeft, FamilyOffCodes, AccessOffCodes;
    OffCodes(db, chosen);
  }

  /** Access rows go once expired. */
  lemma DeleteAccessesExact(db: Db, chosen: set<Id>, cutoff: Time)
    ensures DeleteAccesses(db, chosen, cutoff) ==
            if forall a :: a in chosen ==> a in db.accesses && db.accesses[a].expiresAt <= cutoff then
              db.(accesses := db.accesses - chosen)
            else db
  {
  }

  /** The family can no longer be used, and its revocation is no longer evidence. */
  predicate Over(f: Family, cutoff: Time) {
    f.absoluteExpiresAt <= cutoff && (f.revokedAt.Some? ==> f.revokedAt.value <= cutoff)
  }

  /** Generations go with a family that is over, unless an access row was minted from one of them. */
  lemma DeleteGenerationsExact(db: Db, chosen: set<Id>, cutoff: Time)
    ensures DeleteGenerations(db, chosen, cutoff) ==
            if (forall g :: g in chosen ==>
                  && g in db.generations && db.generations[g].family in db.families
                  && Over(db.families[db.generations[g].family], cutoff)) &&
               (forall a, g :: a in db.accesses && g in chosen ==> db.accesses[a].sourceGeneration != Some(g))
            then db.(generations := db.generations - chosen)
            else db
  {
  }

  /** Families go once they are over and no generation and no access row is left of them. */
  lemma DeleteFamiliesExact(db: Db, chosen: set<Id>, cutoff: Time)
    ensures DeleteFamilies(db, chosen, cutoff) ==
            if (forall f :: f in chosen ==> f in db.families && Over(db.families[f], cutoff)) &&
               (forall g :: g in db.generations ==> db.generations[g].family !in chosen) &&
               (forall a, f :: a in db.accesses && f in chosen ==> db.accesses[a].family != Some(f))
            then db.(families := db.families - chosen)
            else db
  {
  }

  predicate Past(s: Session, cutoff: Time) {
    s.expiresAt <= cutoff || s.idleExpiresAt <= cutoff || (s.revokedAt.Some? && s.revokedAt.value <= cutoff)
  }

  /** Sessions go once past, unless a logout names one; what refers to them only loses the reference. */
  lemma DeleteSessionsExact(db: Db, chosen: set<Id>, cutoff: Time)
    ensures var after := DeleteSessions(db, chosen, cutoff);
      if (forall s :: s in chosen ==> s in db.sessions && Past(db.sessions[s], cutoff)) &&
         (forall l, s :: l in db.logouts && s in chosen ==> db.logouts[l].session != Some(s))
      then
        && after == db.(sessions := db.sessions - chosen, codes := after.codes, families := after.families,
                        accesses := after.accesses)
        && CodesLeft(db.codes, after.codes, chosen)
        && FamiliesLeft(db.families, after.families, {}, chosen)
        && AccessesLeft(db.accesses, after.accesses, {}, chosen)
      else after == db
  {
    hide CodesLeft, FamiliesLeft, AccessesLeft, CodeOffSessions, FamilyOffSessions, AccessOffSessions, SessionsRetired;
    SessionsMayGo(db, chosen, cutoff);
    OffSessions(db, chosen);
  }

  lemma SessionsMayGo(db: Db, chosen: set<Id>, cutoff: Time)
    ensures SessionsRetired(db, chosen, cutoff) <==>
            && (forall s :: s in chosen ==> s in db.sessions && Past(db.sessions[s], cutoff))
            && (forall l, s :: l in db.logouts && s in chosen ==> db.logouts[l].session != Some(s))
  {
  }

  /** A decided logout goes after the retention period, an undecided one once it has expired. */
  lemma DeleteLogoutsExact(db: Db, chosen: set<Id>, now: Time, cutoff: Time)
    ensures DeleteLogouts(db, chosen, now, cutoff) ==
            if forall l :: l in chosen ==>
                 && l in db.logouts
                 && (db.logouts[l].consumedAt.Some? ==> db.logouts[l].consumedAt.value <= cutoff)
                 && (db.logouts[l].consumedAt.None? ==> db.logouts[l].expiresAt <= now)
            then db.(logouts := db.logouts - chosen)
            else db
  {
  }

  /** Authorization transactions go once they ended long enough ago and no code names them. */
  lemma DeleteTransactionsExact(db: Db, chosen: set<Id>, cutoff: Time)
    ensures DeleteTransactions(db, chosen, cutoff) ==
            if (forall t :: t in chosen ==>
                  && t in db.transactions && db.transactions[t].consumedAt.Some?
                  && db.transactions[t].consumedAt.value <= cutoff) &&
               (forall c :: c in db.codes ==> db.codes[c].transaction !in chosen)
            then db.(transactions := db.transactions - chosen)
            else db
  {
  }
}
