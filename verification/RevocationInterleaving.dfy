/**
 RevokeToken also reads its candidate without a lock, lets arbitrary transactions commit, and then
 locks and re-reads the rows behind it one by one. Whatever runs in between, it refines one atomic
 revocation on the state in which it decides.
 */
module RevocationInterleaving {
  import opened Schema
  import opened TokenPolicy
  import opened Tokens
  import opened Revocation
  import opened Invariants
  import opened Interleaving
  import Introspection

  /** Where the call decided and what it left there. */
  datatype Withdrawal = Withdrawal(at: Db, after: Db)

  function Leaving(at: Db): Withdrawal {
    Withdrawal(at, at)
  }

  // ----- Access tokens -----

  /** The committed state at each read of revokeAccessCandidate, in order. */
  datatype AccessReads = AccessReads(candidate: Db, user: Db, client: Db, grant: Db, family: Db, last: Db)

  /** Locks on the user, the client and the grant named by the candidate row. */
  function LockOwners(r: AccessReads, id: Id, a: Access, caller: Caller, jti: Digest, now: Time): Withdrawal {
    var key := GrantKey(a.user, a.client);
    if a.user !in r.user.users || r.user.users[a.user].status != Active then Leaving(r.user)
    else if a.client !in r.client.clients || !SameClient(a.client, r.client.clients[a.client], caller) then
      Leaving(r.client)
    else if key !in r.grant.grants || r.grant.grants[key].id != a.grant || r.grant.grants[key].revokedAt.Some? ||
            !(a.scopes <= r.grant.grants[key].scopes * r.client.clients[a.client].scopes) then Leaving(r.grant)
    else LockRow(r, id, a, caller, jti, now)
  }

  predicate FamilyStands(f: Family, a: Access, now: Time) {
    && f.revokedAt.None? && now < f.absoluteExpiresAt
    && f.user == a.user && f.client == a.client && f.grant == a.grant && a.scopes <= f.scopes
  }

  /** Locks on the family, if the candidate has one, and on the access row, then the decision. */
  function LockRow(r: AccessReads, id: Id, a: Access, caller: Caller, jti: Digest, now: Time): Withdrawal {
    if a.family.Some? &&
       (a.family.value !in r.family.families || !FamilyStands(r.family.families[a.family.value], a, now))
    then Leaving(r.family)
    else if id !in r.last.accesses then Leaving(r.last)
    else
      var row := r.last.accesses[id];
      if row.client != caller.id || row.revokedAt.Some? || row.expiresAt <= now || row.jtiHash != jti then
        Leaving(r.last)
      else
        Withdrawal(r.last, r.last.(accesses := r.last.accesses[id := row.(revokedAt := Some(now))]))
  }

  /** Each read follows the one before it, and a locked row stays as it was read. */
  ghost predicate AccessSchedule(r: AccessReads, a: Access) {
    && (exists t :: Inv(r.candidate, t))
    && Later(r.candidate, r.user) && Later(r.user, r.client) && Later(r.client, r.grant)
    && Later(r.grant, r.family) && Later(r.family, r.last)
    && OwnersHeld(r, a)
  }

  ghost predicate OwnersHeld(r: AccessReads, a: Access) {
    var u, cl, key := a.user, a.client, GrantKey(a.user, a.client);
    && (u in r.user.users ==> u in r.last.users && r.last.users[u] == r.user.users[u])
    && (cl in r.client.clients ==>
          && cl in r.grant.clients && r.grant.clients[cl] == r.client.clients[cl]
          && cl in r.last.clients && r.last.clients[cl] == r.client.clients[cl])
    && (key in r.grant.grants ==> key in r.last.grants && r.last.grants[key] == r.grant.grants[key])
    && (a.family.Some? && a.family.value in r.family.families ==>
          && a.family.value in r.last.families
          && r.last.families[a.family.value] == r.family.families[a.family.value])
  }

  /** A row is the candidate in everything that never changes. */
  predicate SameRow(row: Access, a: Access) {
    && row.jtiHash == a.jtiHash && row.user == a.user && row.client == a.client && row.grant == a.grant
    && row.scopes == a.scopes && row.family == a.family
  }

  /** What a state following the candidate read can show: the digest names that row or nothing. */
  ghost predicate Shows(s: Db, jti: Digest, id: Id, a: Access) {
    var found := FindAccess(s.accesses, jti);
    && (found.Some? ==> found.value == id)
    && (id in s.accesses ==> found == Some(id) && SameRow(s.accesses[id], a))
  }

  lemma AccessHashUsed(db: Db, t: Time, id: Id)
    requires Inv(db, t) && id in db.accesses
    ensures db.accesses[id].jtiHash in db.usedHashes && id in db.usedIds
    ensures forall b :: b in db.accesses && db.accesses[b].jtiHash == db.accesses[id].jtiHash ==> b == id
  {
    hide ClientsOk, GrantsOk, CodesOk, TransactionsOk, FamiliesOk, FamilyCodesOk, LiveFamiliesOk, GenerationsOk;
    hide ChainsOk, AccessCodesOk, AccessFamiliesOk, AccessSourcesOk, LiveAccessesOk, SessionsOk, LogoutsOk, AccessOk;
    hide GrantIdsFresh, BindingsFresh, CodeHashesFresh, GenerationHashesFresh, SessionHashesFresh, LogoutHashesFresh;
  }

  lemma LaterShows(a: Db, s: Db, jti: Digest, id: Id)
    requires (exists t :: Inv(a, t)) && Later(a, s) && id in a.accesses && a.accesses[id].jtiHash == jti
    ensures Shows(s, jti, id, a.accesses[id])
  {
    hide Inv, UsersStable, ClientsStable, GrantsStable, TransactionsStable, CodesStable, FamiliesStable;
    hide GenerationsStable, SessionsStable, LogoutsStable;
    var t :| Inv(a, t);
    AccessHashUsed(a, t, id);
    var found := FindAccess(s.accesses, jti);
    if found.Some? && found.value in a.accesses { assert AccessKept(a.accesses[found.value], s.accesses[found.value]); }
    if id in s.accesses { assert AccessKept(a.accesses[id], s.accesses[id]); }
  }

  /** Without a revocable row under the digest, an atomic revocation changes nothing. */
  lemma NothingToRevoke(s: Db, jti: Digest, id: Id, a: Access, caller: Caller, now: Time)
    requires Shows(s, jti, id, a) && (id in s.accesses ==> !AccessRevocable(s, s.accesses[id], caller, now))
    ensures RevokeAccessToken(s, caller, jti, now) == s
  {
    hide AccessRevocable;
  }

  lemma RowRefines(r: AccessReads, id: Id, a: Access, caller: Caller, jti: Digest, now: Time)
    requires OwnersHeld(r, a) && Shows(r.family, jti, id, a) && Shows(r.last, jti, id, a) && a.jtiHash == jti
    requires a.user in r.user.users && r.user.users[a.user].status == Active
    requires a.client in r.client.clients && SameClient(a.client, r.client.clients[a.client], caller)
    requires var key := GrantKey(a.user, a.client);
      && key in r.grant.grants && r.grant.grants[key].id == a.grant && r.grant.grants[key].revokedAt.None?
      && a.scopes <= r.grant.grants[key].scopes * r.client.clients[a.client].scopes
    ensures var w := LockRow(r, id, a, caller, jti, now); RevokeAccessToken(w.at, caller, jti, now) == w.after
  {
    hide ValidProfile;
    var w := LockRow(r, id, a, caller, jti, now);
    if w.at == r.family && w.after == w.at && a.family.Some? &&
       (a.family.value !in r.family.families || !FamilyStands(r.family.families[a.family.value], a, now)) {
      NothingToRevoke(r.family, jti, id, a, caller, now);
    } else if id in r.last.accesses && AccessRevocable(r.last, r.last.accesses[id], caller, now) {
      assert FindAccess(r.last.accesses, jti) == Some(id);
    } else {
      NothingToRevoke(r.last, jti, id, a, caller, now);
    }
  }

  lemma OwnersRefine(r: AccessReads, id: Id, a: Access, caller: Caller, jti: Digest, now: Time)
    requires OwnersHeld(r, a) && a.jtiHash == jti
    requires Shows(r.user, jti, id, a) && Shows(r.client, jti, id, a) && Shows(r.grant, jti, id, a)
    requires Shows(r.family, jti, id, a) && Shows(r.last, jti, id, a)
    ensures var w := LockOwners(r, id, a, caller, jti, now); RevokeAccessToken(w.at, caller, jti, now) == w.after
  {
    hide SameClient, LockRow, RevokeAccessToken, FindAccess;
    var key := GrantKey(a.user, a.client);
    if a.user !in r.user.users || r.user.users[a.user].status != Active {
      NothingToRevoke(r.user, jti, id, a, caller, now);
    } else if a.client !in r.client.clients || !SameClient(a.client, r.client.clients[a.client], caller) {
      NothingToRevoke(r.client, jti, id, a, caller, now);
    } else if key !in r.grant.grants || r.grant.grants[key].id != a.grant || r.grant.grants[key].revokedAt.Some? ||
              !(a.scopes <= r.grant.grants[key].scopes * r.client.clients[a.client].scopes) {
      NothingToRevoke(r.grant, jti, id, a, caller, now);
    } else {
      RowRefines(r, id, a, caller, jti, now);
    }
  }

  /** revokeAccessCandidate is one atomic revocation of the access row, where it decides. */
  lemma AccessPathIsAtomic(r: AccessReads, id: Id, caller: Caller, jti: Digest, now: Time)
    requires FindAccess(r.candidate.accesses, jti) == Some(id) && AccessSchedule(r, r.candidate.accesses[id])
    ensures var w := LockOwners(r, id, r.candidate.accesses[id], caller, jti, now);
      && RevokeAccessToken(w.at, caller, jti, now) == w.after
      && w.at in {r.user, r.client, r.grant, r.family, r.last} && (w.after != w.at ==> w.at == r.last)
  {
    hide Inv, Stable, Shows, OwnersHeld, SameClient, RevokeAccessToken;
    LaterTrans(r.candidate, r.user, r.client);
    LaterTrans(r.candidate, r.client, r.grant);
    LaterTrans(r.candidate, r.grant, r.family);
    LaterTrans(r.candidate, r.family, r.last);
    LaterShows(r.candidate, r.user, jti, id);
    LaterShows(r.candidate, r.client, jti, id);
    LaterShows(r.candidate, r.grant, jti, id);
    LaterShows(r.candidate, r.family, jti, id);
    LaterShows(r.candidate, r.last, jti, id);
    OwnersRefine(r, id, r.candidate.accesses[id], caller, jti, now);
  }

  // ----- Refresh tokens -----

  /** revokeRefreshCandidate, over the same sequence of reads as a refresh. */
  ghost function RefreshPath(r: Reads, caller: Caller, hash: Digest, now: Time): Withdrawal {
    var found := FindGeneration(r.candidate.generations, hash);
    if found.None? then Leaving(r.candidate)
    else
      var g, f := found.value, r.candidate.generations[found.value].family;
      if f !in r.family.families then Leaving(r.family)
      else LockFamilyOwners(r, g, f, r.family.families[f], caller, hash, now)
  }

  function LockFamilyOwners(r: Reads, g: Id, f: Id, candidate: Family, caller: Caller, hash: Digest, now: Time)
    : Withdrawal
  {
    var key := GrantKey(candidate.user, candidate.client);
    if candidate.user !in r.user.users || r.user.users[candidate.user].status != Active then Leaving(r.user)
    else if candidate.client !in r.client.clients ||
            !SameClient(candidate.client, r.client.clients[candidate.client], caller) then Leaving(r.client)
    else if key !in r.grant.grants || r.grant.grants[key].id != candidate.grant ||
            r.grant.grants[key].revokedAt.Some? then Leaving(r.grant)
    else LockFamily(r, g, f, candidate, hash, now)
  }

  function LockFamily(r: Reads, g: Id, f: Id, candidate: Family, hash: Digest, now: Time): Withdrawal {
    if f !in r.locked.families then Leaving(r.locked)
    else
      var family := r.locked.families[f];
      if family.revokedAt.Some? || family.absoluteExpiresAt <= now || family.user != candidate.user ||
         family.client != candidate.client || family.grant != candidate.grant then Leaving(r.locked)
      else if g !in r.last.generations then Leaving(r.last)
      else if r.last.generations[g].family != f || r.last.generations[g].hash != hash then Leaving(r.last)
      else Withdrawal(r.last, Cascade(r.last, OfFamily(f), now))
  }

  /** What is asked of a state about a refresh token, as for a refresh. */
  function Asked(hash: Digest, caller: Caller): RefreshInput {
    RefreshInput(hash, caller, None)
  }

  lemma NoFamilyToRevoke(s: Db, g: Id, f: Id, candidate: Family, caller: Caller, hash: Digest, now: Time)
    requires Consistent(s, Asked(hash, caller), g, f, candidate)
    requires g in s.generations ==> !RefreshRevocable(s, s.families[f], caller, now)
    ensures RevokeRefreshToken(s, caller, hash, now) == s
  {
    hide RefreshRevocable, Cascade;
  }

  lemma FamilyRefines(r: Reads, g: Id, f: Id, candidate: Family, caller: Caller, hash: Digest, now: Time)
    requires f in r.family.families && candidate == r.family.families[f] && LocksHeld(r, f, candidate)
    requires Consistent(r.locked, Asked(hash, caller), g, f, candidate)
    requires Consistent(r.last, Asked(hash, caller), g, f, candidate)
    requires candidate.user in r.user.users && r.user.users[candidate.user].status == Active
    requires candidate.client in r.client.clients
    requires SameClient(candidate.client, r.client.clients[candidate.client], caller)
    requires var key := GrantKey(candidate.user, candidate.client);
      key in r.grant.grants && r.grant.grants[key].id == candidate.grant && r.grant.grants[key].revokedAt.None?
    ensures var w := LockFamily(r, g, f, candidate, hash, now); RevokeRefreshToken(w.at, caller, hash, now) == w.after
  {
    hide SameClient, Cascade;
    if f in r.locked.families && r.locked.families[f].revokedAt.None? && now < r.locked.families[f].absoluteExpiresAt {
      if g in r.last.generations {
        assert RefreshRevocable(r.last, r.last.families[f], caller, now);
      } else {
        NoFamilyToRevoke(r.last, g, f, candidate, caller, hash, now);
      }
    } else {
      NoFamilyToRevoke(r.locked, g, f, candidate, caller, hash, now);
    }
  }

  lemma FamilyOwnersRefine(r: Reads, g: Id, f: Id, candidate: Family, caller: Caller, hash: Digest, now: Time)
    requires f in r.family.families && candidate == r.family.families[f] && LocksHeld(r, f, candidate)
    requires Consistent(r.user, Asked(hash, caller), g, f, candidate)
    requires Consistent(r.client, Asked(hash, caller), g, f, candidate)
    requires Consistent(r.grant, Asked(hash, caller), g, f, candidate)
    requires Consistent(r.locked, Asked(hash, caller), g, f, candidate)
    requires Consistent(r.last, Asked(hash, caller), g, f, candidate)
    ensures var w := LockFamilyOwners(r, g, f, candidate, caller, hash, now);
      RevokeRefreshToken(w.at, caller, hash, now) == w.after
  {
    hide SameClient, LockFamily, RevokeRefreshToken, LocksHeld;
    var key := GrantKey(candidate.user, candidate.client);
    if candidate.user !in r.user.users || r.user.users[candidate.user].status != Active {
      NoFamilyToRevoke(r.user, g, f, candidate, caller, hash, now);
    } else if candidate.client !in r.client.clients ||
              !SameClient(candidate.client, r.client.clients[candidate.client], caller) {
      NoFamilyToRevoke(r.client, g, f, candidate, caller, hash, now);
    } else if key !in r.grant.grants || r.grant.grants[key].id != candidate.grant ||
              r.grant.grants[key].revokedAt.Some? {
      NoFamilyToRevoke(r.grant, g, f, candidate, caller, hash, now);
    } else {
      FamilyRefines(r, g, f, candidate, caller, hash, now);
    }
  }

  lemma GoneFamilyStays(a: Db, s: Db, g: Id, f: Id, caller: Caller, hash: Digest, now: Time)
    requires (exists t :: Inv(a, t)) && Later(a, s) && f !in s.families
    requires g in a.generations && a.generations[g].hash == hash && a.generations[g].family == f
    ensures RevokeRefreshToken(s, caller, hash, now) == s
  {
    hide Inv, Cascade, RefreshRevocable, UsersStable, ClientsStable, GrantsStable, TransactionsStable, CodesStable;
    hide FamiliesStable, AccessesStable, SessionsStable, LogoutsStable;
    var t :| Inv(a, t);
    HashNamesSame(a, t, s, g, hash);
  }

  lemma RefreshPathDecides(r: Reads, caller: Caller, hash: Digest, now: Time)
    ensures var w := RefreshPath(r, caller, hash, now);
      && w.at in {r.candidate, r.family, r.user, r.client, r.grant, r.locked, r.last}
      && (w.after != w.at ==> w.at == r.last)
  {
    hide SameClient, Cascade;
  }

  /** revokeRefreshCandidate is one atomic revocation of the family, where it decides. */
  lemma RefreshPathIsAtomic(r: Reads, caller: Caller, hash: Digest, now: Time)
    requires Schedule(r, CandidateFamily(r, Asked(hash, caller)))
    ensures var w := RefreshPath(r, caller, hash, now);
      && RevokeRefreshToken(w.at, caller, hash, now) == w.after
      && w.at in {r.candidate, r.family, r.user, r.client, r.grant, r.locked, r.last}
      && (w.after != w.at ==> w.at == r.last)
  {
    hide Inv, Stable, Consistent, LocksHeld, SameClient, LockFamilyOwners;
    RefreshPathDecides(r, caller, hash, now);
    var x := Asked(hash, caller);
    var found := FindGeneration(r.candidate.generations, hash);
    if found.Some? {
      var g, f := found.value, r.candidate.generations[found.value].family;
      AllLater(r, f);
      if f !in r.family.families {
        GoneFamilyStays(r.candidate, r.family, g, f, caller, hash, now);
      } else {
        hide RevokeRefreshToken;
        LaterIsConsistent(r.candidate, r.family, r.user, x, g, f);
        LaterIsConsistent(r.candidate, r.family, r.client, x, g, f);
        LaterIsConsistent(r.candidate, r.family, r.grant, x, g, f);
        LaterIsConsistent(r.candidate, r.family, r.locked, x, g, f);
        LaterIsConsistent(r.candidate, r.family, r.last, x, g, f);
        FamilyOwnersRefine(r, g, f, r.family.families[f], caller, hash, now);
      }
    }
  }

  // ----- The whole call -----

  /** The reads on the path of an access row, and on the path of a generation that follows a miss there. */
  datatype RevokeReads = RevokeReads(access: AccessReads, refresh: Reads)

  ghost predicate TakesAccess(r: RevokeReads, jti: Option<Digest>) {
    jti.Some? && FindAccess(r.access.candidate.accesses, jti.value).Some?
  }

  /** RevokeToken, each row taken from the state in which the code reads it. */
  ghost function InterleavedRevocation(r: RevokeReads, caller: Caller, jti: Option<Digest>, refresh: Option<Digest>,
                                       now: Time): Withdrawal
  {
    if caller.id == NIL || now == 0 then Leaving(r.access.candidate)
    else if TakesAccess(r, jti) then
      var id := FindAccess(r.access.candidate.accesses, jti.value).value;
      LockOwners(r.access, id, r.access.candidate.accesses[id], caller, jti.value, now)
    else if refresh.Some? then RefreshPath(r.refresh, caller, refresh.value, now)
    else Leaving(r.access.candidate)
  }

  ghost predicate RevokeSchedule(r: RevokeReads, caller: Caller, jti: Option<Digest>, refresh: Option<Digest>) {
    if TakesAccess(r, jti) then
      var id := FindAccess(r.access.candidate.accesses, jti.value).value;
      AccessSchedule(r.access, r.access.candidate.accesses[id])
    else refresh.Some? ==> Schedule(r.refresh, CandidateFamily(r.refresh, Asked(refresh.value, caller)))
  }

  /**
   Refinement: under any schedule of other transactions that respects the row locks, the call leaves exactly
   what one atomic revocation of the row it found would, in the state where it decides. A lookup with one digest
   refines RevokeToken itself.
   */
  lemma RevocationIsAtomic(r: RevokeReads, caller: Caller, jti: Option<Digest>, refresh: Option<Digest>, now: Time)
    requires RevokeSchedule(r, caller, jti, refresh)
    ensures var w := InterleavedRevocation(r, caller, jti, refresh, now);
      && w.after == (if TakesAccess(r, jti) then RevokeToken(w.at, caller, jti, None, now)
                     else RevokeToken(w.at, caller, None, refresh, now))
      && (jti.None? || refresh.None? ==> w.after == RevokeToken(w.at, caller, jti, refresh, now))
      && (w.after != w.at ==> w.at == if TakesAccess(r, jti) then r.access.last else r.refresh.last)
  {
    hide AccessSchedule, Schedule, LockOwners, RefreshPath, RevokeAccessToken, RevokeRefreshToken;
    if caller.id != NIL && now != 0 {
      if TakesAccess(r, jti) {
        var id := FindAccess(r.access.candidate.accesses, jti.value).value;
        AccessPathIsAtomic(r.access, id, caller, jti.value, now);
        MissChangesNothing(LockOwners(r.access, id, r.access.candidate.accesses[id], caller, jti.value, now).at,
                           caller, jti.value, now);
      } else if refresh.Some? {
        RefreshPathIsAtomic(r.refresh, caller, refresh.value, now);
      }
    }
  }

  lemma MissChangesNothing(s: Db, caller: Caller, jti: Digest, now: Time)
    ensures FindAccess(s.accesses, jti).None? ==> RevokeAccessToken(s, caller, jti, now) == s
  {
  }

  /** Whatever text a client presents, its lookup has at most one digest, so its revocation is atomic. */
  lemma PresentedRevocationIsAtomic(r: RevokeReads, c: Config, jose: string -> Option<AccessClaims>, token: string,
                                    caller: Caller, now: Time)
    requires var claims, refresh := Introspection.VerifyAccess(c, jose, token, now), DigestPresented(token);
      RevokeSchedule(r, caller, if claims.Some? then Some(HashJti(claims.value.jti)) else None, refresh)
    ensures var claims, refresh := Introspection.VerifyAccess(c, jose, token, now), DigestPresented(token);
      var jti := if claims.Some? then Some(HashJti(claims.value.jti)) else None;
      var w := InterleavedRevocation(r, caller, jti, refresh, now);
      w.after == RevokeToken(w.at, caller, jti, refresh, now)
  {
    hide RevokeSchedule, InterleavedRevocation, RevokeToken, Introspection.VerifyAccess, DigestPresented, HashJti;
    var claims := Introspection.VerifyAccess(c, jose, token, now);
    Introspection.GrammarsDisjoint(c, jose, token, now);
    RevocationIsAtomic(r, caller, if claims.Some? then Some(HashJti(claims.value.jti)) else None,
                       DigestPresented(token), now);
  }
}
