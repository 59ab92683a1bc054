/**
 ExchangeRefreshToken reads its candidate rows without locks, lets arbitrary transactions
 commit, and then locks and re-reads user, client, grant, family and generation one by one.
 Whatever runs in between, it refines one atomic refresh on the state in which it decides.
 */
module Interleaving {
  import opened Schema
  import opened TokenPolicy
  import opened Tokens
  import opened Revocation
  import opened Invariants
  import TokenProofs

  /** The committed state at each read of one call, in order. */
  datatype Reads = Reads(candidate: Db, family: Db, user: Db, client: Db, grant: Db, locked: Db, last: Db)

  /** Where the call decided, what it left there, and what it answered. */
  datatype Decision = Decision(at: Db, after: Db, outcome: RefreshOutcome)

  function Refusing(at: Db): Decision {
    Decision(at, at, Refused(InvalidGrant))
  }

  /** ExchangeRefreshToken, each row taken from the state in which the code reads it. */
  ghost function Interleaved(r: Reads, c: Config, x: RefreshInput, d: RefreshDraws, now: Time): Decision {
    var found := FindGeneration(r.candidate.generations, x.hash);
    if x.caller.id == NIL || now == 0 || found.None? then Refusing(r.candidate)
    else
      var g, f := found.value, r.candidate.generations[found.value].family;
      if f !in r.family.families then Refusing(r.family)
      else LockAccounts(r, c, g, f, r.family.families[f], x, d, now)
  }

  /** Locks on the user, the client and the grant named by the candidate family. */
  function LockAccounts(r: Reads, c: Config, g: Id, f: Id, candidate: Family, x: RefreshInput, d: RefreshDraws,
                        now: Time)
    : Decision
  {
    var key := GrantKey(candidate.user, candidate.client);
    if candidate.user !in r.user.users || r.user.users[candidate.user].status != Active then Refusing(r.user)
    else if candidate.client !in r.client.clients ||
            !SameClient(candidate.client, r.client.clients[candidate.client], x.caller) then Refusing(r.client)
    else if key !in r.grant.grants || r.grant.grants[key].id != candidate.grant ||
            r.grant.grants[key].revokedAt.Some? ||
            r.grant.grants[key].version < 1 then Refusing(r.grant)
    else LockTokens(r, c, g, f, candidate, x, d, now)
  }

  /** Locks on the family and the presented generation, then the decision. */
  function LockTokens(r: Reads, c: Config, g: Id, f: Id, candidate: Family, x: RefreshInput, d: RefreshDraws, now: Time)
    : Decision
    requires candidate.user in r.user.users && candidate.client in r.client.clients
    requires GrantKey(candidate.user, candidate.client) in r.grant.grants
  {
    if f !in r.locked.families then Refusing(r.locked)
    else
      var family := r.locked.families[f];
      if family.user != candidate.user || family.client != candidate.client || family.grant != candidate.grant ||
         family.revokedAt.Some? || family.absoluteExpiresAt <= now then Refusing(r.locked)
      else if g !in r.last.generations then Refusing(r.last)
      else if r.last.generations[g].family != f || r.last.generations[g].hash != x.hash then Refusing(r.last)
      else Decide(r, c, g, f, family, x, d, now)
  }

  /** The rows the decision uses, all of them locked. */
  function Decide(r: Reads, c: Config, g: Id, f: Id, family: Family, x: RefreshInput, d: RefreshDraws, now: Time)
    : Decision
    requires g in r.last.generations && r.last.generations[g].family == f
    requires family.user in r.user.users && family.client in r.client.clients
    requires GrantKey(family.user, family.client) in r.grant.grants
  {
    var presented := r.last.generations[g];
    var key := GrantKey(family.user, family.client);
    if presented.consumedAt.Some? then Decision(r.last, Cascade(r.last, OfFamily(f), now), Reused)
    else if presented.expiresAt <= now then Refusing(r.last)
    else if f !in r.last.families then Refusing(r.last) // excluded by the lock on the family row
    else
      var selected := SelectScopes(x.requested, family.scopes, r.grant.grants[key].scopes,
                                   r.client.clients[family.client].scopes);
      if selected.Err? then Decision(r.last, r.last, Refused(selected.error))
      else
        var authority := RefreshAuthority(g, presented, f, family, r.grant.grants[key], family.user,
                                          r.user.users[family.user],
                                          family.client, r.client.clients[family.client], selected.value, now);
        var minted := MintRefresh(c, authority, d);
        if minted.Err? then Decision(r.last, r.last, Refused(minted.error))
        else if !ValidRefreshMinted(minted.value, g, presented, family, now) then
          Decision(r.last, r.last, Refused(InvalidOperation))
        else if !RefreshMintedFresh(r.last, minted.value, f, g, presented.number + 1) then
          Decision(r.last, r.last, Refused(StorageFailure))
        else Decision(r.last, StoreRotation(r.last, g, selected.value, minted.value, now),
                      Rotated(RefreshResponse(minted.value, selected.value)))
  }

  // ----- What other transactions may do meanwhile -----

  /** A state reached from another by committed transactions. */
  ghost predicate Later(a: Db, b: Db) {
    (exists t :: Inv(b, t)) && Stable(a, b)
  }

  /** Each read follows the one before it, and a locked row stays as it was read. */
  ghost predicate Schedule(r: Reads, f: Id) {
    && (exists t :: Inv(r.candidate, t))
    && Later(r.candidate, r.family) && Later(r.family, r.user) && Later(r.user, r.client)
    && Later(r.client, r.grant) && Later(r.grant, r.locked) && Later(r.locked, r.last)
    && (f in r.family.families ==> LocksHeld(r, f, r.family.families[f]))
  }

  ghost predicate LocksHeld(r: Reads, f: Id, candidate: Family) {
    var u, cl, key := candidate.user, candidate.client, GrantKey(candidate.user, candidate.client);
    && (u in r.user.users ==> u in r.last.users && r.last.users[u] == r.user.users[u])
    && (cl in r.client.clients ==> cl in r.last.clients && r.last.clients[cl] == r.client.clients[cl])
    && (key in r.grant.grants ==> key in r.last.grants && r.last.grants[key] == r.grant.grants[key])
    && (f in r.locked.families ==> f in r.last.families && r.last.families[f] == r.locked.families[f])
  }

  /** A digest seen before names the same generation later, if any. */
  lemma HashNamesSame(a: Db, t: Time, b: Db, g: Id, hash: Digest)
    requires Inv(a, t) && Stable(a, b) && g in a.generations && a.generations[g].hash == hash
    ensures FindGeneration(b.generations, hash).Some? ==> FindGeneration(b.generations, hash).value == g
    ensures g in b.generations ==> FindGeneration(b.generations, hash) == Some(g)
  {
    hide ClientsOk, GrantsOk, CodesOk, TransactionsOk, FamiliesOk, FamilyCodesOk, LiveFamiliesOk;
    hide ChainsOk, AccessesOk, AccessCodesOk, AccessFamiliesOk, AccessSourcesOk, LiveAccessesOk, SessionsOk, LogoutsOk;
    hide UsersStable, ClientsStable, GrantsStable, TransactionsStable, CodesStable, FamiliesStable;
    hide AccessesStable, SessionsStable, LogoutsStable, GenerationOk, Ordered;
    hide KeysFresh, GrantIdsFresh, BindingsFresh, CodeHashesFresh, AccessHashesFresh, SessionHashesFresh,
         LogoutHashesFresh;
    var found := FindGeneration(b.generations, hash);
    if found.Some? && found.value in a.generations {
      assert a.generations[found.value].hash == hash;
    }
  }

  lemma LaterTrans(a: Db, b: Db, c: Db)
    requires (exists t :: Inv(a, t)) && Later(a, b) && Later(b, c)
    ensures Later(a, c)
  {
    hide Inv, Stable;
    var t :| Inv(a, t);
    StableTransitive(a, b, c, t);
  }

  /** Every read follows the first. */
  lemma AllLater(r: Reads, f: Id)
    requires Schedule(r, f)
    ensures Later(r.candidate, r.family) && Later(r.candidate, r.user) && Later(r.candidate, r.client)
    ensures Later(r.candidate, r.grant) && Later(r.candidate, r.locked) && Later(r.candidate, r.last)
    ensures Later(r.family, r.user) && Later(r.family, r.client) && Later(r.family, r.grant)
    ensures Later(r.family, r.locked) && Later(r.family, r.last)
  {
    hide Inv, Stable, LocksHeld;
    LaterTrans(r.candidate, r.family, r.user);
    LaterTrans(r.candidate, r.user, r.client);
    LaterTrans(r.candidate, r.client, r.grant);
    LaterTrans(r.candidate, r.grant, r.locked);
    LaterTrans(r.candidate, r.locked, r.last);
    LaterTrans(r.family, r.user, r.client);
    LaterTrans(r.family, r.client, r.grant);
    LaterTrans(r.family, r.grant, r.locked);
    LaterTrans(r.family, r.locked, r.last);
  }

  /**
   What a state following the candidate reads can show: the digest names `g` or nothing, `g` still
   belongs to `f`, and `f` still has the candidate's owner, client and grant.
   */
  ghost predicate Consistent(s: Db, x: RefreshInput, g: Id, f: Id, candidate: Family) {
    var found := FindGeneration(s.generations, x.hash);
    && (found.Some? ==> found.value == g) && (g in s.generations ==> found == Some(g))
    && (g in s.generations ==> s.generations[g].family == f && s.generations[g].hash == x.hash && f in s.families)
    && (f in s.families ==>
          && s.families[f].user == candidate.user && s.families[f].client == candidate.client
          && s.families[f].grant == candidate.grant)
  }

  lemma LaterIsConsistent(a: Db, b: Db, s: Db, x: RefreshInput, g: Id, f: Id)
    requires (exists t :: Inv(a, t)) && Later(a, b) && Later(a, s) && Later(b, s)
    requires g in a.generations && a.generations[g].hash == x.hash && a.generations[g].family == f && f in b.families
    ensures Consistent(s, x, g, f, b.families[f])
  {
    hide Inv, UsersStable, ClientsStable, GrantsStable, TransactionsStable, CodesStable;
    hide AccessesStable, SessionsStable, LogoutsStable;
    var t :| Inv(a, t);
    HashNamesSame(a, t, s, g, x.hash);
    var u :| Inv(s, u);
    if g in s.generations { TokenProofs.GenerationRowOk(s, g, u); }
  }

  // ----- Refinement, lock by lock -----

  /** Without an authorized family under the digest, an atomic refresh refuses. */
  lemma RefusedAt(s: Db, c: Config, x: RefreshInput, d: RefreshDraws, now: Time, g: Id, f: Id, candidate: Family)
    requires Consistent(s, x, g, f, candidate)
    requires g in s.generations ==> !FamilyAuthorized(s, s.families[f], x.caller, now)
    ensures Refresh(s, c, x, d, now) == (s, Refused(InvalidGrant))
  {
    hide FamilyAuthorized, Rotate, Cascade;
  }

  /** With every row locked, the decision is the atomic one. */
  lemma DecidedAtLast(r: Reads, c: Config, g: Id, f: Id, x: RefreshInput, d: RefreshDraws, now: Time, candidate: Family)
    requires x.caller.id != NIL && now != 0
    requires f in r.family.families && candidate == r.family.families[f] && LocksHeld(r, f, candidate)
    requires Consistent(r.last, x, g, f, candidate) && Consistent(r.locked, x, g, f, candidate)
    requires g in r.last.generations && f in r.locked.families
    requires candidate.user in r.user.users && r.user.users[candidate.user].status == Active
    requires candidate.client in r.client.clients &&
             SameClient(candidate.client, r.client.clients[candidate.client], x.caller)
    requires var key := GrantKey(candidate.user, candidate.client);
      key in r.grant.grants && r.grant.grants[key].id == candidate.grant && r.grant.grants[key].revokedAt.None? &&
      r.grant.grants[key].version >= 1
    requires r.locked.families[f].revokedAt.None? && now < r.locked.families[f].absoluteExpiresAt
    ensures var decision := Decide(r, c, g, f, r.locked.families[f], x, d, now);
      decision.at == r.last && Refresh(r.last, c, x, d, now) == (decision.after, decision.outcome)
  {
    hide SameClient, SelectScopes, MintRefresh, ValidRefreshMinted, RefreshMintedFresh, StoreRotation, Cascade;
    assert FamilyAuthorized(r.last, r.last.families[f], x.caller, now);
  }

  lemma TokensRefine(r: Reads, c: Config, g: Id, f: Id, x: RefreshInput, d: RefreshDraws, now: Time, candidate: Family)
    requires x.caller.id != NIL && now != 0
    requires f in r.family.families && candidate == r.family.families[f] && LocksHeld(r, f, candidate)
    requires Consistent(r.last, x, g, f, candidate) && Consistent(r.locked, x, g, f, candidate)
    requires candidate.user in r.user.users && r.user.users[candidate.user].status == Active
    requires candidate.client in r.client.clients &&
             SameClient(candidate.client, r.client.clients[candidate.client], x.caller)
    requires var key := GrantKey(candidate.user, candidate.client);
      key in r.grant.grants && r.grant.grants[key].id == candidate.grant && r.grant.grants[key].revokedAt.None? &&
      r.grant.grants[key].version >= 1
    ensures var decision := LockTokens(r, c, g, f, candidate, x, d, now);
      Refresh(decision.at, c, x, d, now) == (decision.after, decision.outcome)
  {
    hide SameClient, Decide, Refresh, GrantStands, UserActive;
    if f in r.locked.families && r.locked.families[f].revokedAt.None? && now < r.locked.families[f].absoluteExpiresAt {
      if g in r.last.generations {
        DecidedAtLast(r, c, g, f, x, d, now, candidate);
      } else {
        RefusedAt(r.last, c, x, d, now, g, f, candidate);
      }
    } else {
      RefusedAt(r.locked, c, x, d, now, g, f, candidate);
    }
  }

  lemma AccountsRefine(r: Reads, c: Config, g: Id, f: Id, x: RefreshInput, d: RefreshDraws, now: Time,
                       candidate: Family)
    requires x.caller.id != NIL && now != 0
    requires f in r.family.families && candidate == r.family.families[f] && LocksHeld(r, f, candidate)
    requires Consistent(r.user, x, g, f, candidate) && Consistent(r.client, x, g, f, candidate)
    requires Consistent(r.grant, x, g, f, candidate)
    requires Consistent(r.last, x, g, f, candidate) && Consistent(r.locked, x, g, f, candidate)
    ensures var decision := LockAccounts(r, c, g, f, candidate, x, d, now);
      Refresh(decision.at, c, x, d, now) == (decision.after, decision.outcome)
  {
    hide SameClient, LockTokens, Refresh, LocksHeld;
    var key := GrantKey(candidate.user, candidate.client);
    if candidate.user !in r.user.users || r.user.users[candidate.user].status != Active {
      RefusedAt(r.user, c, x, d, now, g, f, candidate);
    } else if candidate.client !in r.client.clients ||
              !SameClient(candidate.client, r.client.clients[candidate.client], x.caller) {
      RefusedAt(r.client, c, x, d, now, g, f, candidate);
    } else if key !in r.grant.grants || r.grant.grants[key].id != candidate.grant ||
              r.grant.grants[key].revokedAt.Some? || r.grant.grants[key].version < 1 {
      RefusedAt(r.grant, c, x, d, now, g, f, candidate);
    } else {
      TokensRefine(r, c, g, f, x, d, now, candidate);
    }
  }

  /** The family id of the candidate generation. */
  ghost function CandidateFamily(r: Reads, x: RefreshInput): Id {
    var found := FindGeneration(r.candidate.generations, x.hash);
    if found.Some? then r.candidate.generations[found.value].family else NIL
  }

  /**
   Refinement: under any schedule of other transactions that respects the row locks, the call answers
   and writes exactly what one atomic refresh would in the state where it decides; whenever it writes,
   that is the state in which every row it used is locked.
   */
  lemma RefreshIsAtomic(r: Reads, c: Config, x: RefreshInput, d: RefreshDraws, now: Time)
    requires Schedule(r, CandidateFamily(r, x))
    ensures var decision := Interleaved(r, c, x, d, now);
      && Refresh(decision.at, c, x, d, now) == (decision.after, decision.outcome)
      && decision.at in {r.candidate, r.family, r.user, r.client, r.grant, r.locked, r.last}
      && (decision.after != decision.at ==> decision.at == r.last)
  {
    hide Inv, Stable, Consistent, LocksHeld, SameClient, Decide, Refresh;
    var found := FindGeneration(r.candidate.generations, x.hash);
    if x.caller.id == NIL || now == 0 || found.None? {
      UnknownRefused(r.candidate, c, x, d, now);
    } else {
      var g, f := found.value, r.candidate.generations[found.value].family;
      AllLater(r, f);
      if f !in r.family.families {
        GoneRefused(r.candidate, r.family, c, x, d, now, g, f);
      } else {
        var candidate := r.family.families[f];
        LaterIsConsistent(r.candidate, r.family, r.user, x, g, f);
        LaterIsConsistent(r.candidate, r.family, r.client, x, g, f);
        LaterIsConsistent(r.candidate, r.family, r.grant, x, g, f);
        LaterIsConsistent(r.candidate, r.family, r.locked, x, g, f);
        LaterIsConsistent(r.candidate, r.family, r.last, x, g, f);
        AccountsRefine(r, c, g, f, x, d, now, candidate);
        DecidesLast(r, c, g, f, candidate, x, d, now);
      }
    }
  }

  lemma UnknownRefused(s: Db, c: Config, x: RefreshInput, d: RefreshDraws, now: Time)
    requires x.caller.id == NIL || now == 0 || FindGeneration(s.generations, x.hash).None?
    ensures Refresh(s, c, x, d, now) == (s, Refused(InvalidGrant))
  {
  }

  /** A generation of a family that is gone is gone too. */
  lemma GoneRefused(a: Db, s: Db, c: Config, x: RefreshInput, d: RefreshDraws, now: Time, g: Id, f: Id)
    requires (exists t :: Inv(a, t)) && Later(a, s) && f !in s.families
    requires g in a.generations && a.generations[g].hash == x.hash && a.generations[g].family == f
    ensures Refresh(s, c, x, d, now) == (s, Refused(InvalidGrant))
  {
    hide Inv, RefreshLocked, UsersStable, ClientsStable, GrantsStable, TransactionsStable, CodesStable, FamiliesStable;
    hide AccessesStable, SessionsStable, LogoutsStable;
    var t :| Inv(a, t);
    HashNamesSame(a, t, s, g, x.hash);
  }

  lemma DecidesLast(r: Reads, c: Config, g: Id, f: Id, candidate: Family, x: RefreshInput, d: RefreshDraws, now: Time)
    ensures var decision := LockAccounts(r, c, g, f, candidate, x, d, now);
      && decision.at in {r.user, r.client, r.grant, r.locked, r.last}
      && (decision.after != decision.at ==> decision.at == r.last)
  {
    hide SameClient, SelectScopes, MintRefresh, ValidRefreshMinted, RefreshMintedFresh, StoreRotation, Cascade;
  }
}
