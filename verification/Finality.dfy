/**
 Revocation is final over whole runs. What a withdrawal killed is never accepted again, even
 after the grant is reactivated, the account re-enabled or the scope restored.
 */
module Finality {
  import opened Schema
  import opened ScopeClaims
  import opened TokenPolicy
  import opened Revocation
  import opened Tokens
  import opened Accounts
  import opened Sessions
  import opened Invariants
  import opened Machine
  import opened Progress
  import opened Introspection
  import opened WithdrawalProofs
  import SessionProofs
  import TokenProofs
  import Guarantees

  // ----- Dead rows -----

  ghost predicate FamilyDead(db: Db, f: Id) {
    f in db.usedIds && (f in db.families ==> db.families[f].revokedAt.Some?)
  }

  ghost predicate AccessDead(db: Db, a: Id, clock: Time) {
    a in db.usedIds && (a in db.accesses ==> db.accesses[a].revokedAt.Some? || db.accesses[a].expiresAt <= clock)
  }

  /** The grant has moved on from the version the code was issued under. */
  ghost predicate CodeDead(db: Db, c: Id) {
    c in db.usedIds &&
    (c in db.codes ==>
       var key := GrantKey(db.codes[c].user, db.codes[c].client);
       key in db.grants && db.codes[c].grantVersion < db.grants[key].version)
  }

  lemma FamilyStaysDead(db: Db, after: Db, f: Id)
    requires Stable(db, after) && FamilyDead(db, f)
    ensures FamilyDead(after, f)
  {
    hide UsersStable, ClientsStable, GrantsStable, TransactionsStable, CodesStable, GenerationsStable;
    hide AccessesStable, SessionsStable, LogoutsStable;
  }

  lemma AccessStaysDead(db: Db, after: Db, a: Id, clock: Time, later: Time)
    requires Stable(db, after) && AccessDead(db, a, clock) && clock <= later
    ensures AccessDead(after, a, later)
  {
    hide UsersStable, ClientsStable, GrantsStable, TransactionsStable, CodesStable, GenerationsStable;
    hide FamiliesStable, SessionsStable, LogoutsStable;
  }

  lemma CodeStaysDead(db: Db, after: Db, c: Id)
    requires Stable(db, after) && CodeDead(db, c)
    ensures CodeDead(after, c)
  {
    hide UsersStable, ClientsStable, TransactionsStable, AccessesStable, GenerationsStable;
    hide FamiliesStable, SessionsStable, LogoutsStable;
  }

  // ----- What is never accepted -----

  /** No refresh of these families, no UserInfo for these access rows and no exchange of these codes succeeds. */
  ghost predicate NoneAccepted(s: Settings, at: State, families: set<Id>, accesses: set<Id>, codes: set<Id>) {
    && (forall x: RefreshInput, d: RefreshDraws ::
          Refresh(at.db, s.config, x, d, at.clock).1.Rotated? ==> FamilyPresented(at.db, x.hash) !in families)
    && (forall jose: string -> Option<AccessClaims>, token: string ::
          UserInfoFor(at.db, s.config, jose, token, at.clock).Some? ==> RowPresented(at.db, jose, token) !in accesses)
    && (forall x: ExchangeInput, d: CodeDraws ::
          Exchange(at.db, s.config, x, d, at.clock).1.Issued? ==> CodePresented(at.db, x.codeHash) !in codes)
  }

  ghost function FamilyPresented(db: Db, hash: Digest): Id {
    var found := FindGeneration(db.generations, hash);
    if found.Some? then db.generations[found.value].family else NIL
  }

  ghost function RowPresented(db: Db, jose: string -> Option<AccessClaims>, token: string): Id {
    if jose(token).None? then NIL
    else
      var found := FindAccess(db.accesses, HashJti(jose(token).value.jti));
      if found.Some? then found.value else NIL
  }

  ghost function CodePresented(db: Db, hash: Digest): Id {
    var found := FindCode(db.codes, hash);
    if found.Some? then found.value else NIL
  }

  lemma DeadFamilyRefused(db: Db, c: Config, x: RefreshInput, d: RefreshDraws, now: Time)
    requires FamilyDead(db, FamilyPresented(db, x.hash))
    ensures !Refresh(db, c, x, d, now).1.Rotated?
  {
    hide Refresh;
    if Refresh(db, c, x, d, now).1.Rotated? {
      RotatedWasPresentable(db, c, x, d, now);
    }
  }

  lemma DeadAccessRefused(db: Db, c: Config, jose: string -> Option<AccessClaims>, token: string, now: Time)
    requires AccessDead(db, RowPresented(db, jose, token), now)
    ensures UserInfoFor(db, c, jose, token, now).None?
  {
    hide ClaimsValid, HashJti, ParseScopeClaim, UserInfoAudience, Unix, ActiveClient;
  }

  lemma DeadCodeRefused(db: Db, c: Config, x: ExchangeInput, d: CodeDraws, now: Time)
    requires CodeDead(db, CodePresented(db, x.codeHash))
    ensures !Exchange(db, c, x, d, now).1.Issued?
  {
    hide Exchange, VerifyS256, Mint, ValidMinted, MintedFresh, StoreExchange, SameClient, UserActive;
    if Exchange(db, c, x, d, now).1.Issued? {
      var m := TokenProofs.MintedFor(db, c, x, d, now);
    }
  }

  ghost predicate AllDead(at: State, families: set<Id>, accesses: set<Id>, codes: set<Id>) {
    && (forall f :: f in families ==> FamilyDead(at.db, f))
    && (forall a :: a in accesses ==> AccessDead(at.db, a, at.clock))
    && (forall c :: c in codes ==> CodeDead(at.db, c))
  }

  /** Whatever is dead in a reachable state is refused at the end of every run from it. */
  lemma DeadForever(s: Settings, at: State, families: set<Id>, accesses: set<Id>, codes: set<Id>, ticks: seq<Tick>)
    requires Good(at) && AllDead(at, families, accesses, codes)
    ensures AllDead(Run(s, at, ticks), families, accesses, codes)
    ensures NoneAccepted(s, Run(s, at, ticks), families, accesses, codes)
  {
    hide Good, Run, Stable, FamilyDead, AccessDead, CodeDead, Refresh, UserInfoFor, Exchange;
    hide FamilyPresented, RowPresented, CodePresented;
    RunKeeps(s, at, ticks);
    var end := Run(s, at, ticks);
    forall f | f in families ensures FamilyDead(end.db, f) { FamilyStaysDead(at.db, end.db, f); }
    forall a | a in accesses ensures AccessDead(end.db, a, end.clock) {
      AccessStaysDead(at.db, end.db, a, at.clock, end.clock);
    }
    forall c | c in codes ensures CodeDead(end.db, c) { CodeStaysDead(at.db, end.db, c); }
    forall x: RefreshInput, d: RefreshDraws | FamilyPresented(end.db, x.hash) in families
      ensures !Refresh(end.db, s.config, x, d, end.clock).1.Rotated?
    {
      DeadFamilyRefused(end.db, s.config, x, d, end.clock);
    }
    forall jose: string -> Option<AccessClaims>, token: string | RowPresented(end.db, jose, token) in accesses
      ensures UserInfoFor(end.db, s.config, jose, token, end.clock).None?
    {
      DeadAccessRefused(end.db, s.config, jose, token, end.clock);
    }
    forall x: ExchangeInput, d: CodeDraws | CodePresented(end.db, x.codeHash) in codes
      ensures !Exchange(end.db, s.config, x, d, end.clock).1.Issued?
    {
      DeadCodeRefused(end.db, s.config, x, d, end.clock);
    }
  }

  // ----- Withdrawals -----

  function FamiliesOf(db: Db, s: Selector): set<Id> {
    set f | f in db.families && SelectsFamily(s, f, db.families[f])
  }

  function AccessesOf(db: Db, s: Selector): set<Id> {
    set a | a in db.accesses && SelectsAccess(s, db.accesses[a])
  }

  lemma EmptiedIsDead(db: Db, s: Selector, now: Time, before: Db)
    requires Inv(before, now) && Stable(before, db) && Emptied(db, s, now)
    ensures AllDead(State(db, now), FamiliesOf(before, s), AccessesOf(before, s), {})
  {
    hide Inv;
    hide UsersStable, ClientsStable, GrantsStable, TransactionsStable, CodesStable, GenerationsStable;
    hide SessionsStable, LogoutsStable;
    forall f | f in FamiliesOf(before, s)
      ensures FamilyDead(db, f)
    {
      RowIdsUsed(before, f, now);
      assert f in db.families ==> SelectsFamily(s, f, db.families[f]);
    }
    forall a | a in AccessesOf(before, s)
      ensures AccessDead(db, a, now)
    {
      RowIdsUsed(before, a, now);
      assert a in db.accesses ==> SelectsAccess(s, db.accesses[a]);
    }
  }

  lemma RowIdsUsed(db: Db, id: Id, now: Time)
    requires Inv(db, now)
    ensures id in db.families || id in db.accesses || id in db.codes ==> id in db.usedIds
  {
  }

  /** A step that empties a selector is final for everything the selector named before it. */
  lemma WithdrawalIsFinal(s: Settings, at: State, e: Event, sel: Selector, ticks: seq<Tick>)
    requires Good(at) && Emptied(Apply(s, at.db, e, at.clock), sel, at.clock)
    ensures NoneAccepted(s, Run(s, Step(s, at, Tick(0, e)), ticks), FamiliesOf(at.db, sel), AccessesOf(at.db, sel), {})
  {
    hide Inv, Stable, Run, Apply, Emptied, NoneAccepted, AllDead, FamiliesOf, AccessesOf;
    var after := Step(s, at, Tick(0, e));
    TickKeeps(s, at, Tick(0, e));
    EmptiedIsDead(after.db, sel, at.clock, at.db);
    DeadForever(s, after, FamiliesOf(at.db, sel), AccessesOf(at.db, sel), {}, ticks);
  }

  /** Disabling a user ends every family and access row the user had. */
  lemma UserDisablingIsFinal(s: Settings, at: State, id: Id, u: UserUpdate, ticks: seq<Tick>)
    requires Good(at) && id in at.db.users && u.status == Disabled
    requires at.db.users[id].version == u.expectedVersion && !LastAdminBlocks(at.db, id, u)
    ensures var end := Run(s, Step(s, at, Tick(0, UserUpdated(id, u))), ticks);
      NoneAccepted(s, end, FamiliesOf(at.db, OfUser(id)), AccessesOf(at.db, OfUser(id)), {})
  {
    hide Inv, Stable, Run, NoneAccepted, FamiliesOf, AccessesOf, Cascade, CloseSessions, ActiveAdmins, ActiveSessionsOf;
    SessionProofs.WithdrawnKeeps(at.db, id, u, at.clock);
    var mid := Withdrawn(at.db, id, u, at.clock);
    var after := UpdateUser(at.db, id, u, at.clock);
    assert after == mid.(users := after.users);
    WithdrawalIsFinal(s, at, UserUpdated(id, u), OfUser(id), ticks);
  }

  /** Disabling a client ends every family and access row it had; removing offline_access ends its offline ones. */
  lemma ClientWithdrawalIsFinal(s: Settings, at: State, id: Id, u: ClientUpdate, ticks: seq<Tick>)
    requires Good(at) && id in at.db.clients && OpenId in u.scopes && at.db.clients[id].version == u.expectedVersion
    requires UpdateSelector(id, at.db.clients[id], u).Some?
    ensures var sel := UpdateSelector(id, at.db.clients[id], u).value;
      var end := Run(s, Step(s, at, Tick(0, ClientUpdated(id, u))), ticks);
      NoneAccepted(s, end, FamiliesOf(at.db, sel), AccessesOf(at.db, sel), {})
  {
    hide Inv, Stable, Run, NoneAccepted, FamiliesOf, AccessesOf, Cascade;
    var sel := UpdateSelector(id, at.db.clients[id], u).value;
    CascadeEmpties(at.db, sel, at.clock);
    var after := UpdateClient(at.db, id, u, at.clock);
    assert after == Cascade(at.db, sel, at.clock).(clients := after.clients);
    WithdrawalIsFinal(s, at, ClientUpdated(id, u), sel, ticks);
  }

  // ----- Grants, which also fence codes -----

  function CodesOf(db: Db, grant: Id): set<Id> {
    set c | c in db.codes && db.codes[c].grant == grant
  }

  lemma RevokedGrantFencesCodes(db: Db, key: GrantKey, now: Time)
    requires Inv(db, now) && key in db.grants && db.grants[key].revokedAt.None?
    requires key.user in db.users && key.client in db.clients
    ensures var after := RevokeGrant(db, key.user, key.client, now);
      forall c :: c in CodesOf(db, db.grants[key].id) ==> CodeDead(after, c)
  {
    hide Inv, Cascade;
    var after := RevokeGrant(db, key.user, key.client, now);
    forall c | c in CodesOf(db, db.grants[key].id)
      ensures CodeDead(after, c)
    {
      RowIdsUsed(db, c, now);
      Guarantees.CodeFacts(db, c, now);
      OneGrantPerId(db, key, GrantKey(db.codes[c].user, db.codes[c].client), now);
      assert after.codes == db.codes by { CascadeLeavesCodes(db, OfGrant(db.grants[key].id), now); }
      assert after.usedIds == db.usedIds by { CascadeLeavesCodes(db, OfGrant(db.grants[key].id), now); }
    }
  }

  lemma CascadeLeavesCodes(db: Db, s: Selector, now: Time)
    ensures Cascade(db, s, now).codes == db.codes && Cascade(db, s, now).usedIds == db.usedIds
  {
  }

  lemma OneGrantPerId(db: Db, j: GrantKey, k: GrantKey, now: Time)
    requires Inv(db, now) && j in db.grants && k in db.grants && db.grants[j].id == db.grants[k].id
    ensures j == k
  {
  }

  /** Revoking a grant ends every code, family and access row issued under it, even if it is granted again. */
  lemma GrantRevocationIsFinal(s: Settings, at: State, key: GrantKey, ticks: seq<Tick>)
    requires Good(at) && key in at.db.grants && at.db.grants[key].revokedAt.None?
    ensures var id := at.db.grants[key].id;
      var end := Run(s, Step(s, at, Tick(0, GrantRevoked(key.user, key.client))), ticks);
      NoneAccepted(s, end, FamiliesOf(at.db, OfGrant(id)), AccessesOf(at.db, OfGrant(id)), CodesOf(at.db, id))
  {
    hide Inv, Stable, Run, NoneAccepted, FamiliesOf, AccessesOf, CodesOf, Cascade, CodeDead, FamilyDead, AccessDead;
    var id := at.db.grants[key].id;
    var e := GrantRevoked(key.user, key.client);
    var after := Step(s, at, Tick(0, e));
    TickKeeps(s, at, Tick(0, e));
    GrantOwnersExist(at.db, key, at.clock);
    CascadeEmpties(at.db, OfGrant(id), at.clock);
    assert after.db == Cascade(at.db, OfGrant(id), at.clock).(grants := after.db.grants);
    assert Emptied(after.db, OfGrant(id), at.clock);
    EmptiedIsDead(after.db, OfGrant(id), at.clock, at.db);
    RevokedGrantFencesCodes(at.db, key, at.clock);
    DeadForever(s, after, FamiliesOf(at.db, OfGrant(id)), AccessesOf(at.db, OfGrant(id)), CodesOf(at.db, id), ticks);
  }

  lemma GrantOwnersExist(db: Db, key: GrantKey, now: Time)
    requires Inv(db, now) && key in db.grants
    ensures key.user in db.users && key.client in db.clients
  {
  }

  // ----- Deadlines -----

  /**
   Nothing descending from an offline code is accepted at or after the family's absolute deadline,
   which is at most 365 days after the exchange.
   */
  lemma DeadlinesHold(s: Settings, ticks: seq<Tick>, jose: string -> Option<AccessClaims>, token: string,
                      x: RefreshInput, d: RefreshDraws)
    ensures var end := Run(s, START, ticks);
      && (UserInfoFor(end.db, s.config, jose, token, end.clock).Some? ==>
            var row := RowPresented(end.db, jose, token);
            row in end.db.accesses && (end.db.accesses[row].family.Some? ==>
              end.db.accesses[row].family.value in end.db.families &&
              BeforeDeadline(end.db.families[end.db.accesses[row].family.value], end.clock)))
      && (Refresh(end.db, s.config, x, d, end.clock).1.Rotated? ==>
            var f := FamilyPresented(end.db, x.hash);
            f in end.db.families && BeforeDeadline(end.db.families[f], end.clock))
  {
    hide Run, Refresh, ClaimsValid, HashJti, ParseScopeClaim, UserInfoAudience, Unix, ActiveClient, Inv;
    ReachableIsGood(s, ticks);
    var end := Run(s, START, ticks);
    if UserInfoFor(end.db, s.config, jose, token, end.clock).Some? {
      Guarantees.AccessRowFacts(end.db, RowPresented(end.db, jose, token), end.clock);
    }
    if Refresh(end.db, s.config, x, d, end.clock).1.Rotated? {
      RotatedWasPresentable(end.db, s.config, x, d, end.clock);
      TokenProofs.GenerationRowOk(end.db, FindGeneration(end.db.generations, x.hash).value, end.clock);
    }
  }

  predicate BeforeDeadline(f: Family, now: Time) {
    f.createdAt <= now < f.absoluteExpiresAt <= f.createdAt + 365 * DAY
  }
}
