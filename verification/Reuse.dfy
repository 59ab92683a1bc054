/**
 Reuse detection: when it fires, what it ends, and that presenting a rotated refresh token again
 ends its family at any later time.
 */
module Reuse {
  import opened Schema
  import opened ScopeClaims
  import opened TokenPolicy
  import opened Revocation
  import opened Tokens
  import opened Invariants
  import opened Machine
  import opened Progress
  import opened Introspection
  import opened Finality
  import TokenProofs
  import WithdrawalProofs
  import Guarantees
  import Accounts
  import Authorization
  import Sessions
  import Logouts
  import Cleanup

  // ----- When it fires -----

  /** A consumed generation of the caller's own family, which is unrevoked and before its deadline. */
  ghost predicate Replayed(db: Db, x: RefreshInput, now: Time) {
    var found := FindGeneration(db.generations, x.hash);
    && found.Some?
    && db.generations[found.value].consumedAt.Some?
    && db.generations[found.value].family in db.families
    && var family := db.families[db.generations[found.value].family];
       family.client == x.caller.id && family.revokedAt.None? && now < family.absoluteExpiresAt
  }

  /** An unrevoked family before its deadline passes every check its own client can meet. */
  lemma LiveFamilyAuthorized(db: Db, f: Id, caller: Caller, now: Time)
    requires Inv(db, now) && Genuine(db, caller) && f in db.families && db.families[f].client == caller.id
    requires db.families[f].revokedAt.None? && now < db.families[f].absoluteExpiresAt
    ensures FamilyAuthorized(db, db.families[f], caller, now)
  {
    hide FreshOk, CodesOk, TransactionsOk, FamiliesOk, FamilyCodesOk, GenerationsOk;
    hide ChainsOk, AccessesOk, AccessCodesOk, AccessFamiliesOk, AccessSourcesOk, LiveAccessesOk, SessionsOk, LogoutsOk;
    assert FamilyAlive(db.families[f], db.users, db.clients, db.grants);
  }

  lemma CallerIsReal(db: Db, caller: Caller, now: Time)
    requires Inv(db, now) && Genuine(db, caller)
    ensures caller.id != NIL && now > 0
  {
    hide ClientsOk, GrantsOk, CodesOk, TransactionsOk, FamiliesOk, FamilyCodesOk, LiveFamiliesOk, GenerationsOk;
    hide ChainsOk, AccessesOk, AccessCodesOk, AccessFamiliesOk, AccessSourcesOk, LiveAccessesOk, SessionsOk, LogoutsOk;
    hide GrantIdsFresh, BindingsFresh, CodeHashesFresh, GenerationHashesFresh, AccessHashesFresh, SessionHashesFresh;
    hide LogoutHashesFresh;
  }

  /**
   The reuse branch fires exactly for a consumed generation of the caller's own family while that
   family is unrevoked and before its deadline. The user, client and grant checks add nothing: an
   unrevoked family always has an active user, an active client and a standing grant behind it.
   */
  lemma ReuseExact(db: Db, c: Config, x: RefreshInput, d: RefreshDraws, now: Time)
    requires Inv(db, now) && Genuine(db, x.caller)
    ensures Refresh(db, c, x, d, now).1.Reused? <==> Replayed(db, x, now)
  {
    hide Inv, FamilyAuthorized, Rotate, Cascade, Genuine;
    CallerIsReal(db, x.caller, now);
    if Replayed(db, x, now) {
      var g := FindGeneration(db.generations, x.hash).value;
      LiveFamilyAuthorized(db, db.generations[g].family, x.caller, now);
    }
    if Refresh(db, c, x, d, now).1.Reused? {
      OnlyLockedReuses(db, c, x, d, now);
    }
  }

  lemma OnlyLockedReuses(db: Db, c: Config, x: RefreshInput, d: RefreshDraws, now: Time)
    requires Refresh(db, c, x, d, now).1.Reused?
    ensures Replayed(db, x, now)
    ensures Refresh(db, c, x, d, now).0 == Cascade(db, OfFamily(FamilyPresented(db, x.hash)), now)
  {
    hide MintRefresh, ValidRefreshMinted, RefreshMintedFresh, StoreRotation, Cascade, SelectScopes;
    hide UserActive, GrantStands;
  }

  // ----- What it ends -----

  /** After such a presentation the family never mints again and none of its access rows is accepted, in any run. */
  lemma ReuseIsFatal(s: Settings, at: State, x: RefreshInput, d: RefreshDraws, ticks: seq<Tick>)
    requires Good(at) && Genuine(at.db, x.caller) && Replayed(at.db, x, at.clock)
    ensures var f := FamilyPresented(at.db, x.hash);
      var end := Run(s, Step(s, at, Tick(0, TokenRefreshed(x, d))), ticks);
      NoneAccepted(s, end, {f}, AccessesOf(at.db, OfFamily(f)), {})
  {
    hide Inv, Run, NoneAccepted, AccessesOf, Cascade, Refresh, Genuine;
    var f := FamilyPresented(at.db, x.hash);
    ReuseExact(at.db, s.config, x, d, at.clock);
    OnlyLockedReuses(at.db, s.config, x, d, at.clock);
    WithdrawalProofs.CascadeEmpties(at.db, OfFamily(f), at.clock);
    WithdrawalIsFinal(s, at, TokenRefreshed(x, d), OfFamily(f), ticks);
    assert FamiliesOf(at.db, OfFamily(f)) == {f};
  }

  // ----- Stored generations stay until the deadline -----

  lemma OnlyRotationConsumes(db: Db, c: Config, x: RefreshInput, d: RefreshDraws, now: Time)
    requires !Refresh(db, c, x, d, now).1.Rotated?
    ensures Refresh(db, c, x, d, now).0.generations == db.generations
  {
    hide FamilyAuthorized, SelectScopes, MintRefresh, ValidRefreshMinted, RefreshMintedFresh, StoreRotation;
    hide RevokeFamilies, RevokeAccesses;
  }

  lemma RefreshKeepsGenerations(db: Db, c: Config, x: RefreshInput, d: RefreshDraws, now: Time)
    ensures db.generations.Keys <= Refresh(db, c, x, d, now).0.generations.Keys
  {
    hide Refresh, SelectScopes, MintRefresh, ValidRefreshMinted, RefreshMintedFresh, FamilyAuthorized;
    if Refresh(db, c, x, d, now).1.Rotated? {
      var g, scopes, m := TokenProofs.RotationOf(db, c, x, d, now);
    } else {
      OnlyRotationConsumes(db, c, x, d, now);
    }
  }

  lemma ExchangeKeepsGenerations(db: Db, c: Config, x: ExchangeInput, d: CodeDraws, now: Time)
    ensures db.generations.Keys <= Exchange(db, c, x, d, now).0.generations.Keys
  {
    hide ExchangeLocked, CodeAuthorized, Mint, ValidMinted, MintedFresh;
    if Exchange(db, c, x, d, now).1.Issued? {
      var m := TokenProofs.MintedFor(db, c, x, d, now);
    }
  }

  lemma OthersLeaveGenerations(s: Settings, db: Db, e: Event, now: Time)
    requires !e.TokenRefreshed? && !e.CodeExchanged? && !e.Cleaned?
    ensures Apply(s, db, e, now).generations == db.generations
  {
    hide Accounts.CreateUser, Accounts.UpdateUser, Accounts.CreateClient, Accounts.UpdateClient, Accounts.RevokeGrant;
    hide Authorization.Begin, Authorization.Terminate, Authorization.Deny, Authorization.Issue;
    hide Exchange, Refresh, RevokeToken, Sessions.Login, Sessions.Register, Sessions.Touch, Sessions.RevokeSession;
    hide Sessions.RevokeSessionByHash, Sessions.RevokeOthers, Sessions.RevokeAll;
    hide Logouts.Start, Logouts.Bind, Logouts.Complete, Clean;
  }

  lemma CleaningKeepsGeneration(db: Db, table: Table, chosen: set<Id>, cutoff: Time, now: Time, g: Id)
    requires g in db.generations && db.generations[g].family in db.families && cutoff <= now
    requires now < db.families[db.generations[g].family].absoluteExpiresAt
    ensures g in Clean(db, table, chosen, cutoff, now).generations
  {
    hide Cleanup.DeleteCodes, Cleanup.DeleteAccesses, Cleanup.DeleteFamilies, Cleanup.DeleteSessions;
    hide Cleanup.DeleteLogouts, Cleanup.DeleteTransactions;
  }

  lemma StepKeepsGeneration(s: Settings, db: Db, e: Event, now: Time, g: Id)
    requires g in db.generations && db.generations[g].family in db.families
    requires now < db.families[db.generations[g].family].absoluteExpiresAt
    ensures g in Apply(s, db, e, now).generations
  {
    hide Accounts.CreateUser, Accounts.UpdateUser, Accounts.CreateClient, Accounts.UpdateClient, Accounts.RevokeGrant;
    hide Authorization.Begin, Authorization.Terminate, Authorization.Deny, Authorization.Issue;
    hide Exchange, Refresh, RevokeToken, Sessions.Login, Sessions.Register, Sessions.Touch, Sessions.RevokeSession;
    hide Sessions.RevokeSessionByHash, Sessions.RevokeOthers, Sessions.RevokeAll;
    hide Logouts.Start, Logouts.Bind, Logouts.Complete, Clean;
    if e.TokenRefreshed? {
      RefreshKeepsGenerations(db, s.config, e.refresh, e.refreshDraws, now);
    } else if e.CodeExchanged? {
      ExchangeKeepsGenerations(db, s.config, e.exchange, e.codeDraws, now);
    } else if e.Cleaned? {
      CleaningKeepsGeneration(db, e.table, e.chosen, now - e.retention, now, g);
    } else {
      OthersLeaveGenerations(s, db, e, now);
    }
  }

  lemma FamilyOfKept(db: Db, after: Db, g: Id, now: Time, later: Time)
    requires Inv(db, now) && Inv(after, later) && Stable(db, after) && g in db.generations && g in after.generations
    ensures var f := db.generations[g].family;
      && after.generations[g].family == f && after.generations[g].hash == db.generations[g].hash
      && (db.generations[g].consumedAt.Some? ==> after.generations[g].consumedAt.Some?)
      && f in db.families && f in after.families && FamilyKept(db.families[f], after.families[f])
  {
    hide Inv, UsersStable, ClientsStable, GrantsStable, TransactionsStable, CodesStable;
    hide AccessesStable, SessionsStable, LogoutsStable;
    TokenProofs.GenerationRowOk(db, g, now);
    TokenProofs.GenerationRowOk(after, g, later);
    assert GenerationKept(db.generations[g], after.generations[g]);
  }

  /** No generation leaves the table before its family's absolute deadline, whatever is cleaned up. */
  lemma {:induction false} GenerationPersists(s: Settings, at: State, ticks: seq<Tick>, g: Id)
    requires Good(at) && g in at.db.generations && at.db.generations[g].family in at.db.families
    requires Run(s, at, ticks).clock < at.db.families[at.db.generations[g].family].absoluteExpiresAt
    ensures g in Run(s, at, ticks).db.generations
    decreases |ticks|
  {
    hide Inv, Stable, Apply;
    if ticks != [] {
      var next := Step(s, at, ticks[0]);
      TickKeeps(s, at, ticks[0]);
      RunKeeps(s, next, ticks[1..]);
      StepKeepsGeneration(s, at.db, ticks[0].event, next.clock, g);
      FamilyOfKept(at.db, next.db, g, at.clock, next.clock);
      GenerationPersists(s, next, ticks[1..], g);
    }
  }

  // ----- Presenting a rotated token again -----

  /** What a rotation leaves of the generation it consumed. */
  lemma RotationConsumes(db: Db, c: Config, x: RefreshInput, d: RefreshDraws, now: Time)
    requires Inv(db, now) && Refresh(db, c, x, d, now).1.Rotated?
    ensures var after := Refresh(db, c, x, d, now).0;
      var g := FindGeneration(db.generations, x.hash);
      && g.Some? && g.value in after.generations && after.generations[g.value].hash == x.hash
      && after.generations[g.value].consumedAt.Some?
      && after.generations[g.value].family == FamilyPresented(db, x.hash)
      && FamilyPresented(db, x.hash) in after.families
      && after.families[FamilyPresented(db, x.hash)].client == x.caller.id
      && Genuine(after, x.caller)
  {
    hide Inv, Refresh, SelectScopes, MintRefresh, ValidRefreshMinted;
    var g, scopes, m := TokenProofs.RotationOf(db, c, x, d, now);
    assert m.replacement != g by { GenerationIdUsed(db, g, now); }
  }

  lemma GenerationIdUsed(db: Db, g: Id, now: Time)
    requires Inv(db, now) && g in db.generations
    ensures g in db.usedIds
  {
  }

  lemma GenuineOverTime(db: Db, after: Db, caller: Caller)
    requires Stable(db, after) && Genuine(db, caller)
    ensures Genuine(after, caller)
  {
    GenuineForever(db, after, caller);
  }

  /** Once a family is revoked or gone, it and its access rows are dead. */
  lemma RevokedFamilyIsDead(db: Db, f: Id, now: Time)
    requires Inv(db, now) && f in db.usedIds && (f in db.families ==> db.families[f].revokedAt.Some?)
    ensures AllDead(State(db, now), {f}, AccessesOf(db, OfFamily(f)), {})
  {
    hide Inv;
    forall a | a in AccessesOf(db, OfFamily(f))
      ensures AccessDead(db, a, now)
    {
      RowIdsUsed(db, a, now);
      Guarantees.AccessRowFacts(db, a, now);
    }
  }

  lemma RefreshNeedsTime(db: Db, c: Config, x: RefreshInput, d: RefreshDraws, now: Time)
    requires Refresh(db, c, x, d, now).1.Rotated?
    ensures var f := FamilyPresented(db, x.hash); f in db.families && now < db.families[f].absoluteExpiresAt
  {
    hide Refresh, SelectScopes, MintRefresh, ValidRefreshMinted, RefreshMintedFresh, UserActive, GrantStands;
    var g, scopes, m := TokenProofs.RotationOf(db, c, x, d, now);
  }

  lemma UserInfoNeedsTime(db: Db, c: Config, jose: string -> Option<AccessClaims>, token: string, now: Time)
    requires UserInfoFor(db, c, jose, token, now).Some?
    ensures var a := RowPresented(db, jose, token);
      && a in db.accesses
      && (db.accesses[a].family.Some? ==>
            && db.accesses[a].family.value in db.families
            && now < db.families[db.accesses[a].family.value].absoluteExpiresAt)
  {
    hide ClaimsValid, HashJti, ParseScopeClaim, UserInfoAudience, Unix, ActiveClient;
  }

  /** Past its deadline a family and its access rows are refused at the end of every run. */
  lemma ExpiredFamilyIsOver(s: Settings, at: State, f: Id, ticks: seq<Tick>)
    requires Good(at) && f in at.db.families && at.db.families[f].absoluteExpiresAt <= at.clock
    ensures NoneAccepted(s, Run(s, at, ticks), {f}, AccessesOf(at.db, OfFamily(f)), {})
  {
    hide Inv, Run, Refresh, UserInfoFor, Exchange, FamilyPresented, RowPresented, CodePresented;
    hide UsersStable, ClientsStable, GrantsStable, TransactionsStable, CodesStable, GenerationsStable;
    hide SessionsStable, LogoutsStable;
    RunKeeps(s, at, ticks);
    var end := Run(s, at, ticks);
    RowIdsUsed(at.db, f, at.clock);
    forall x: RefreshInput, d: RefreshDraws | FamilyPresented(end.db, x.hash) == f
      ensures !Refresh(end.db, s.config, x, d, end.clock).1.Rotated?
    {
      if Refresh(end.db, s.config, x, d, end.clock).1.Rotated? {
        RefreshNeedsTime(end.db, s.config, x, d, end.clock);
      }
    }
    forall jose: string -> Option<AccessClaims>, token: string
      | RowPresented(end.db, jose, token) in AccessesOf(at.db, OfFamily(f))
      ensures UserInfoFor(end.db, s.config, jose, token, end.clock).None?
    {
      if UserInfoFor(end.db, s.config, jose, token, end.clock).Some? {
        var a := RowPresented(end.db, jose, token);
        UserInfoNeedsTime(end.db, s.config, jose, token, end.clock);
        assert AccessKept(at.db.accesses[a], end.db.accesses[a]);
      }
    }
  }

  /** The spent token still names its generation while the family is before its deadline. */
  lemma SpentTokenIsReplayed(s: Settings, at: State, ticks: seq<Tick>, g: Id, x: RefreshInput)
    requires Good(at) && g in at.db.generations && at.db.generations[g].hash == x.hash
    requires at.db.generations[g].consumedAt.Some? && at.db.generations[g].family in at.db.families
    requires at.db.families[at.db.generations[g].family].client == x.caller.id
    requires var mid := Run(s, at, ticks);
      var f := at.db.generations[g].family;
      && mid.clock < at.db.families[f].absoluteExpiresAt
      && f in mid.db.families && mid.db.families[f].revokedAt.None?
    ensures var mid := Run(s, at, ticks);
      Replayed(mid.db, x, mid.clock) && FamilyPresented(mid.db, x.hash) == at.db.generations[g].family
  {
    hide Inv, Stable, Run;
    var mid := Run(s, at, ticks);
    RunKeeps(s, at, ticks);
    GenerationPersists(s, at, ticks, g);
    FamilyOfKept(at.db, mid.db, g, at.clock, mid.clock);
    HashFindsGeneration(mid.db, g, mid.clock);
  }

  /**
   Presenting a rotated token again, at any later time and in any state reached meanwhile, leaves
   nothing of its family: whether reuse is detected, the family was revoked before, or its deadline
   has passed, no run from there ever rotates it or accepts one of its access tokens.
   */
  lemma ReplayEndsFamily(s: Settings, at: State, x: RefreshInput, d: RefreshDraws, ticks: seq<Tick>,
                         requested: Option<set<Scope>>, e: RefreshDraws, more: seq<Tick>)
    requires Good(at) && Refresh(at.db, s.config, x, d, at.clock).1.Rotated?
    ensures var f := FamilyPresented(at.db, x.hash);
      var mid := Run(s, Step(s, at, Tick(0, TokenRefreshed(x, d))), ticks);
      var again := Tick(0, TokenRefreshed(RefreshInput(x.hash, x.caller, requested), e));
      NoneAccepted(s, Run(s, Step(s, mid, again), more), {f}, AccessesOf(mid.db, OfFamily(f)), {})
  {
    hide Inv, Stable, Run, NoneAccepted, AccessesOf, Refresh, Replayed, AllDead, Genuine, FamilyPresented;
    var f := FamilyPresented(at.db, x.hash);
    var after := Step(s, at, Tick(0, TokenRefreshed(x, d)));
    var mid := Run(s, after, ticks);
    var y := RefreshInput(x.hash, x.caller, requested);
    var again := Tick(0, TokenRefreshed(y, e));
    TickKeeps(s, at, Tick(0, TokenRefreshed(x, d)));
    RotationConsumes(at.db, s.config, x, d, at.clock);
    RunKeeps(s, after, ticks);
    GenuineOverTime(after.db, mid.db, x.caller);
    RowIdsUsed(after.db, f, after.clock);
    FamilyFate(after.db, mid.db, f);
    if f !in mid.db.families || mid.db.families[f].revokedAt.Some? {
      RevokedFamilyIsDead(mid.db, f, mid.clock);
      RunHead(s, mid, again, more);
      DeadForever(s, mid, {f}, AccessesOf(mid.db, OfFamily(f)), {}, [again] + more);
    } else if mid.clock < mid.db.families[f].absoluteExpiresAt {
      SpentTokenIsReplayed(s, after, ticks, FindGeneration(at.db.generations, x.hash).value, y);
      ReuseIsFatal(s, mid, y, e, more);
    } else {
      RunHead(s, mid, again, more);
      ExpiredFamilyIsOver(s, mid, f, [again] + more);
    }
  }

  lemma FamilyFate(db: Db, after: Db, f: Id)
    requires Stable(db, after) && f in db.families && f in db.usedIds
    ensures f in after.usedIds
    ensures f in after.families ==> after.families[f].absoluteExpiresAt == db.families[f].absoluteExpiresAt
  {
  }
}
