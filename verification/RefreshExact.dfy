/**
 Refresh, exactly: what a rotation had to fit, row by row, every row it writes, every field of the
 response, and until when the token it hands out can be presented.
 */
module RefreshExact {
  import opened Schema
  import opened TokenPolicy
  import opened Tokens
  import opened Invariants
  import opened Machine
  import opened Progress
  import opened ExchangeExact
  import Interleaving
  import Protocol
  import Reuse
  import Revocation
  import TokenProofs

  // ----- When a token is rotated -----

  /** The accounts and the consent behind the family stand, and the caller's copy of its client is true to them. */
  predicate FamilyBacked(db: Db, f: Family, caller: Caller) {
    var key := GrantKey(f.user, f.client);
    && f.user in db.users && db.users[f.user].status == Active
    && f.client == caller.id && f.client in db.clients && db.clients[f.client].status == Active
    && db.clients[f.client].publicId == caller.row.publicId
    && db.clients[f.client].kind == caller.row.kind && db.clients[f.client].authMethod == caller.row.authMethod
    && (db.clients[f.client].kind == Public <==> db.clients[f.client].authMethod == NoAuth)
    && key in db.grants && db.grants[key].id == f.grant && db.grants[key].revokedAt.None?
  }

  /** What family, consent and client have in common now. */
  function Shared(db: Db, f: Family): set<Scope>
    requires f.client in db.clients && GrantKey(f.user, f.client) in db.grants
  {
    f.scopes * db.grants[GrantKey(f.user, f.client)].scopes * db.clients[f.client].scopes
  }

  /** Whatever is rotated was current, backed and asked for no more than is shared: nothing is assumed of the state. */
  lemma RotatedRequired(db: Db, c: Config, x: RefreshInput, d: RefreshDraws, now: Time)
    requires Refresh(db, c, x, d, now).1.Rotated?
    ensures var found := FindGeneration(db.generations, x.hash);
      && found.Some? && db.generations[found.value].family in db.families
      && var g := db.generations[found.value];
         var f := db.families[g.family];
         && g.consumedAt.None? && now < g.expiresAt && g.number != MAX_GENERATION
         && f.revokedAt.None? && now < f.absoluteExpiresAt && FamilyBacked(db, f, x.caller)
         && OpenId in Shared(db, f) && OfflineAccess in Shared(db, f)
         && (x.requested.Some? ==> OpenId in x.requested.value && x.requested.value <= Shared(db, f))
  {
    hide Refresh, MintRefresh, RefreshMintedFresh, StoreRotation, AuthorityOfRefresh, DigestPresented;
    var g, scopes, m := TokenProofs.RotationOf(db, c, x, d, now);
  }

  /** A consumed generation, and the rest of the family, while both the family and its accounts stand. */
  lemma ReusedRequired(db: Db, c: Config, x: RefreshInput, d: RefreshDraws, now: Time)
    requires Refresh(db, c, x, d, now).1.Reused?
    ensures var found := FindGeneration(db.generations, x.hash);
      && found.Some? && db.generations[found.value].family in db.families
      && db.generations[found.value].consumedAt.Some?
      && var f := db.families[db.generations[found.value].family];
         f.revokedAt.None? && now < f.absoluteExpiresAt && FamilyBacked(db, f, x.caller)
  {
    hide Rotate, Revocation.Cascade;
    RotateNeverReuses(db, c, x, d, now);
  }

  lemma RotateNeverReuses(db: Db, c: Config, x: RefreshInput, d: RefreshDraws, now: Time)
    ensures forall g ::
      g in db.generations && db.generations[g].family in db.families &&
      FamilyAuthorized(db, db.families[db.generations[g].family], x.caller, now)
      ==> !Rotate(db, c, g, x, d, now).1.Reused?
  {
    hide FamilyAuthorized, SelectScopes, MintRefresh, ValidRefreshMinted, RefreshMintedFresh, StoreRotation;
  }

  /**
   In a reachable state, with draws that collide with nothing and a caller that is what it claims: the answer
   to every refresh request, read off the rows.
   */
  lemma RefreshedExactly(db: Db, c: Config, x: RefreshInput, d: RefreshDraws, now: Time)
    requires Inv(db, now) && ValidConfig(c) && FreshDraws(db, d) && Genuine(db, x.caller)
    ensures var (after, outcome) := Refresh(db, c, x, d, now);
      var found := FindGeneration(db.generations, x.hash);
      var current := found.Some? && Presentable(db, found.value, x.caller, now);
      && (current ==>
            && FamilyKnown(db, db.families[db.generations[found.value].family])
            && Answered(db, db.families[db.generations[found.value].family], db.generations[found.value].number,
                        x.requested, outcome))
      && (outcome.Reused? <==> Reuse.Replayed(db, x, now))
      && (!current && !outcome.Reused? ==> outcome == Refused(InvalidGrant))
      && (outcome.Refused? ==> after == db)
  {
    hide Inv, ValidConfig, FreshDraws, Genuine, Answered, Presentable, FamilyKnown, Reuse.Replayed, Refresh;
    var found := FindGeneration(db.generations, x.hash);
    Reuse.ReuseExact(db, c, x, d, now);
    RefusedChangesNothing(db, c, x, d, now);
    if found.Some? && Presentable(db, found.value, x.caller, now) {
      Rotates(db, c, found.value, x.caller, x.requested, d, now);
      FoundHash(db, x, found.value);
    } else {
      if Refresh(db, c, x, d, now).1.Rotated? { RotatedWasPresentable(db, c, x, d, now); }
      OtherwiseInvalid(db, c, x, d, now);
    }
  }

  lemma FoundHash(db: Db, x: RefreshInput, g: Id)
    requires FindGeneration(db.generations, x.hash) == Some(g)
    ensures RefreshInput(db.generations[g].hash, x.caller, x.requested) == x
  {
  }

  lemma RefusedChangesNothing(db: Db, c: Config, x: RefreshInput, d: RefreshDraws, now: Time)
    ensures Refresh(db, c, x, d, now).1.Refused? ==> Refresh(db, c, x, d, now).0 == db
  {
    hide FamilyAuthorized, SelectScopes, MintRefresh, ValidRefreshMinted, RefreshMintedFresh, StoreRotation;
  }

  /** Only a presentable generation reaches the later checks, so every other refusal is an invalid grant. */
  lemma OtherwiseInvalid(db: Db, c: Config, x: RefreshInput, d: RefreshDraws, now: Time)
    requires var found := FindGeneration(db.generations, x.hash);
      !(found.Some? && Presentable(db, found.value, x.caller, now))
    ensures var outcome := Refresh(db, c, x, d, now).1; outcome.Refused? ==> outcome == Refused(InvalidGrant)
  {
    hide UserActive, GrantStands, Rotate, Revocation.Cascade;
  }

  // ----- What a rotation writes and answers -----

  lemma MintRefreshExact(c: Config, a: RefreshAuthority, d: RefreshDraws)
    requires MintRefresh(c, a, d).Ok?
    ensures var m := MintRefresh(c, a, d).value;
      && m.accessId == d.accessId && m.jtiHash == HashJti(d.jti) && m.issuedAt == a.issuedAt
      && m.accessExpiresAt == a.issuedAt + c.accessTtl
      && ClaimsAre(m.access, c, a.user, a.client, a.scopes, a.issuedAt, d.jti)
      && m.replacement == d.replacement && m.replacementClear == RefreshToken(d.raw)
      && m.replacementHash == HashRefresh(RefreshToken(d.raw))
      && m.replacementExpiresAt == Earlier(a.issuedAt + c.rollingTtl, a.family.absoluteExpiresAt)
  {
    hide HashJti, HashRefresh, RefreshToken;
  }

  function Earlier(a: Time, b: Time): Time {
    if a <= b then a else b
  }

  lemma StoredRotation(db: Db, g: Id, scopes: set<Scope>, m: RefreshMinted, now: Time)
    requires g in db.generations && db.generations[g].family in db.families
    ensures var after := StoreRotation(db, g, scopes, m, now);
      && after.generations ==
         db.generations[g := db.generations[g].(consumedAt := Some(now))][m.replacement :=
           Generation(db.generations[g].family, m.replacementHash, db.generations[g].number + 1, m.issuedAt,
                      m.replacementExpiresAt, None)]
      && after.accesses == db.accesses[m.accessId :=
           AccessFromRefresh(g, db.generations[g].family, db.families[db.generations[g].family], scopes, m)]
      && after.users == db.users && after.clients == db.clients && after.grants == db.grants && after.codes == db.codes
      && after.families == db.families && after.transactions == db.transactions && after.sessions == db.sessions
      && after.logouts == db.logouts
  {
    hide AccessFromRefresh;
  }

  lemma RotatedAccessRow(g: Id, f: Id, family: Family, scopes: set<Scope>, m: RefreshMinted)
    ensures AccessFromRefresh(g, f, family, scopes, m) ==
      Access(m.jtiHash, None, family.grant, family.user, family.client, scopes, m.issuedAt, m.accessExpiresAt,
             FromRefresh, Some(g), Some(f), family.originSession, Some(family.binding), None)
  {
  }

  /**
   A rotation consumes the presented generation and inserts its successor, which expires after the rolling
   lifetime or with the family if that is earlier, and one access row. Nothing else changes.
   */
  lemma RotationWrites(db: Db, c: Config, x: RefreshInput, d: RefreshDraws, now: Time)
    requires Refresh(db, c, x, d, now).1.Rotated?
    ensures var (after, outcome) := Refresh(db, c, x, d, now);
      var g := FindGeneration(db.generations, x.hash).value;
      var presented := db.generations[g];
      var f := db.families[presented.family];
      && FindGeneration(db.generations, x.hash).Some? && presented.family in db.families
      && after.generations ==
         db.generations[g := presented.(consumedAt := Some(now))][d.replacement :=
           Generation(presented.family, HashRefresh(RefreshToken(d.raw)), presented.number + 1, now,
                      Earlier(now + c.rollingTtl, f.absoluteExpiresAt), None)]
      && after.accesses == db.accesses[d.accessId :=
           Access(HashJti(d.jti), None, f.grant, f.user, f.client, outcome.response.scopes, now, now + c.accessTtl,
                  FromRefresh, Some(g), Some(presented.family), f.originSession, Some(f.binding), None)]
      && after.users == db.users && after.clients == db.clients && after.grants == db.grants && after.codes == db.codes
      && after.families == db.families && after.transactions == db.transactions && after.sessions == db.sessions
      && after.logouts == db.logouts
  {
    hide Refresh, HashJti, HashRefresh, RefreshToken, SameClient, ValidRefreshMinted, RefreshMintedFresh, StoreRotation;
    hide MintRefresh, ClaimsAre, SelectScopes, AccessFromRefresh;
    var g, scopes, m := TokenProofs.RotationOf(db, c, x, d, now);
    MintRefreshExact(c, AuthorityOfRefresh(db, g, scopes, now), d);
    StoredRotation(db, g, scopes, m, now);
    RotatedAccessRow(g, db.generations[g].family, db.families[db.generations[g].family], scopes, m);
  }

  /** The response carries the minted tokens, the lifetime in seconds and the scopes asked for, or all shared ones. */
  lemma RotationAnswers(db: Db, c: Config, x: RefreshInput, d: RefreshDraws, now: Time)
    requires Refresh(db, c, x, d, now).1.Rotated?
    ensures var r := Refresh(db, c, x, d, now).1.response;
      var g := FindGeneration(db.generations, x.hash).value;
      var f := db.families[db.generations[g].family];
      && FindGeneration(db.generations, x.hash).Some? && db.generations[g].family in db.families
      && f.user in db.users && f.client in db.clients && GrantKey(f.user, f.client) in db.grants
      && r.scopes == (if x.requested.Some? then x.requested.value else Shared(db, f))
      && ClaimsAre(r.access, c, db.users[f.user], db.clients[f.client], r.scopes, now, d.jti)
      && r.expiresIn == c.accessTtl / SECOND && r.refresh == Some(RefreshToken(d.raw))
  {
    hide Refresh, HashJti, HashRefresh, RefreshToken, SameClient, ValidRefreshMinted, RefreshMintedFresh, StoreRotation;
    hide MintRefresh, ClaimsAre;
    var g, scopes, m := TokenProofs.RotationOf(db, c, x, d, now);
    MintRefreshExact(c, AuthorityOfRefresh(db, g, scopes, now), d);
  }

  /** The successor of the presented token is stored unconsumed, for the rolling period or the rest of its family. */
  ghost predicate Replaced(db: Db, after: Db, c: Config, x: RefreshInput, d: RefreshDraws, now: Time) {
    var found := FindGeneration(db.generations, x.hash);
    && found.Some? && db.generations[found.value].family in db.families && d.replacement in after.generations
    && var (g, f) := (db.generations[found.value], db.families[db.generations[found.value].family]);
       after.generations[d.replacement] ==
       Generation(g.family, HashRefresh(RefreshToken(d.raw)), g.number + 1, now,
                  Earlier(now + c.rollingTtl, f.absoluteExpiresAt), None)
  }

  lemma RotationReplaces(db: Db, c: Config, x: RefreshInput, d: RefreshDraws, now: Time)
    requires Refresh(db, c, x, d, now).1.Rotated?
    ensures Replaced(db, Refresh(db, c, x, d, now).0, c, x, d, now)
  {
    hide Refresh, HashRefresh, RefreshToken, Earlier;
    RotationWrites(db, c, x, d, now);
  }

  /** Detected reuse revokes exactly the family and its live access rows. */
  lemma ReuseWrites(db: Db, c: Config, x: RefreshInput, d: RefreshDraws, now: Time)
    requires Refresh(db, c, x, d, now).1.Reused?
    ensures var after := Refresh(db, c, x, d, now).0;
      var f := db.generations[FindGeneration(db.generations, x.hash).value].family;
      && FindGeneration(db.generations, x.hash).Some? && f in db.families
      && after == db.(families := after.families, accesses := after.accesses)
      && after.families == db.families[f := db.families[f].(revokedAt := Some(now))]
      && after.accesses.Keys == db.accesses.Keys
      && forall a :: a in db.accesses ==>
           after.accesses[a] ==
           if db.accesses[a].family == Some(f) && db.accesses[a].revokedAt.None? && now < db.accesses[a].expiresAt
           then db.accesses[a].(revokedAt := Some(now)) else db.accesses[a]
  {
    hide Rotate;
    ReusedRequired(db, c, x, d, now);
    Reuse.OnlyLockedReuses(db, c, x, d, now);
  }

  // ----- Until when a token can be presented -----

  /** No step of the run presents this token. */
  predicate NeverPresented(ticks: seq<Tick>, hash: Digest) {
    forall i :: 0 <= i < |ticks| ==> ticks[i].event.TokenRefreshed? ==> ticks[i].event.refresh.hash != hash
  }

  lemma {:induction false} StaysUnconsumed(s: Settings, at: State, ticks: seq<Tick>, g: Id)
    requires Good(at) && g in at.db.generations && at.db.generations[g].consumedAt.None?
    requires NeverPresented(ticks, at.db.generations[g].hash)
    ensures var end := Run(s, at, ticks); g in end.db.generations ==> end.db.generations[g].consumedAt.None?
    decreases |ticks|
  {
    hide Inv, Stable, Apply, Protocol.OwnedBy;
    if ticks != [] {
      var next := Step(s, at, ticks[0]);
      TimePasses(at.db, at.clock, next.clock);
      TickKeeps(s, at, ticks[0]);
      assert forall i :: 0 <= i < |ticks[1..]| ==> ticks[1..][i] == ticks[i + 1];
      if g in next.db.generations {
        Reuse.FamilyOfKept(at.db, next.db, g, at.clock, next.clock);
        if next.db.generations[g].consumedAt.Some? {
          Protocol.ConsumersOwn(s, at.db, ticks[0].event, next.clock, g);
        }
        StaysUnconsumed(s, next, ticks[1..], g);
      } else {
        RunKeeps(s, next, ticks[1..]);
        GoneStaysGone(at.db, next.db, Run(s, next, ticks[1..]).db, g, at.clock);
      }
    }
  }

  lemma GoneStaysGone(a: Db, b: Db, c: Db, g: Id, clock: Time)
    requires Inv(a, clock) && Stable(a, b) && Stable(b, c) && g in a.generations && g !in b.generations
    ensures g !in c.generations
  {
    hide Inv, UsersStable, ClientsStable, GrantsStable, TransactionsStable, CodesStable, FamiliesStable;
    hide AccessesStable, SessionsStable, LogoutsStable;
    Reuse.GenerationIdUsed(a, g, clock);
  }

  /**
   A generation that is not presented meanwhile, of a family that stays unrevoked, rotates for its client
   exactly as long as the clock is before the expiry it was stored with, whatever else happens.
   */
  lemma UsableExactlyUntilExpiry(s: Settings, at: State, g: Id, caller: Caller, ticks: seq<Tick>, e: RefreshDraws)
    requires Good(at) && ValidConfig(s.config) && Genuine(at.db, caller)
    requires g in at.db.generations && at.db.generations[g].consumedAt.None?
    requires at.db.generations[g].number != MAX_GENERATION
    requires at.db.generations[g].family in at.db.families
    requires at.db.families[at.db.generations[g].family].client == caller.id
    requires NeverPresented(ticks, at.db.generations[g].hash)
    requires var end := Run(s, at, ticks);
      && at.db.generations[g].family in end.db.families
      && end.db.families[at.db.generations[g].family].revokedAt.None? && FreshDraws(end.db, e)
    ensures var end := Run(s, at, ticks);
      Refresh(end.db, s.config, RefreshInput(at.db.generations[g].hash, caller, None), e, end.clock).1.Rotated? <==>
      end.clock < at.db.generations[g].expiresAt
  {
    hide Inv, Stable, Run, Refresh, ValidConfig, FreshDraws, Genuine, NeverPresented;
    var end := Run(s, at, ticks);
    var hash := at.db.generations[g].hash;
    RunKeeps(s, at, ticks);
    StaysUnconsumed(s, at, ticks, g);
    Reuse.GenuineOverTime(at.db, end.db, caller);
    Interleaving.HashNamesSame(at.db, at.clock, end.db, g, hash);
    ExpiryBeforeDeadline(at.db, g, at.clock);
    if end.clock < at.db.generations[g].expiresAt {
      Reuse.GenerationPersists(s, at, ticks, g);
      Reuse.FamilyOfKept(at.db, end.db, g, at.clock, end.clock);
      ExpiryKept(at.db, end.db, g);
      Rotates(end.db, s.config, g, caller, None, e, end.clock);
    } else if Refresh(end.db, s.config, RefreshInput(hash, caller, None), e, end.clock).1.Rotated? {
      RotatedWasPresentable(end.db, s.config, RefreshInput(hash, caller, None), e, end.clock);
      ExpiryKept(at.db, end.db, g);
    }
  }

  lemma ExpiryBeforeDeadline(db: Db, g: Id, now: Time)
    requires Inv(db, now) && g in db.generations
    ensures db.generations[g].family in db.families
    ensures db.generations[g].expiresAt <= db.families[db.generations[g].family].absoluteExpiresAt
  {
    hide Inv;
    TokenProofs.GenerationRowOk(db, g, now);
  }

  lemma ExpiryKept(db: Db, after: Db, g: Id)
    requires Stable(db, after) && g in db.generations && g in after.generations
    ensures after.generations[g].expiresAt == db.generations[g].expiresAt
    ensures after.generations[g].number == db.generations[g].number
  {
    hide UsersStable, ClientsStable, GrantsStable, TransactionsStable, CodesStable, FamiliesStable;
    hide AccessesStable, SessionsStable, LogoutsStable;
    assert GenerationKept(db.generations[g], after.generations[g]);
  }

  /**
   The refresh token a rotation hands out rotates again, for the same client, exactly until the rolling
   lifetime has passed or the family's deadline has come, if it is not presented and the family not revoked before.
   */
  lemma RotatedTokenLives(s: Settings, at: State, x: RefreshInput, d: RefreshDraws, ticks: seq<Tick>, e: RefreshDraws)
    requires Good(at) && ValidConfig(s.config) && Refresh(at.db, s.config, x, d, at.clock).1.Rotated?
    requires var presented := at.db.generations[FindGeneration(at.db.generations, x.hash).value];
      var end := Run(s, Step(s, at, Tick(0, TokenRefreshed(x, d))), ticks);
      && FindGeneration(at.db.generations, x.hash).Some? && presented.number + 1 != MAX_GENERATION
      && NeverPresented(ticks, HashRefresh(RefreshToken(d.raw)))
      && presented.family in end.db.families && end.db.families[presented.family].revokedAt.None?
      && FreshDraws(end.db, e)
    ensures var f := at.db.generations[FindGeneration(at.db.generations, x.hash).value].family;
      var end := Run(s, Step(s, at, Tick(0, TokenRefreshed(x, d))), ticks);
      var token := Refresh(at.db, s.config, x, d, at.clock).1.response.refresh;
      && token.Some? && f in at.db.families
      && var next := RefreshInput(HashRefresh(token.value), x.caller, None);
         (Refresh(end.db, s.config, next, e, end.clock).1.Rotated? <==>
          end.clock < Earlier(at.clock + s.config.rollingTtl, at.db.families[f].absoluteExpiresAt))
  {
    hide Inv, Stable, Run, Refresh, ValidConfig, FreshDraws, Genuine, NeverPresented, HashRefresh, RefreshToken;
    hide ClaimsAre;
    var after := Step(s, at, Tick(0, TokenRefreshed(x, d)));
    TickKeeps(s, at, Tick(0, TokenRefreshed(x, d)));
    RotationWrites(at.db, s.config, x, d, at.clock);
    RotationAnswers(at.db, s.config, x, d, at.clock);
    Reuse.RotationConsumes(at.db, s.config, x, d, at.clock);
    UsableExactlyUntilExpiry(s, after, d.replacement, x.caller, ticks, e);
  }

  /** Likewise for the refresh token of a code exchange, whose family is given its deadline by the exchange. */
  lemma ExchangedTokenLives(s: Settings, at: State, x: ExchangeInput, d: CodeDraws, ticks: seq<Tick>, e: RefreshDraws)
    requires Good(at) && ValidConfig(s.config)
    requires var outcome := Exchange(at.db, s.config, x, d, at.clock).1;
      outcome.Issued? && OfflineAccess in outcome.response.scopes
    requires var end := Run(s, Step(s, at, Tick(0, CodeExchanged(x, d))), ticks);
      && NeverPresented(ticks, HashRefresh(RefreshToken(d.raw)))
      && d.family in end.db.families && end.db.families[d.family].revokedAt.None? && FreshDraws(end.db, e)
    ensures var end := Run(s, Step(s, at, Tick(0, CodeExchanged(x, d))), ticks);
      var token := Exchange(at.db, s.config, x, d, at.clock).1.response.refresh;
      && token.Some?
      && var next := RefreshInput(HashRefresh(token.value), x.caller, None);
         (Refresh(end.db, s.config, next, e, end.clock).1.Rotated? <==>
          end.clock < at.clock + s.config.rollingTtl)
  {
    hide Inv, Stable, Run, Refresh, Exchange, ValidConfig, FreshDraws, NeverPresented, HashRefresh, RefreshToken;
    hide ClaimsAre, Proves;
    var after := Step(s, at, Tick(0, CodeExchanged(x, d)));
    TickKeeps(s, at, Tick(0, CodeExchanged(x, d)));
    ExchangeWrites(at.db, s.config, x, d, at.clock);
    ExchangeAnswers(at.db, s.config, x, d, at.clock);
    IssuedRequired(at.db, s.config, x, d, at.clock);
    UsableExactlyUntilExpiry(s, after, d.token, x.caller, ticks, e);
  }
}
