/**
 What the machine guarantees over whole runs: live families, complete cascades, unbroken
 generation chains, fenced codes, single use, and rotation for an honest client.
 */
module Guarantees {
  import opened Schema
  import opened TokenPolicy
  import opened Tokens
  import opened Authorization
  import opened Invariants
  import opened Machine
  import opened Progress
  import TokenProofs
  import WithdrawalProofs

  // ----- Reachable states -----

  /** Live families: behind every unrevoked family stand an active user, an active client and a covering grant. */
  lemma LiveFamilies(s: Settings, ticks: seq<Tick>, f: Id)
    requires var db := Run(s, START, ticks).db; f in db.families && db.families[f].revokedAt.None?
    ensures var db := Run(s, START, ticks).db;
      var family := db.families[f];
      && family.user in db.users && db.users[family.user].status == Active
      && family.client in db.clients && db.clients[family.client].status == Active
      && {OpenId, OfflineAccess} <= db.clients[family.client].scopes
      && GrantStands(db, family.user, family.client, family.grant)
      && family.scopes <= db.grants[GrantKey(family.user, family.client)].scopes
  {
    hide Run;
    ReachableIsGood(s, ticks);
    var end := Run(s, START, ticks);
    WithdrawalProofs.FamiliesAreAlive(end.db, end.clock);
    assert FamilyAlive(end.db.families[f], end.db.users, end.db.clients, end.db.grants);
  }

  lemma AccessRowFacts(db: Db, a: Id, now: Time)
    requires Inv(db, now) && a in db.accesses
    ensures OfItsFamily(db.accesses[a], db.families)
    ensures db.accesses[a].family.Some? ==> FamilyOk(db.families[db.accesses[a].family.value], db.grants, now)
  {
    hide FreshOk, ClientsOk, GrantsOk, CodesOk, TransactionsOk, FamilyCodesOk, LiveFamiliesOk, GenerationsOk;
    hide ChainsOk, AccessesOk, AccessCodesOk, AccessSourcesOk, LiveAccessesOk, SessionsOk, LogoutsOk, FamilyOk;
    assert OfItsFamily(db.accesses[a], db.families);
  }

  /** Cascade completeness: no access row outlives its family's revocation. */
  lemma CascadesAreComplete(s: Settings, ticks: seq<Tick>, a: Id)
    requires var db := Run(s, START, ticks).db; a in db.accesses && db.accesses[a].family.Some?
    ensures var end := Run(s, START, ticks);
      var row := end.db.accesses[a];
      && row.family.value in end.db.families
      && var family := end.db.families[row.family.value];
         && family.user == row.user && family.client == row.client && family.grant == row.grant
         && Some(family.binding) == row.binding && row.scopes <= family.scopes
         && (family.revokedAt.Some? ==> row.revokedAt.Some? || row.expiresAt <= end.clock)
  {
    hide Run;
    ReachableIsGood(s, ticks);
    var end := Run(s, START, ticks);
    AccessRowFacts(end.db, a, end.clock);
  }

  /** The numbers a family's stored generations carry. */
  ghost predicate NumbersUpTo(generations: map<Id, Generation>, family: Id, n: nat) {
    && (forall k :: 0 <= k <= n ==> HasNumber(generations, family, k))
    && (forall g :: g in generations && generations[g].family == family ==>
          generations[g].number <= n && (generations[g].consumedAt.None? <==> generations[g].number == n))
    && (forall g, h ::
          g in generations && h in generations && generations[g].family == family == generations[h].family &&
          generations[g].number == generations[h].number
          ==> g == h)
  }

  lemma ChainShape(db: Db, f: Id, now: Time) returns (n: nat)
    requires Inv(db, now) && f in db.families && db.families[f].absoluteExpiresAt > now
    ensures NumbersUpTo(db.generations, f, n)
  {
    hide FreshOk, ClientsOk, GrantsOk, CodesOk, TransactionsOk, FamiliesOk, FamilyCodesOk, LiveFamiliesOk;
    hide AccessesOk, AccessCodesOk, AccessFamiliesOk, AccessSourcesOk, LiveAccessesOk, SessionsOk, LogoutsOk;
    hide GenerationOk;
    assert HasHead(db.generations, f);
    var head :| IsHead(db.generations, f, head);
    n := db.generations[head].number;
    forall g | g in db.generations && db.generations[g].family == f
      ensures db.generations[g].number <= n
      ensures db.generations[g].consumedAt.None? <==> db.generations[g].number == n
    {
      assert Ordered(db.generations, g, head);
    }
    forall k | 0 <= k <= n
      ensures HasNumber(db.generations, f, k)
    {
      if k == n { assert db.generations[head].family == f && db.generations[head].number == k; }
    }
    assert forall g, h :: g in db.generations && h in db.generations ==> Ordered(db.generations, g, h);
  }

  /**
   Generation chain: until its absolute deadline a family's generations are numbered 0..n without
   gap or repetition and only the last is unconsumed, whatever cleanup has done.
   */
  lemma ChainsAreUnbroken(s: Settings, ticks: seq<Tick>, f: Id) returns (n: nat)
    requires var end := Run(s, START, ticks); f in end.db.families && end.db.families[f].absoluteExpiresAt > end.clock
    ensures NumbersUpTo(Run(s, START, ticks).db.generations, f, n)
  {
    hide Run, NumbersUpTo;
    ReachableIsGood(s, ticks);
    var end := Run(s, START, ticks);
    n := ChainShape(end.db, f, end.clock);
  }

  /** Version fencing and the uniqueness of what descends from a transaction and from a code. */
  lemma CodesAreFenced(s: Settings, ticks: seq<Tick>, c: Id)
    requires c in Run(s, START, ticks).db.codes
    ensures var db := Run(s, START, ticks).db;
      var code := db.codes[c];
      && GrantKey(code.user, code.client) in db.grants
      && var grant := db.grants[GrantKey(code.user, code.client)];
         && grant.id == code.grant && code.grantVersion <= grant.version
         && (code.grantVersion == grant.version ==> grant.revokedAt.None? && code.scopes <= grant.scopes)
         && (forall d :: d in db.codes && db.codes[d].transaction == code.transaction ==> d == c)
  {
    hide Run;
    ReachableIsGood(s, ticks);
    var end := Run(s, START, ticks);
    CodeFacts(end.db, c, end.clock);
  }

  lemma CodeFacts(db: Db, c: Id, now: Time)
    requires Inv(db, now) && c in db.codes
    ensures Fenced(db.codes[c], db.grants) && CodeOk(db.codes[c], now)
    ensures forall d :: d in db.codes && db.codes[d].transaction == db.codes[c].transaction ==> d == c
    ensures db.codes[c].transaction in db.transactions
    ensures forall d :: d in db.codes && db.codes[d].hash == db.codes[c].hash ==> d == c
  {
    hide FreshOk, ClientsOk, GrantsOk, FamiliesOk, FamilyCodesOk, LiveFamiliesOk, GenerationsOk;
    hide ChainsOk, AccessesOk, AccessCodesOk, AccessFamiliesOk, AccessSourcesOk, LiveAccessesOk, SessionsOk, LogoutsOk;
    hide Fenced, CodeOk;
  }

  /** At most one family and one access row name this code. */
  ghost predicate FromOneCode(db: Db, c: Id) {
    && (forall f, h ::
          f in db.families && h in db.families && db.families[f].originCode == Some(c) == db.families[h].originCode
          ==> f == h)
    && (forall a, b ::
          a in db.accesses && b in db.accesses && db.accesses[a].code == Some(c) == db.accesses[b].code
          ==> a == b)
  }

  /** A code has at most one family and one access row, and none before it is consumed. */
  lemma CodesDescendOnce(s: Settings, ticks: seq<Tick>, c: Id)
    ensures var db := Run(s, START, ticks).db;
      && FromOneCode(db, c)
      && (c in db.codes && db.codes[c].consumedAt.None? ==> TokenProofs.CodeUnused(db, c))
  {
    hide Run;
    ReachableIsGood(s, ticks);
    var end := Run(s, START, ticks);
    LinksAreUnique(end.db, c, end.clock);
    if c in end.db.codes && end.db.codes[c].consumedAt.None? {
      TokenProofs.UnconsumedIsUnused(end.db, c, end.clock);
    }
  }

  lemma LinksAreUnique(db: Db, c: Id, now: Time)
    requires Inv(db, now)
    ensures FromOneCode(db, c)
  {
    hide FreshOk, ClientsOk, GrantsOk, CodesOk, TransactionsOk, FamiliesOk, LiveFamiliesOk, GenerationsOk;
    hide ChainsOk, AccessesOk, AccessFamiliesOk, AccessSourcesOk, LiveAccessesOk, SessionsOk, LogoutsOk, OfCode;
  }

  // ----- Single use over runs -----

  /** A digest whose row is consumed, or gone, never again names an unconsumed generation. */
  ghost predicate HashSpent(db: Db, hash: Digest) {
    && hash in db.usedHashes
    && forall g :: g in db.generations && db.generations[g].hash == hash ==> db.generations[g].consumedAt.Some?
  }

  lemma HashStaysSpent(db: Db, after: Db, hash: Digest)
    requires Stable(db, after) && HashSpent(db, hash)
    ensures HashSpent(after, hash)
  {
    hide UsersStable, ClientsStable, GrantsStable, TransactionsStable, CodesStable, FamiliesStable;
    hide AccessesStable, SessionsStable, LogoutsStable;
  }

  lemma StoreRotationSpends(db: Db, g: Id, scopes: set<Scope>, m: RefreshMinted, now: Time)
    requires g in db.generations && db.generations[g].family in db.families
    requires db.generations[g].hash in db.usedHashes && m.replacementHash !in db.usedHashes
    requires forall h :: h in db.generations && db.generations[h].hash == db.generations[g].hash ==> h == g
    ensures HashSpent(StoreRotation(db, g, scopes, m, now), db.generations[g].hash)
  {
  }

  lemma RotationSpends(db: Db, c: Config, x: RefreshInput, d: RefreshDraws, now: Time)
    requires Inv(db, now) && Refresh(db, c, x, d, now).1.Rotated?
    ensures HashSpent(Refresh(db, c, x, d, now).0, x.hash)
  {
    hide Inv, Refresh, ValidRefreshMinted, FamilyAuthorized, MintRefresh, SelectScopes, StoreRotation, HashSpent;
    var g, scopes, m := TokenProofs.RotationOf(db, c, x, d, now);
    HashUsed(db, g, now);
    forall h | h in db.generations && db.generations[h].hash == x.hash
      ensures h == g
    {
      OneHash(db, g, h, now);
    }
    StoreRotationSpends(db, g, scopes, m, now);
  }

  lemma HashUsed(db: Db, g: Id, now: Time)
    requires Inv(db, now) && g in db.generations
    ensures db.generations[g].hash in db.usedHashes
  {
  }

  lemma OneHash(db: Db, g: Id, h: Id, now: Time)
    requires Inv(db, now) && g in db.generations && h in db.generations &&
             db.generations[g].hash == db.generations[h].hash
    ensures g == h
  {
    hide Inv;
    HashFindsGeneration(db, g, now);
    HashFindsGeneration(db, h, now);
  }

  /** Each generation is rotated at most once: after a rotation no refresh of the same token ever rotates again. */
  lemma RotatedOnce(s: Settings, at: State, x: RefreshInput, d: RefreshDraws, ticks: seq<Tick>, y: RefreshInput,
                    e: RefreshDraws)
    requires Good(at) && Refresh(at.db, s.config, x, d, at.clock).1.Rotated? && y.hash == x.hash
    ensures var after := State(Refresh(at.db, s.config, x, d, at.clock).0, at.clock);
      var end := Run(s, after, ticks);
      !Refresh(end.db, s.config, y, e, end.clock).1.Rotated?
  {
    hide Inv, Stable, Run, Refresh;
    var after := State(Refresh(at.db, s.config, x, d, at.clock).0, at.clock);
    TokenProofs.RefreshKeeps(at.db, s.config, x, d, at.clock);
    RotationSpends(at.db, s.config, x, d, at.clock);
    RunKeeps(s, after, ticks);
    var end := Run(s, after, ticks);
    HashStaysSpent(after.db, end.db, x.hash);
    if Refresh(end.db, s.config, y, e, end.clock).1.Rotated? {
      RotatedWasPresentable(end.db, s.config, y, e, end.clock);
    }
  }

  ghost predicate CodeSpent(db: Db, hash: Digest) {
    && hash in db.usedHashes
    && forall c :: c in db.codes && db.codes[c].hash == hash ==> db.codes[c].consumedAt.Some?
  }

  lemma CodeStaysSpent(db: Db, after: Db, hash: Digest)
    requires Stable(db, after) && CodeSpent(db, hash)
    ensures CodeSpent(after, hash)
  {
    hide UsersStable, ClientsStable, GrantsStable, TransactionsStable, GenerationsStable, FamiliesStable;
    hide AccessesStable, SessionsStable, LogoutsStable;
  }

  lemma StoreExchangeSpends(db: Db, id: Id, m: Minted, now: Time)
    requires id in db.codes && (m.initial.Some? ==> db.codes[id].binding.Some?)
    requires db.codes[id].hash in db.usedHashes
    requires forall d :: d in db.codes && db.codes[d].hash == db.codes[id].hash ==> d == id
    ensures CodeSpent(StoreExchange(db, id, m, now), db.codes[id].hash)
  {
  }

  lemma ExchangeSpends(db: Db, c: Config, x: ExchangeInput, d: CodeDraws, now: Time)
    requires Inv(db, now) && Exchange(db, c, x, d, now).1.Issued?
    ensures CodeSpent(Exchange(db, c, x, d, now).0, x.codeHash)
  {
    hide Inv, Exchange, CodeAuthorized, Mint, ValidMinted, MintedFresh, StoreExchange, CodeSpent, Fenced, CodeOk;
    var m := TokenProofs.MintedFor(db, c, x, d, now);
    var id := FindCode(db.codes, x.codeHash).value;
    CodeFacts(db, id, now);
    CodeHashUsed(db, id, now);
    StoreExchangeSpends(db, id, m, now);
  }

  lemma CodeHashUsed(db: Db, c: Id, now: Time)
    requires Inv(db, now) && c in db.codes
    ensures db.codes[c].hash in db.usedHashes
  {
  }

  /** Each code yields at most one response: after an exchange no exchange of the same code ever issues again. */
  lemma ExchangedOnce(s: Settings, at: State, x: ExchangeInput, d: CodeDraws, ticks: seq<Tick>, y: ExchangeInput,
                      e: CodeDraws)
    requires Good(at) && Exchange(at.db, s.config, x, d, at.clock).1.Issued? && y.codeHash == x.codeHash
    ensures var after := State(Exchange(at.db, s.config, x, d, at.clock).0, at.clock);
      var end := Run(s, after, ticks);
      !Exchange(end.db, s.config, y, e, end.clock).1.Issued?
  {
    hide Inv, Stable, Run, Exchange;
    var after := State(Exchange(at.db, s.config, x, d, at.clock).0, at.clock);
    TokenProofs.ExchangeKeeps(at.db, s.config, x, d, at.clock);
    ExchangeSpends(at.db, s.config, x, d, at.clock);
    RunKeeps(s, after, ticks);
    var end := Run(s, after, ticks);
    CodeStaysSpent(after.db, end.db, x.codeHash);
    if Exchange(end.db, s.config, y, e, end.clock).1.Issued? {
      var m := TokenProofs.MintedFor(end.db, s.config, y, e, end.clock);
    }
  }

  /** A transaction that is consumed, or gone, stays so. */
  ghost predicate TransactionSpent(db: Db, t: Id) {
    t in db.usedIds && (t in db.transactions ==> db.transactions[t].consumedAt.Some?)
  }

  lemma TransactionStaysSpent(db: Db, after: Db, t: Id)
    requires Stable(db, after) && TransactionSpent(db, t)
    ensures TransactionSpent(after, t)
  {
    hide UsersStable, ClientsStable, GrantsStable, CodesStable, GenerationsStable, FamiliesStable;
    hide AccessesStable, SessionsStable, LogoutsStable;
  }

  lemma TransactionUsed(db: Db, t: Id, now: Time)
    requires Inv(db, now) && t in db.transactions
    ensures t in db.usedIds
  {
  }

  lemma IssueSpends(db: Db, x: IssueInput, now: Time)
    requires x.transaction in db.usedIds && Issue(db, x, now).1.CodeIssued?
    ensures TransactionSpent(Issue(db, x, now).0, x.transaction)
  {
    hide ApplyConsent, ClientAdmits;
  }

  /** Each authorization transaction yields at most one code. */
  lemma IssuedOnce(s: Settings, at: State, x: IssueInput, ticks: seq<Tick>, y: IssueInput)
    requires Good(at) && Issue(at.db, x, at.clock).1.CodeIssued? && y.transaction == x.transaction
    ensures var after := Step(s, at, Tick(0, CodeRequested(x)));
      var end := Run(s, after, ticks);
      !Issue(end.db, y, end.clock).1.CodeIssued?
  {
    hide Inv, Stable, Run, ApplyConsent, ClientAdmits, StoreIssue, CodeInsertable;
    var after := Step(s, at, Tick(0, CodeRequested(x)));
    TickKeeps(s, at, Tick(0, CodeRequested(x)));
    TransactionUsed(at.db, x.transaction, at.clock);
    IssueSpends(at.db, x, at.clock);
    RunKeeps(s, after, ticks);
    TransactionStaysSpent(after.db, Run(s, after, ticks).db, x.transaction);
  }

  // ----- Progress over runs -----

  /**
   A client that authenticated in an earlier state of the run and presents the unconsumed, unexpired
   generation of its own unrevoked family obtains a rotation, whatever happened in between.
   */
  lemma HonestRefreshRotates(s: Settings, at: State, client: Id, ticks: seq<Tick>, g: Id, d: RefreshDraws)
    requires Good(at) && ValidConfig(s.config) && client in at.db.clients
    requires var end := Run(s, at, ticks);
      && FreshDraws(end.db, d)
      && Presentable(end.db, g, Caller(client, at.db.clients[client]), end.clock)
      && end.db.generations[g].number != MAX_GENERATION
    ensures var end := Run(s, at, ticks);
      var x := RefreshInput(end.db.generations[g].hash, Caller(client, at.db.clients[client]), None);
      Refresh(end.db, s.config, x, d, end.clock).1.Rotated?
  {
    hide Inv, Run, Refresh, FreshDraws, ValidConfig;
    hide UsersStable, GrantsStable, TransactionsStable, CodesStable, FamiliesStable, GenerationsStable, AccessesStable;
    hide SessionsStable, LogoutsStable;
    RunKeeps(s, at, ticks);
    var end := Run(s, at, ticks);
    var caller := Caller(client, at.db.clients[client]);
    GenuineForever(at.db, end.db, caller);
    Rotates(end.db, s.config, g, caller, None, d, end.clock);
  }
}
