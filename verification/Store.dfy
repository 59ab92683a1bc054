/**
 The store as the source writes it: one object holding the committed rows, and a method per
 transaction that works statement by statement on a private copy and installs it on commit.
 Returning before the commit is the rollback. Each method is proved equal to its atomic step.
 */
module Store {
  import opened Schema
  import opened TokenPolicy
  import opened Revocation
  import opened Tokens
  import opened Authorization
  import opened Sessions
  import opened Accounts
  import opened Logouts
  import opened Cleanup
  import opened Invariants
  import ExchangeExact
  import RefreshExact
  import ConsentExact
  import TokenProofs
  import IssueProofs
  import SessionProofs
  import WithdrawalProofs
  import CleanupProofs

  // ----- Unique-index lookups -----

  method LookUpCode(codes: map<Id, Code>, hash: Digest) returns (r: Option<Id>)
    requires forall c, d :: c in codes && d in codes && codes[c].hash == codes[d].hash ==> c == d
    ensures r == FindCode(codes, hash)
  {
    if exists c :: c in codes && codes[c].hash == hash {
      var c :| c in codes && codes[c].hash == hash;
      return Some(c);
    }
    return None;
  }

  method LookUpGeneration(generations: map<Id, Generation>, hash: Digest) returns (r: Option<Id>)
    requires forall g, h ::
      g in generations && h in generations && generations[g].hash == generations[h].hash ==> g == h
    ensures r == FindGeneration(generations, hash)
  {
    if exists g :: g in generations && generations[g].hash == hash {
      var g :| g in generations && generations[g].hash == hash;
      return Some(g);
    }
    return None;
  }

  method LookUpAccess(accesses: map<Id, Access>, hash: Digest) returns (r: Option<Id>)
    requires forall a, b :: a in accesses && b in accesses && accesses[a].jtiHash == accesses[b].jtiHash ==> a == b
    ensures r == FindAccess(accesses, hash)
  {
    if exists a :: a in accesses && accesses[a].jtiHash == hash {
      var a :| a in accesses && accesses[a].jtiHash == hash;
      return Some(a);
    }
    return None;
  }

  method LookUpSession(sessions: map<Id, Session>, hash: Digest) returns (r: Option<Id>)
    requires forall s, t :: s in sessions && t in sessions && sessions[s].tokenHash == sessions[t].tokenHash ==> s == t
    ensures r == FindSession(sessions, hash)
  {
    if exists s :: s in sessions && sessions[s].tokenHash == hash {
      var s :| s in sessions && sessions[s].tokenHash == hash;
      return Some(s);
    }
    return None;
  }

  method LookUpLogout(logouts: map<Id, Logout>, hash: Digest) returns (r: Option<Id>)
    requires forall l, m :: l in logouts && m in logouts && logouts[l].lookupHash == logouts[m].lookupHash ==> l == m
    ensures r == FindLogout(logouts, hash)
  {
    if exists l :: l in logouts && logouts[l].lookupHash == hash {
      var l :| l in logouts && logouts[l].lookupHash == hash;
      return Some(l);
    }
    return None;
  }

  lemma UniqueIndexes(db: Db, now: Time)
    requires Inv(db, now)
    ensures forall c, d :: c in db.codes && d in db.codes && db.codes[c].hash == db.codes[d].hash ==> c == d
    ensures forall g, h ::
      g in db.generations && h in db.generations && db.generations[g].hash == db.generations[h].hash ==> g == h
    ensures forall a, b ::
      a in db.accesses && b in db.accesses && db.accesses[a].jtiHash == db.accesses[b].jtiHash ==> a == b
    ensures forall s, t ::
      s in db.sessions && t in db.sessions && db.sessions[s].tokenHash == db.sessions[t].tokenHash ==> s == t
    ensures forall l, m ::
      l in db.logouts && m in db.logouts && db.logouts[l].lookupHash == db.logouts[m].lookupHash ==> l == m
  {
    hide CodeOk, Fenced, GenerationOk, Ordered, AccessOk, LogoutOk, FreshOk, FamiliesOk, LiveFamiliesOk, ChainsOk;
    hide AccessCodesOk, AccessFamiliesOk, AccessSourcesOk, LiveAccessesOk, FamilyCodesOk, TransactionsOk, GrantsOk;
    hide ClientsOk;
  }

  // ----- Session cascades -----

  function Members(ids: seq<Id>): set<Id> {
    set i | 0 <= i < |ids| :: ids[i]
  }

  lemma MembersSnoc(ids: seq<Id>, x: Id)
    ensures Members(ids + [x]) == Members(ids) + {x}
  {
    var longer := ids + [x];
    assert forall i :: 0 <= i < |ids| ==> longer[i] == ids[i];
    forall y | y in Members(ids) + {x}
      ensures y in Members(longer)
    {
      if y == x {
        assert longer[|ids|] == y;
      } else {
        var i :| 0 <= i < |ids| && ids[i] == y;
        assert longer[i] == y;
      }
    }
  }

  lemma MembersPrefix(ids: seq<Id>, n: nat)
    requires n < |ids|
    ensures Members(ids[..n + 1]) == Members(ids[..n]) + {ids[n]}
  {
    assert ids[..n + 1] == ids[..n] + [ids[n]];
    MembersSnoc(ids[..n], ids[n]);
  }

  lemma MembersWhole(ids: seq<Id>)
    ensures Members(ids[..|ids|]) == Members(ids)
  {
    assert ids[..|ids|] == ids;
  }

  predicate Distinct(ids: seq<Id>) {
    forall i, j :: 0 <= i < j < |ids| ==> ids[i] != ids[j]
  }

  /** LockActiveLoginSessionsByUser: the user's unrevoked sessions, each once. */
  method ListActive(sessions: map<Id, Session>, user: Id) returns (ids: seq<Id>)
    ensures Distinct(ids) && Members(ids) == ActiveSessionsOf(sessions, user)
    ensures |ids| == |ActiveSessionsOf(sessions, user)|
  {
    var rest := ActiveSessionsOf(sessions, user);
    ids := [];
    while rest != {}
      invariant rest <= ActiveSessionsOf(sessions, user)
      invariant Members(ids) == ActiveSessionsOf(sessions, user) - rest
      invariant Distinct(ids) && |ids| + |rest| == |ActiveSessionsOf(sessions, user)|
      decreases |rest|
    {
      var s :| s in rest;
      assert s !in Members(ids);
      MembersSnoc(ids, s);
      ids, rest := ids + [s], rest - {s};
    }
  }

  lemma CascadeOnNothing(db: Db, now: Time)
    ensures Cascade(db, OnBindings({}), now) == db
  {
    assert RevokeFamilies(db.families, OnBindings({}), now) == db.families;
    assert RevokeAccesses(db.accesses, OnBindings({}), now) == db.accesses;
  }

  /** revokeSessionBindingsCascade: the distinct non-nil bindings of a list, revoked in one statement each. */
  method RevokeBindings(db: Db, bindings: seq<Id>, now: Time) returns (tx: Db)
    requires now != 0
    ensures tx == Cascade(db, OnBindings(Members(bindings) - {NIL}), now)
  {
    hide RevokeFamilies, RevokeAccesses;
    var unique: seq<Id>, seen: set<Id> := [], {};
    for i := 0 to |bindings|
      invariant seen == Members(bindings[..i]) - {NIL} == Members(unique)
      invariant Distinct(unique)
    {
      MembersPrefix(bindings, i);
      if bindings[i] != NIL && bindings[i] !in seen {
        assert bindings[i] !in Members(unique);
        MembersSnoc(unique, bindings[i]);
        seen, unique := seen + {bindings[i]}, unique + [bindings[i]];
      }
    }
    MembersWhole(bindings);
    tx := db;
    if |unique| == 0 {
      CascadeOnNothing(db, now);
      return;
    }
    tx := tx.(families := RevokeFamilies(tx.families, OnBindings(seen), now));
    tx := tx.(accesses := RevokeAccesses(tx.accesses, OnBindings(seen), now));
  }

  lemma RevokeOneMore(sessions: map<Id, Session>, ids: set<Id>, id: Id, now: Time)
    requires id in sessions
    ensures var revoked := RevokeSessions(sessions, ids, now);
      RevokeSessions(revoked, {id}, now) == RevokeSessions(sessions, ids + {id}, now)
  {
  }

  function Except(ids: set<Id>, current: Option<Id>): set<Id> {
    if current.Some? then ids - {current.value} else ids
  }

  /** The first loop: the bindings of the listed sessions but the current one. */
  method CollectBindings(sessions: map<Id, Session>, listed: seq<Id>, current: Option<Id>) returns (bindings: seq<Id>)
    requires Members(listed) <= sessions.Keys
    ensures Members(bindings) == BindingsOf(sessions, Except(Members(listed), current))
  {
    bindings := [];
    for i := 0 to |listed|
      invariant Members(bindings) == BindingsOf(sessions, Except(Members(listed[..i]), current))
    {
      assert listed[i] in Members(listed);
      MembersPrefix(listed, i);
      if current != Some(listed[i]) {
        MembersSnoc(bindings, sessions[listed[i]].binding);
        BindingsGrow(sessions, Except(Members(listed[..i]), current), listed[i]);
        bindings := bindings + [sessions[listed[i]].binding];
        assert Except(Members(listed[..i + 1]), current) == Except(Members(listed[..i]), current) + {listed[i]};
      } else {
        assert Except(Members(listed[..i + 1]), current) == Except(Members(listed[..i]), current);
      }
    }
    MembersWhole(listed);
  }

  lemma BindingsGrow(sessions: map<Id, Session>, ids: set<Id>, id: Id)
    requires id in sessions
    ensures BindingsOf(sessions, ids + {id}) == BindingsOf(sessions, ids) + {sessions[id].binding}
  {
  }

  lemma RevokeNone(sessions: map<Id, Session>, now: Time)
    ensures RevokeSessions(sessions, {}, now) == sessions
  {
  }

  lemma NotBefore(ids: seq<Id>, n: nat)
    requires Distinct(ids) && n < |ids|
    ensures ids[n] !in Members(ids[..n])
  {
  }

  /** One more listed session, taken into account or skipped. */
  lemma ExceptGrows(listed: seq<Id>, i: nat, current: Option<Id>)
    requires Distinct(listed) && i < |listed|
    ensures var done := Except(Members(listed[..i]), current);
      && listed[i] in Members(listed)
      && (if current == Some(listed[i]) then Except(Members(listed[..i + 1]), current) == done
          else listed[i] !in done && Except(Members(listed[..i + 1]), current) == done + {listed[i]})
  {
    MembersPrefix(listed, i);
    NotBefore(listed, i);
    assert listed[i] in Members(listed);
  }

  /** The second loop: revoke each listed session but the current one, and count them. */
  method RevokeListed(sessions: map<Id, Session>, listed: seq<Id>, current: Option<Id>, now: Time)
    returns (after: map<Id, Session>, count: nat)
    requires Members(listed) <= sessions.Keys && Distinct(listed)
    ensures after == RevokeSessions(sessions, Except(Members(listed), current), now)
    ensures count == |Except(Members(listed), current)|
  {
    hide RevokeSessions, Distinct, Except, Members;
    after, count := sessions, 0;
    RevokeNone(sessions, now);
    NothingYet(listed, current);
    for i := 0 to |listed|
      invariant after == RevokeSessions(sessions, Except(Members(listed[..i]), current), now)
      invariant count == |Except(Members(listed[..i]), current)|
    {
      ExceptGrows(listed, i, current);
      if current != Some(listed[i]) {
        RevokeOneMore(sessions, Except(Members(listed[..i]), current), listed[i], now);
        after, count := RevokeSessions(after, {listed[i]}, now), count + 1;
      }
    }
    MembersWhole(listed);
  }

  lemma NothingYet(listed: seq<Id>, current: Option<Id>)
    ensures Except(Members(listed[..0]), current) == {}
  {
  }

  /** RevokeOtherUserSessions and its relatives: cascade over the listed sessions, then revoke them. */
  method CloseListed(db: Db, listed: seq<Id>, current: Option<Id>, now: Time) returns (tx: Db, count: nat)
    requires now != 0 && Distinct(listed) && Members(listed) <= db.sessions.Keys
    requires forall s :: s in db.sessions ==> db.sessions[s].binding != NIL
    ensures tx == CloseSessions(db, Except(Members(listed), current), now) &&
            count == |Except(Members(listed), current)|
  {
    hide Cascade, RevokeSessions;
    var bindings := CollectBindings(db.sessions, listed, current);
    assert NIL !in Members(bindings);
    assert Members(bindings) - {NIL} == Members(bindings);
    tx := RevokeBindings(db, bindings, now);
    CascadeLeavesSessions(db, OnBindings(Members(bindings)), now);
    var after: map<Id, Session>;
    after, count := RevokeListed(tx.sessions, listed, current, now);
    tx := tx.(sessions := after);
  }

  lemma CascadeLeavesSessions(db: Db, s: Selector, now: Time)
    ensures Cascade(db, s, now).sessions == db.sessions
  {
  }

  lemma BindingsAreReal(db: Db, now: Time)
    requires Inv(db, now)
    ensures now > 0 && forall s :: s in db.sessions ==> db.sessions[s].binding != NIL
  {
  }

  // ----- Cleanup batches -----

  const BATCH: nat := 250

  /** At most one batch of the qualifying rows. */
  method PickBatch(candidates: set<Id>) returns (batch: set<Id>)
    ensures batch <= candidates && |batch| <= BATCH
    ensures |batch| < BATCH ==> batch == candidates
  {
    var rest := candidates;
    batch := {};
    while rest != {} && |batch| < BATCH
      invariant batch !! rest && batch + rest == candidates && |batch| <= BATCH
      decreases |rest|
    {
      var id :| id in rest;
      batch, rest := batch + {id}, rest - {id};
    }
  }

  function RetiredCodes(db: Db, cutoff: Time): set<Id> {
    set c | c in db.codes && db.codes[c].expiresAt <= cutoff
  }

  function RetiredAccesses(db: Db, cutoff: Time): set<Id> {
    set a | a in db.accesses && db.accesses[a].expiresAt <= cutoff
  }

  /** Generations of retired families that no access row was minted from. */
  function RetiredGenerations(db: Db, cutoff: Time): set<Id> {
    set g | g in db.generations && db.generations[g].family in db.families &&
            FamilyRetired(db.families[db.generations[g].family], cutoff) && !SourceTaken(db.accesses, g)
  }

  predicate FamilyUsed(generations: map<Id, Generation>, accesses: map<Id, Access>, f: Id) {
    (exists g :: g in generations && generations[g].family == f) ||
    (exists a :: a in accesses && accesses[a].family == Some(f))
  }

  function RetiredFamilies(db: Db, cutoff: Time): set<Id> {
    set f | f in db.families && FamilyRetired(db.families[f], cutoff) && !FamilyUsed(db.generations, db.accesses, f)
  }

  lemma SmallerMap<T>(table: map<Id, T>, gone: set<Id>)
    requires gone <= table.Keys
    ensures |table - gone| == |table| - |gone|
  {
    assert (table - gone).Keys == table.Keys - gone;
  }

  lemma CodesBatchTables(db: Db, codes: set<Id>, cutoff: Time)
    requires codes <= RetiredCodes(db, cutoff)
    ensures var after := DeleteCodes(db, codes, cutoff);
      && after == db.(codes := after.codes, families := after.families, accesses := after.accesses)
      && after.codes == db.codes - codes && after.accesses.Keys == db.accesses.Keys
      && (forall a :: a in db.accesses ==> after.accesses[a].expiresAt == db.accesses[a].expiresAt)
  {
    assert CodesRetired(db, codes, cutoff);
  }

  /** One batch of codes leaves the access rows' deadlines alone. */
  lemma CodesBatch(db: Db, codes: set<Id>, cutoff: Time)
    requires codes <= RetiredCodes(db, cutoff)
    ensures var after := DeleteCodes(db, codes, cutoff);
      && after == db.(codes := after.codes, families := after.families, accesses := after.accesses)
      && after.codes.Keys == db.codes.Keys - codes && |after.codes| == |db.codes| - |codes|
      && after.accesses.Keys == db.accesses.Keys && |after.accesses| == |db.accesses|
      && RetiredCodes(after, cutoff) == RetiredCodes(db, cutoff) - codes
      && RetiredAccesses(after, cutoff) == RetiredAccesses(db, cutoff)
  {
    hide DeleteCodes;
    CodesBatchTables(db, codes, cutoff);
    SmallerMap(db.codes, codes);
    var after := DeleteCodes(db, codes, cutoff);
    assert |after.accesses| == |after.accesses.Keys|;
  }

  lemma AccessesBatch(db: Db, accesses: set<Id>, cutoff: Time)
    requires accesses <= RetiredAccesses(db, cutoff)
    ensures var after := DeleteAccesses(db, accesses, cutoff);
      && after == db.(accesses := db.accesses - accesses)
      && after.accesses.Keys == db.accesses.Keys - accesses && |after.accesses| == |db.accesses| - |accesses|
      && RetiredCodes(after, cutoff) == RetiredCodes(db, cutoff)
      && RetiredAccesses(after, cutoff) == RetiredAccesses(db, cutoff) - accesses
  {
    assert AccessesRetired(db, accesses, cutoff);
    SmallerMap(db.accesses, accesses);
  }

  lemma GenerationsBatch(db: Db, generations: set<Id>, cutoff: Time)
    requires generations <= RetiredGenerations(db, cutoff)
    ensures var after := DeleteGenerations(db, generations, cutoff);
      && after == db.(generations := db.generations - generations)
      && |after.generations| == |db.generations| - |generations|
      && RetiredGenerations(after, cutoff) == RetiredGenerations(db, cutoff) - generations
  {
    hide FamilyRetired, GenerationsRetired, SourceTaken, RetiredGenerations;
    UnnamedRetire(db, generations, cutoff);
    RetiredAreGenerations(db, cutoff);
    SmallerMap(db.generations, generations);
    OtherGenerationsRetire(db, generations, cutoff);
  }

  lemma RetiredAreGenerations(db: Db, cutoff: Time)
    ensures RetiredGenerations(db, cutoff) <= db.generations.Keys
  {
    hide FamilyRetired, SourceTaken;
  }

  lemma OtherGenerationsRetire(db: Db, generations: set<Id>, cutoff: Time)
    ensures RetiredGenerations(db.(generations := db.generations - generations), cutoff) ==
            RetiredGenerations(db, cutoff) - generations
  {
    hide FamilyRetired, SourceTaken;
  }

  lemma UnnamedRetire(db: Db, generations: set<Id>, cutoff: Time)
    requires generations <= RetiredGenerations(db, cutoff)
    ensures GenerationsRetired(db, generations, cutoff)
  {
    hide FamilyRetired;
  }

  lemma FamiliesBatch(db: Db, families: set<Id>, cutoff: Time)
    requires families <= RetiredFamilies(db, cutoff)
    ensures var after := DeleteFamilies(db, families, cutoff);
      && after == db.(families := db.families - families) && |after.families| == |db.families| - |families|
      && RetiredFamilies(after, cutoff) == RetiredFamilies(db, cutoff) - families
      && RetiredGenerations(after, cutoff) == RetiredGenerations(db, cutoff)
  {
    hide FamilyRetired, FamilyUsed, FamiliesRetired, SourceTaken, RetiredFamilies, RetiredGenerations;
    UnusedRetire(db, families, cutoff);
    RetiredAreFamilies(db, cutoff);
    SmallerMap(db.families, families);
    OtherFamiliesRetire(db, families, cutoff);
    FamiliesKeepGenerations(db, families, cutoff);
  }

  lemma RetiredAreFamilies(db: Db, cutoff: Time)
    ensures RetiredFamilies(db, cutoff) <= db.families.Keys
  {
    hide FamilyRetired, FamilyUsed;
  }

  /**
   What the refresh cleanup leaves: without the retired generations no access row names, and then without the
   retired families that no generation and no access row is left of.
   */
  function RefreshCleaned(db: Db, cutoff: Time): Db {
    var kept := db.(generations := db.generations - RetiredGenerations(db, cutoff));
    kept.(families := kept.families - RetiredFamilies(kept, cutoff))
  }

  lemma NothingLeftToClean(db: Db, cutoff: Time)
    requires RetiredGenerations(db, cutoff) == {} && RetiredFamilies(db, cutoff) == {}
    ensures RefreshCleaned(db, cutoff) == db
  {
    hide RetiredGenerations, RetiredFamilies;
    assert db.generations - {} == db.generations && db.families - {} == db.families;
  }

  /** A batch of generations changes nothing of what will be left. */
  lemma GenerationsBatchOnTheWay(db: Db, generations: set<Id>, cutoff: Time)
    requires generations <= RetiredGenerations(db, cutoff)
    ensures RefreshCleaned(DeleteGenerations(db, generations, cutoff), cutoff) == RefreshCleaned(db, cutoff)
  {
    hide RetiredGenerations, RetiredFamilies, DeleteGenerations;
    GenerationsBatch(db, generations, cutoff);
    var retired := RetiredGenerations(db, cutoff);
    assert (db.generations - generations) - (retired - generations) == db.generations - retired;
  }

  lemma FewerGenerationsUse(db: Db, generations: map<Id, Generation>, families: set<Id>, cutoff: Time)
    requires families <= RetiredFamilies(db, cutoff)
    requires generations.Keys <= db.generations.Keys
    requires forall g :: g in generations ==> generations[g] == db.generations[g]
    ensures families <= RetiredFamilies(db.(generations := generations), cutoff)
  {
    hide FamilyRetired;
    forall f | f in families
      ensures f in RetiredFamilies(db.(generations := generations), cutoff)
    {
      assert f in RetiredFamilies(db, cutoff);
      assert !FamilyUsed(db.generations, db.accesses, f);
      assert !FamilyUsed(generations, db.accesses, f);
    }
  }

  lemma FamiliesKeepGenerations(db: Db, families: set<Id>, cutoff: Time)
    requires families <= RetiredFamilies(db, cutoff)
    ensures RetiredGenerations(db.(families := db.families - families), cutoff) == RetiredGenerations(db, cutoff)
  {
    hide FamilyRetired, SourceTaken;
    var after := db.(families := db.families - families);
    forall g | g in db.generations
      ensures db.generations[g].family !in families
    {
      assert FamilyUsed(db.generations, db.accesses, db.generations[g].family);
    }
  }

  lemma OtherFamiliesRetire(db: Db, families: set<Id>, cutoff: Time)
    ensures RetiredFamilies(db.(families := db.families - families), cutoff) == RetiredFamilies(db, cutoff) - families
  {
    hide FamilyRetired, FamilyUsed;
  }

  /** Nor does a batch of families. */
  lemma FamiliesBatchOnTheWay(db: Db, families: set<Id>, cutoff: Time)
    requires families <= RetiredFamilies(db, cutoff)
    ensures RefreshCleaned(DeleteFamilies(db, families, cutoff), cutoff) == RefreshCleaned(db, cutoff)
  {
    hide RetiredGenerations, RetiredFamilies, DeleteFamilies;
    FamiliesBatch(db, families, cutoff);
    FamiliesKeepGenerations(db, families, cutoff);
    var generations := db.generations - RetiredGenerations(db, cutoff);
    var kept := db.(generations := generations);
    FewerGenerationsUse(db, generations, families, cutoff);
    OtherFamiliesRetire(kept, families, cutoff);
    var retired := RetiredFamilies(kept, cutoff);
    assert (db.families - families) - (retired - families) == db.families - retired;
  }

  lemma UnusedRetire(db: Db, families: set<Id>, cutoff: Time)
    requires families <= RetiredFamilies(db, cutoff)
    ensures FamiliesRetired(db, families, cutoff)
  {
    hide FamilyRetired;
  }

  /** A table from which the retired rows not in `left` have been removed. */
  ghost predicate Trimmed(before: set<Id>, after: set<Id>, retired: set<Id>, left: set<Id>) {
    left <= retired <= before && after == before - (retired - left)
  }

  lemma TrimMore(before: set<Id>, after: set<Id>, retired: set<Id>, left: set<Id>, batch: set<Id>)
    requires Trimmed(before, after, retired, left) && batch <= left
    ensures Trimmed(before, after - batch, retired, left - batch)
    ensures batch == left ==> after - batch == before - retired && left - batch == {}
  {
  }

  class Store {
    var rows: Db

    constructor ()
      ensures rows == EMPTY
    {
      rows := EMPTY;
    }

    /** ExchangeAuthorizationCode. */
    method ExchangeAuthorizationCode(c: Config, x: ExchangeInput, d: CodeDraws, now: Time)
      returns (outcome: ExchangeOutcome)
      requires Inv(rows, now)
      modifies this
      ensures (rows, outcome) == Exchange(old(rows), c, x, d, now)
      ensures outcome.Issued? ==> ExchangeExact.Due(old(rows), x, now)
      ensures Inv(rows, now) && Stable(old(rows), rows)
    {
      hide Inv, Stable, VerifyS256, SameClient, Mint, ValidMinted, AccessFromCode, FamilyFromCode, FirstGeneration;
      hide ExchangeExact.Due;
      TokenProofs.ExchangeKeeps(rows, c, x, d, now);
      if Exchange(rows, c, x, d, now).1.Issued? { ExchangeExact.IssuedRequired(rows, c, x, d, now); }
      UniqueIndexes(rows, now);
      if x.caller.id == NIL || x.redirectUri == "" || x.verifier == "" || now == 0 { return Rejected(InvalidGrant); }
      var tx := rows;
      var found := LookUpCode(tx.codes, x.codeHash);
      if found.None? { return Rejected(InvalidGrant); }
      var id := found.value;
      var code := tx.codes[id];
      if code.consumedAt.Some? { return Replayed; }
      if code.expiresAt <= now { return Rejected(InvalidGrant); }
      if code.client != x.caller.id || code.redirectUri != x.redirectUri || !VerifyS256(x.verifier, code.challenge) {
        return Rejected(InvalidGrant);
      }
      if code.user !in tx.users || tx.users[code.user].status != Active { return Rejected(InvalidGrant); }
      if code.client !in tx.clients { return Rejected(InvalidGrant); }
      var client := tx.clients[code.client];
      if !SameClient(code.client, client, x.caller) || code.redirectUri !in client.redirectUris {
        return Rejected(InvalidGrant);
      }
      if OpenId !in code.scopes || !(code.scopes <= client.scopes) { return Rejected(InvalidGrant); }
      var key := GrantKey(code.user, code.client);
      if key !in tx.grants { return Rejected(InvalidGrant); }
      var grant := tx.grants[key];
      if grant.id != code.grant || grant.version != code.grantVersion || grant.revokedAt.Some? ||
         !(code.scopes <= grant.scopes * client.scopes) {
        return Rejected(InvalidGrant);
      }
      var minted := Mint(c, AuthorityOfCode(tx, id, code, now), d);
      if minted.Err? { return Rejected(minted.error); }
      var m := minted.value;
      if !ValidMinted(m, now, OfflineAccess in code.scopes) { return Rejected(InvalidOperation); }
      BindingMinted(c, AuthorityOfCode(tx, id, code, now), d);
      if m.initial.Some? {
        var first := m.initial.value;
        if first.family in tx.usedIds { return Rejected(StorageFailure); }
        tx := tx.(families := tx.families[first.family := FamilyFromCode(id, code, m)],
                  usedIds := tx.usedIds + {first.family});
        if first.token in tx.usedIds || first.hash in tx.usedHashes { return Rejected(StorageFailure); }
        tx := tx.(generations := tx.generations[first.token := FirstGeneration(m)],
                  usedIds := tx.usedIds + {first.token}, usedHashes := tx.usedHashes + {first.hash});
      }
      if m.accessId in tx.usedIds || m.jtiHash in tx.usedHashes { return Rejected(StorageFailure); }
      tx := tx.(accesses := tx.accesses[m.accessId := AccessFromCode(id, code, m)],
                usedIds := tx.usedIds + {m.accessId}, usedHashes := tx.usedHashes + {m.jtiHash});
      tx := tx.(codes := tx.codes[id := code.(consumedAt := Some(now))]);
      assert MintedFresh(rows, m);
      assert tx == StoreExchange(rows, id, m, now);
      rows := tx;
      return Issued(CodeResponse(m, code));
    }

    /** ExchangeRefreshToken, when no other transaction runs between its reads. */
    method ExchangeRefreshToken(c: Config, x: RefreshInput, d: RefreshDraws, now: Time)
      returns (outcome: RefreshOutcome)
      requires Inv(rows, now)
      modifies this
      ensures (rows, outcome) == Refresh(old(rows), c, x, d, now)
      ensures outcome.Rotated? ==> RefreshExact.Replaced(old(rows), rows, c, x, d, now)
      ensures Inv(rows, now) && Stable(old(rows), rows)
    {
      hide Inv, Stable, SameClient, MintRefresh, ValidRefreshMinted, AccessFromRefresh, SelectScopes;
      hide RevokeFamilies, RevokeAccesses, RefreshExact.Replaced;
      TokenProofs.RefreshKeeps(rows, c, x, d, now);
      if Refresh(rows, c, x, d, now).1.Rotated? { RefreshExact.RotationReplaces(rows, c, x, d, now); }
      UniqueIndexes(rows, now);
      if x.caller.id == NIL || now == 0 { return Refused(InvalidGrant); }
      var tx := rows;
      var found := LookUpGeneration(tx.generations, x.hash);
      if found.None? { return Refused(InvalidGrant); }
      var g := found.value;
      var presented := tx.generations[g];
      var f := presented.family;
      if f !in tx.families { return Refused(InvalidGrant); }
      var family := tx.families[f];
      if family.user !in tx.users || tx.users[family.user].status != Active { return Refused(InvalidGrant); }
      if family.client !in tx.clients || !SameClient(family.client, tx.clients[family.client], x.caller) {
        return Refused(InvalidGrant);
      }
      var client := tx.clients[family.client];
      var key := GrantKey(family.user, family.client);
      if key !in tx.grants { return Refused(InvalidGrant); }
      var grant := tx.grants[key];
      if grant.id != family.grant || grant.revokedAt.Some? || grant.version < 1 { return Refused(InvalidGrant); }
      if family.revokedAt.Some? || family.absoluteExpiresAt <= now { return Refused(InvalidGrant); }
      if presented.consumedAt.Some? {
        tx := tx.(families := RevokeFamilies(tx.families, OfFamily(f), now));
        tx := tx.(accesses := RevokeAccesses(tx.accesses, OfFamily(f), now));
        rows := tx;
        return Reused;
      }
      if presented.expiresAt <= now { return Refused(InvalidGrant); }
      var selected := SelectScopes(x.requested, family.scopes, grant.scopes, client.scopes);
      if selected.Err? { return Refused(selected.error); }
      var minted := MintRefresh(c, AuthorityOfRefresh(tx, g, selected.value, now), d);
      if minted.Err? { return Refused(minted.error); }
      var m := minted.value;
      if !ValidRefreshMinted(m, g, presented, family, now) { return Refused(InvalidOperation); }
      tx := tx.(generations := tx.generations[g := presented.(consumedAt := Some(now))]);
      if m.replacement in tx.usedIds || m.replacementHash in tx.usedHashes ||
         NumberTaken(rows.generations, f, presented.number + 1) {
        return Refused(StorageFailure);
      }
      var next := Generation(f, m.replacementHash, presented.number + 1, m.issuedAt, m.replacementExpiresAt, None);
      tx := tx.(generations := tx.generations[m.replacement := next],
                usedIds := tx.usedIds + {m.replacement}, usedHashes := tx.usedHashes + {m.replacementHash});
      if m.accessId in tx.usedIds || m.jtiHash in tx.usedHashes || SourceTaken(tx.accesses, g) {
        return Refused(StorageFailure);
      }
      tx := tx.(accesses := tx.accesses[m.accessId := AccessFromRefresh(g, f, family, selected.value, m)],
                usedIds := tx.usedIds + {m.accessId}, usedHashes := tx.usedHashes + {m.jtiHash});
      assert RefreshMintedFresh(rows, m, f, g, presented.number + 1);
      assert tx == StoreRotation(rows, g, selected.value, m, now);
      rows := tx;
      return Rotated(RefreshResponse(m, selected.value));
    }

    /** RevokeOtherUserSessions. */
    method RevokeOtherUserSessions(user: Id, current: Id, now: Time) returns (count: nat)
      requires Inv(rows, now)
      modifies this
      ensures rows == RevokeOthers(old(rows), user, current, now)
      ensures count == |ActiveSessionsOf(old(rows).sessions, user) - {current}|
      ensures Inv(rows, now) && Stable(old(rows), rows)
    {
      hide Inv, Stable, CloseSessions;
      SessionProofs.SessionRevocationsKeep(rows, current, None, Sha256(""), user, now);
      BindingsAreReal(rows, now);
      var listed := ListActive(rows.sessions, user);
      var tx: Db;
      tx, count := CloseListed(rows, listed, Some(current), now);
      rows := tx;
    }

    /** RevokeAllManagedUserSessions. */
    method RevokeAllManagedUserSessions(user: Id, now: Time) returns (count: Option<nat>)
      requires Inv(rows, now)
      modifies this
      ensures rows == RevokeAll(old(rows), user, now)
      ensures count == if user in old(rows).users then Some(|ActiveSessionsOf(old(rows).sessions, user)|) else None
      ensures Inv(rows, now) && Stable(old(rows), rows)
    {
      hide Inv, Stable, CloseSessions;
      SessionProofs.SessionRevocationsKeep(rows, NIL, None, Sha256(""), user, now);
      BindingsAreReal(rows, now);
      if user !in rows.users { return None; }
      var listed := ListActive(rows.sessions, user);
      var tx, closed := CloseListed(rows, listed, None, now);
      rows := tx;
      return Some(closed);
    }

    /** CommitLogin: returns the binding of the new session. */
    method CommitLogin(x: LoginInput, now: Time) returns (binding: Option<Id>)
      requires Inv(rows, now)
      modifies this
      ensures (rows, binding) == Login(old(rows), x, now)
      ensures Inv(rows, now) && Stable(old(rows), rows)
    {
      hide Inv, Stable, RevokeFamilies, RevokeAccesses, RevokeSessions;
      SessionProofs.LoginKeeps(rows, x, now);
      UniqueIndexes(rows, now);
      BindingsAreReal(rows, now);
      if x.session == NIL || x.user !in rows.users || rows.users[x.user].status != Active ||
         !SessionInsertable(rows, x, now) {
        return None;
      }
      var tx, inherited := rows, x.session;
      if x.existing.Some? {
        var found := LookUpSession(tx.sessions, x.existing.value);
        if found.Some? && SessionLive(tx.sessions[found.value], now) {
          var previous := tx.sessions[found.value];
          if previous.user == x.user {
            inherited := previous.binding;
          } else {
            tx := RevokeBindings(tx, [previous.binding], now);
            OneBinding(rows, found.value);
          }
          tx := tx.(sessions := RevokeSessions(tx.sessions, {found.value}, now));
        }
      }
      tx := InsertSession(tx, x, inherited, now);
      rows := tx;
      return Some(inherited);
    }

    /** IssueAuthorizationCode, with lockAndApplyConsent inlined as ApplyConsent. */
    method IssueAuthorizationCode(x: IssueInput, now: Time) returns (outcome: IssueOutcome)
      requires Inv(rows, now)
      modifies this
      ensures (rows, outcome) == Issue(old(rows), x, now)
      ensures outcome.CodeIssued? ==>
        x.expected.client.Some? && ConsentExact.Recorded(old(rows), x, now, outcome.grant) &&
        rows.grants == old(rows).grants[GrantKey(x.user, x.expected.client.value) := outcome.grant]
      ensures Inv(rows, now) && Stable(old(rows), rows)
    {
      hide Inv, Stable, ApplyConsent, ClientAdmits, NewCode, ConsentExact.Recorded;
      IssueProofs.IssueKeeps(rows, x, now);
      if Issue(rows, x, now).1.CodeIssued? { ConsentExact.ConsentRecorded(rows, x, now); }
      if !ValidIssue(x, now) { return NotIssued(AuthInvalid); }
      var tx := rows;
      if x.transaction !in tx.transactions { return NotIssued(AuthNotFound); }
      var row := tx.transactions[x.transaction];
      var check := CheckTransaction(row, x.expected, now);
      if check.Fail? { return NotIssued(check.error); }
      if x.user !in tx.users || tx.users[x.user].status != Active { return NotIssued(AuthInactive); }
      if !ClientAdmits(tx, row.request) { return NotIssued(AuthInactive); }
      if OpenId !in row.request.scopes { return NotIssued(AuthInvalid); }
      var client := row.request.client.value;
      AdmittedClientExists(tx, row.request);
      var consent := ApplyConsent(tx, GrantKey(x.user, client), row.request.scopes, x, now);
      if consent.NoConsent? { return NotIssued(consent.error); }
      tx := tx.(grants := tx.grants[GrantKey(x.user, client) := consent.grant]);
      if consent.created { tx := tx.(usedIds := tx.usedIds + {x.proposedGrant}); }
      if x.code in tx.usedIds || x.codeHash in tx.usedHashes || TransactionHasCode(tx.codes, x.transaction) ||
         x.session !in tx.sessions {
        return NotIssued(AuthStorage);
      }
      tx := tx.(codes := tx.codes[x.code := NewCode(x, row, client, consent.grant, now)],
                usedIds := tx.usedIds + {x.code}, usedHashes := tx.usedHashes + {x.codeHash});
      tx := tx.(transactions := tx.transactions[x.transaction := row.(consumedAt := Some(now))]);
      assert CodeInsertable(rows, x, consent);
      assert tx == StoreIssue(rows, x, client, consent, now);
      rows := tx;
      return CodeIssued(consent.grant);
    }

    /** RevokeToken. */
    method RevokeToken(caller: Caller, jti: Option<Digest>, refresh: Option<Digest>, now: Time)
      requires Inv(rows, now)
      modifies this
      ensures rows == Tokens.RevokeToken(old(rows), caller, jti, refresh, now)
      ensures Inv(rows, now) && Stable(old(rows), rows)
    {
      hide Inv, Stable, AccessRevocable, RefreshRevocable, RevokeFamilies, RevokeAccesses;
      TokenProofs.RevokeTokenKeeps(rows, caller, jti, refresh, now);
      UniqueIndexes(rows, now);
      if caller.id == NIL || now == 0 { return; }
      if jti.Some? {
        var found := LookUpAccess(rows.accesses, jti.value);
        if found.Some? {
          var a := rows.accesses[found.value];
          if AccessRevocable(rows, a, caller, now) {
            rows := rows.(accesses := rows.accesses[found.value := a.(revokedAt := Some(now))]);
          }
          return;
        }
      }
      if refresh.Some? {
        var found := LookUpGeneration(rows.generations, refresh.value);
        if found.None? || rows.generations[found.value].family !in rows.families { return; }
        var f := rows.generations[found.value].family;
        if !RefreshRevocable(rows, rows.families[f], caller, now) { return; }
        var tx := rows;
        tx := tx.(families := RevokeFamilies(tx.families, OfFamily(f), now));
        tx := tx.(accesses := RevokeAccesses(tx.accesses, OfFamily(f), now));
        rows := tx;
      }
    }

    /** RevokeCurrentUserGrant: the revoked grant, also when it was revoked before, or nothing. */
    method RevokeCurrentUserGrant(user: Id, client: Id, now: Time) returns (revoked: Option<Grant>)
      requires Inv(rows, now)
      modifies this
      ensures rows == RevokeGrant(old(rows), user, client, now)
      ensures revoked.Some? <==>
        user in old(rows).users && client in old(rows).clients && GrantKey(user, client) in old(rows).grants
      ensures revoked.Some? ==>
        && GrantKey(user, client) in rows.grants && revoked.value == rows.grants[GrantKey(user, client)]
        && revoked.value.revokedAt.Some?
      ensures Inv(rows, now) && Stable(old(rows), rows)
    {
      hide Inv, Stable, RevokeFamilies, RevokeAccesses;
      WithdrawalProofs.RevokeGrantKeeps(rows, user, client, now);
      var tx, key := rows, GrantKey(user, client);
      if user !in tx.users || client !in tx.clients || key !in tx.grants { return None; }
      var grant := tx.grants[key];
      if grant.revokedAt.Some? { return Some(grant); }
      var withdrawn := grant.(revokedAt := Some(now), updatedAt := now, version := grant.version + 1);
      tx := tx.(grants := tx.grants[key := withdrawn]);
      tx := tx.(families := RevokeFamilies(tx.families, OfGrant(grant.id), now));
      tx := tx.(accesses := RevokeAccesses(tx.accesses, OfGrant(grant.id), now));
      rows := tx;
      return Some(withdrawn);
    }

    /** UpdateClient: the row first, then the cascade its old and new scopes and status call for. */
    method UpdateClient(id: Id, u: ClientUpdate, now: Time) returns (answer: ClientAnswer)
      requires Inv(rows, now)
      modifies this
      ensures rows == Accounts.UpdateClient(old(rows), id, u, now)
      ensures answer == ClientMissing <==> id !in old(rows).clients
      ensures answer == ClientInvalid <==> id in old(rows).clients && OpenId !in u.scopes
      ensures answer == ClientConflict <==>
        id in old(rows).clients && OpenId in u.scopes && old(rows).clients[id].version != u.expectedVersion
      ensures answer.ClientStored? ==> id in rows.clients && answer.row == rows.clients[id]
      ensures Inv(rows, now) && Stable(old(rows), rows)
    {
      hide Inv, Stable, RevokeFamilies, RevokeAccesses;
      WithdrawalProofs.UpdateClientKeeps(rows, id, u, now);
      var tx := rows;
      if id !in tx.clients { return ClientMissing; }
      if OpenId !in u.scopes { return ClientInvalid; }
      var current := tx.clients[id];
      if current.version != u.expectedVersion { return ClientConflict; }
      tx := tx.(clients := tx.clients[id := Updated(current, u)]);
      var offlineRemoved := OfflineAccess in current.scopes && OfflineAccess !in u.scopes;
      if u.status == Disabled {
        tx := tx.(families := RevokeFamilies(tx.families, OfClient(id), now));
        tx := tx.(accesses := RevokeAccesses(tx.accesses, OfClient(id), now));
      } else if offlineRemoved {
        tx := tx.(families := RevokeFamilies(tx.families, OfflineOfClient(id), now));
        tx := tx.(accesses := RevokeAccesses(tx.accesses, OfflineOfClient(id), now));
      }
      rows := tx;
      return ClientStored(Updated(current, u));
    }

    /** UpdateManagedUser. */
    method UpdateManagedUser(id: Id, u: UserUpdate, now: Time) returns (answer: UserAnswer)
      requires Inv(rows, now)
      modifies this
      ensures rows == UpdateUser(old(rows), id, u, now)
      ensures answer == UserMissing <==> id !in old(rows).users
      ensures answer == UserLastAdmin <==> id in old(rows).users && LastAdminBlocks(old(rows), id, u)
      ensures answer == UserConflict <==>
        && id in old(rows).users && !LastAdminBlocks(old(rows), id, u)
        && old(rows).users[id].version != u.expectedVersion
      ensures answer.UserStored? ==> id in rows.users && answer.row == rows.users[id]
      ensures Inv(rows, now) && Stable(old(rows), rows)
    {
      hide Inv, Stable, RevokeFamilies, RevokeAccesses, RevokeSessions, ActiveSessionsOf, BindingsOf, Members,
           ActiveAdmins;
      SessionProofs.UpdateUserKeeps(rows, id, u, now);
      BindingsAreReal(rows, now);
      var tx := rows;
      if id !in tx.users { return UserMissing; }
      if LastAdminBlocks(tx, id, u) { return UserLastAdmin; }
      if tx.users[id].version != u.expectedVersion { return UserConflict; }
      var row := tx.users[id].(status := u.status, role := u.role, version := tx.users[id].version + 1);
      tx := tx.(users := tx.users[id := row]);
      var listed := ListActive(tx.sessions, id);
      ActiveAreSessions(tx.sessions, id);
      if u.status == Disabled {
        tx := tx.(families := RevokeFamilies(tx.families, OfUser(id), now));
        tx := tx.(accesses := RevokeAccesses(tx.accesses, OfUser(id), now));
      }
      if u.revokeSessions {
        var count: nat;
        tx, count := CloseListed(tx, listed, None, now);
      }
      rows := tx;
      return UserStored(row);
    }

    /** BindLogoutTransaction. */
    method BindLogoutTransaction(lookupHash: Digest, csrfHash: Digest, p: Principal, maxActive: int, maxAttempts: int,
                                 now: Time)
      returns (outcome: BindOutcome)
      requires Inv(rows, now)
      modifies this
      ensures (rows, outcome) == Bind(old(rows), lookupHash, csrfHash, p, maxActive, maxAttempts, now)
      ensures Inv(rows, now) && Stable(old(rows), rows)
    {
      hide Inv, Stable, LiveBoundOf;
      SessionProofs.BindKeeps(rows, lookupHash, csrfHash, p, maxActive, maxAttempts, now);
      UniqueIndexes(rows, now);
      if !ValidLimits(maxActive, maxAttempts) { return BindNotFound; }
      var found := LookUpLogout(rows.logouts, lookupHash);
      if found.None? { return BindNotFound; }
      var row := rows.logouts[found.value];
      if row.consumedAt.Some? || row.expiresAt <= now || row.attempts >= maxAttempts { return BindNotFound; }
      if p.session !in rows.sessions { return BindNotFound; }
      var s := rows.sessions[p.session];
      if s.user != p.user || s.binding != p.binding || s.revokedAt.Some? || s.expiresAt <= now ||
         s.idleExpiresAt <= now {
        return BindNotFound;
      }
      if row.stage == PreConfirm {
        if |LiveBoundOf(rows.logouts, p.session, now)| >= maxActive { return AtCapacity; }
        row := row.(stage := BoundConfirmable, csrfHash := Some(csrfHash), user := Some(p.user),
                    session := Some(p.session), binding := Some(p.binding));
        rows := rows.(logouts := rows.logouts[found.value := row]);
        return BoundNow;
      }
      if row.stage != BoundConfirmable || !BoundTo(row, p) { return BindNotFound; }
      rows := rows.(logouts := rows.logouts[found.value := row.(csrfHash := Some(csrfHash))]);
      return ProofRotated;
    }

    /** CompleteLogoutTransaction. */
    method CompleteLogoutTransaction(lookupHash: Digest, csrfHash: Digest, decision: Decision, p: Principal,
                                     maxAttempts: int, now: Time) returns (outcome: CompleteOutcome)
      requires Inv(rows, now)
      modifies this
      ensures (rows, outcome) == Complete(old(rows), lookupHash, csrfHash, decision, p, maxAttempts, now)
      ensures Inv(rows, now) && Stable(old(rows), rows)
    {
      hide Inv, Stable, RevokeFamilies, RevokeAccesses, RevokeSessions, Members, BindingsOf;
      SessionProofs.CompleteKeeps(rows, lookupHash, csrfHash, decision, p, maxAttempts, now);
      UniqueIndexes(rows, now);
      BindingsAreReal(rows, now);
      if !(1 <= maxAttempts <= 10) { return CompleteNotFound; }
      var found := LookUpLogout(rows.logouts, lookupHash);
      if found.None? { return CompleteNotFound; }
      var id := found.value;
      var row := rows.logouts[id];
      if row.stage != BoundConfirmable || !Open(row, now, maxAttempts) || !BoundTo(row, p) ||
         !PrincipalStands(rows, p, now) {
        return CompleteNotFound;
      }
      if row.csrfHash != Some(csrfHash) {
        rows := rows.(logouts := rows.logouts[id := row.(attempts := row.attempts + 1)]);
        return WrongProof;
      }
      if decision == Cancel {
        row := row.(stage := Canceled, csrfHash := None, consumedAt := Some(now));
        rows := rows.(logouts := rows.logouts[id := row]);
        return LogoutCanceled;
      }
      OneBinding(rows, p.session);
      var tx := RevokeBindings(rows, [p.binding], now);
      tx := tx.(sessions := RevokeSessions(tx.sessions, {p.session}, now));
      tx := tx.(logouts := tx.logouts[id := row.(stage := Confirmed, csrfHash := None, consumedAt := Some(now))]);
      rows := tx;
      return LogoutConfirmed;
    }

    /** CleanupProtocolArtifacts: batches until neither table fills one. */
    method CleanupProtocolArtifacts(cutoff: Time, now: Time) returns (total: nat)
      requires Inv(rows, now) && cutoff <= now
      modifies this
      ensures Inv(rows, now) && Stable(old(rows), rows)
      ensures rows.codes.Keys == old(rows).codes.Keys - RetiredCodes(old(rows), cutoff)
      ensures rows.accesses.Keys == old(rows).accesses.Keys - RetiredAccesses(old(rows), cutoff)
      ensures rows == old(rows).(codes := rows.codes, families := rows.families, accesses := rows.accesses)
      ensures total == |old(rows).codes| + |old(rows).accesses| - |rows.codes| - |rows.accesses|
    {
      hide Inv, Stable, DeleteCodes, DeleteAccesses, RetiredCodes, RetiredAccesses;
      ghost var start := rows;
      StableReflexive(rows);
      RetiredAreRows(rows, cutoff);
      total := 0;
      hide Trimmed;
      while true
        invariant Inv(rows, now) && Stable(start, rows)
        invariant Trimmed(start.codes.Keys, rows.codes.Keys, RetiredCodes(start, cutoff), RetiredCodes(rows, cutoff))
        invariant Trimmed(start.accesses.Keys, rows.accesses.Keys, RetiredAccesses(start, cutoff),
                          RetiredAccesses(rows, cutoff))
        invariant rows == start.(codes := rows.codes, families := rows.families, accesses := rows.accesses)
        invariant total == |start.codes| + |start.accesses| - |rows.codes| - |rows.accesses|
        decreases |rows.codes| + |rows.accesses|
      {
        var codes := PickBatch(RetiredCodes(rows, cutoff));
        var tx := DeleteCodes(rows, codes, cutoff);
        var accesses := PickBatch(RetiredAccesses(tx, cutoff));
        tx := DeleteAccesses(tx, accesses, cutoff);
        CodesBatch(rows, codes, cutoff);
        AccessesBatch(DeleteCodes(rows, codes, cutoff), accesses, cutoff);
        CleanupProofs.DeleteCodesKeeps(rows, codes, cutoff, now);
        CleanupProofs.DeleteAccessesKeeps(DeleteCodes(rows, codes, cutoff), accesses, cutoff, now);
        StableTransitive(rows, DeleteCodes(rows, codes, cutoff), tx, now);
        StableTransitive(start, rows, tx, now);
        TrimMore(start.codes.Keys, rows.codes.Keys, RetiredCodes(start, cutoff), RetiredCodes(rows, cutoff), codes);
        TrimMore(start.accesses.Keys, rows.accesses.Keys, RetiredAccesses(start, cutoff), RetiredAccesses(rows, cutoff),
                 accesses);
        rows := tx;
        total := total + |codes| + |accesses|;
        if |codes| < BATCH && |accesses| < BATCH { return; }
      }
    }

    /** CleanupRefreshArtifacts: generations of retired families, then families nothing refers to. */
    method CleanupRefreshArtifacts(cutoff: Time, now: Time) returns (total: nat)
      requires Inv(rows, now) && cutoff <= now
      modifies this
      ensures Inv(rows, now) && Stable(old(rows), rows)
      ensures rows == RefreshCleaned(old(rows), cutoff)
      ensures RetiredGenerations(rows, cutoff) == {} && RetiredFamilies(rows, cutoff) == {}
      ensures rows == old(rows).(generations := rows.generations, families := rows.families)
      ensures total == |old(rows).generations| + |old(rows).families| - |rows.generations| - |rows.families|
    {
      hide Inv, Stable, DeleteGenerations, DeleteFamilies, RetiredGenerations, RetiredFamilies, RefreshCleaned;
      ghost var start := rows;
      StableReflexive(rows);
      total := 0;
      while true
        invariant Inv(rows, now) && Stable(start, rows)
        invariant RefreshCleaned(rows, cutoff) == RefreshCleaned(start, cutoff)
        invariant rows == start.(generations := rows.generations, families := rows.families)
        invariant total == |start.generations| + |start.families| - |rows.generations| - |rows.families|
        decreases |rows.generations| + |rows.families|
      {
        var generations := PickBatch(RetiredGenerations(rows, cutoff));
        var tx := DeleteGenerations(rows, generations, cutoff);
        var families := PickBatch(RetiredFamilies(tx, cutoff));
        tx := DeleteFamilies(tx, families, cutoff);
        GenerationsBatch(rows, generations, cutoff);
        FamiliesBatch(DeleteGenerations(rows, generations, cutoff), families, cutoff);
        GenerationsBatchOnTheWay(rows, generations, cutoff);
        FamiliesBatchOnTheWay(DeleteGenerations(rows, generations, cutoff), families, cutoff);
        CleanupProofs.DeleteGenerationsKeeps(rows, generations, cutoff, now);
        CleanupProofs.DeleteFamiliesKeeps(DeleteGenerations(rows, generations, cutoff), families, cutoff, now);
        StableTransitive(rows, DeleteGenerations(rows, generations, cutoff), tx, now);
        StableTransitive(start, rows, tx, now);
        rows := tx;
        total := total + |generations| + |families|;
        if |generations| < BATCH && |families| < BATCH {
          NothingLeftToClean(rows, cutoff);
          return;
        }
      }
    }

    /** DenyAuthorization. */
    method DenyAuthorization(transaction: Id, expected: AuthRequest, user: Id, now: Time) returns (check: Check)
      requires Inv(rows, now)
      modifies this
      ensures (rows, check) == Deny(old(rows), transaction, expected, user, now)
      ensures Inv(rows, now) && Stable(old(rows), rows)
    {
      hide Inv, Stable, ClientAdmits;
      IssueProofs.DenyKeeps(rows, transaction, expected, user, now);
      if user == NIL || transaction == NIL || now == 0 { return Fail(AuthInvalid); }
      if transaction !in rows.transactions { return Fail(AuthNotFound); }
      var row := rows.transactions[transaction];
      check := CheckTransaction(row, expected, now);
      if check.Fail? { return; }
      if user !in rows.users || rows.users[user].status != Active || !ClientAdmits(rows, row.request) {
        return Fail(AuthInactive);
      }
      row := row.(consumedAt := Some(now), failure := AccessDenied);
      rows := rows.(transactions := rows.transactions[transaction := row]);
    }

    /** RevokeUserSession and RevokeManagedSession: the owner is checked only for the former. */
    method RevokeUserSession(id: Id, owner: Option<Id>, now: Time) returns (revoked: bool)
      requires Inv(rows, now)
      modifies this
      ensures rows == RevokeSession(old(rows), id, owner, now)
      ensures revoked <==>
        && id in old(rows).sessions && old(rows).sessions[id].revokedAt.None?
        && (owner.Some? ==> old(rows).sessions[id].user == owner.value)
      ensures revoked ==> id in rows.sessions && rows.sessions[id].revokedAt == Some(now)
      ensures Inv(rows, now) && Stable(old(rows), rows)
    {
      hide Inv, Stable, RevokeFamilies, RevokeAccesses, Members, BindingsOf;
      SessionProofs.SessionRevocationsKeep(rows, id, owner, Sha256(""), NIL, now);
      BindingsAreReal(rows, now);
      if id !in rows.sessions || rows.sessions[id].revokedAt.Some? { return false; }
      if owner.Some? && rows.sessions[id].user != owner.value { return false; }
      OneBinding(rows, id);
      var tx := RevokeBindings(rows, [rows.sessions[id].binding], now);
      tx := tx.(sessions := RevokeSessions(tx.sessions, {id}, now));
      rows := tx;
      return true;
    }

    /** RevokeSessionByHash. */
    method RevokeSessionByHash(hash: Digest, now: Time) returns (revoked: bool)
      requires Inv(rows, now)
      modifies this
      ensures rows == Sessions.RevokeSessionByHash(old(rows), hash, now)
      ensures revoked <==>
        exists id :: id in old(rows).sessions && old(rows).sessions[id].tokenHash == hash &&
                     old(rows).sessions[id].revokedAt.None?
      ensures Inv(rows, now) && Stable(old(rows), rows)
    {
      hide Inv, Stable, RevokeSession;
      UniqueIndexes(rows, now);
      StableReflexive(rows);
      var found := LookUpSession(rows.sessions, hash);
      if found.None? { return false; }
      revoked := RevokeUserSession(found.value, None, now);
    }

    /** CommitRegistration. */
    method CommitRegistration(x: LoginInput, u: User, now: Time) returns (registered: bool)
      requires Inv(rows, now)
      modifies this
      ensures rows == Register(old(rows), x, u, now)
      ensures registered <==> Registrable(old(rows), x, u, now)
      ensures Inv(rows, now) && Stable(old(rows), rows)
    {
      hide Inv, Stable, RevokeFamilies, RevokeAccesses, RevokeSessions, Members, BindingsOf;
      SessionProofs.RegisterKeeps(rows, x, u, now);
      UniqueIndexes(rows, now);
      BindingsAreReal(rows, now);
      if x.session == NIL || x.user in rows.usedIds || x.user == x.session || u.status != Active || u.version != 1 ||
         !SessionInsertable(rows, x, now) {
        return false;
      }
      var tx := rows.(users := rows.users[x.user := u], usedIds := rows.usedIds + {x.user});
      if x.existing.Some? {
        var found := LookUpSession(tx.sessions, x.existing.value);
        if found.Some? && SessionLive(tx.sessions[found.value], now) && tx.sessions[found.value].user != x.user {
          OneBinding(tx, found.value);
          tx := RevokeBindings(tx, [tx.sessions[found.value].binding], now);
          tx := tx.(sessions := RevokeSessions(tx.sessions, {found.value}, now));
        }
      }
      tx := InsertSession(tx, x, x.session, now);
      rows := tx;
      return true;
    }
  }

  lemma RetiredAreRows(db: Db, cutoff: Time)
    ensures RetiredCodes(db, cutoff) <= db.codes.Keys && RetiredAccesses(db, cutoff) <= db.accesses.Keys
  {
  }

  lemma AdmittedClientExists(db: Db, request: AuthRequest)
    requires ClientAdmits(db, request)
    ensures request.client.Some? && request.client.value in db.clients
  {
  }

  lemma ActiveAreSessions(sessions: map<Id, Session>, user: Id)
    ensures ActiveSessionsOf(sessions, user) <= sessions.Keys
  {
  }

  lemma OneBinding(db: Db, id: Id)
    requires id in db.sessions && db.sessions[id].binding != NIL
    ensures BindingsOf(db.sessions, {id}) == Members([db.sessions[id].binding]) - {NIL}
  {
    var b := db.sessions[id].binding;
    assert Members([b]) == {b} by { assert [b][0] == b; }
  }

  /** Mint starts a family only for a code with a session binding. */
  lemma BindingMinted(c: Config, a: CodeAuthority, d: CodeDraws)
    ensures Mint(c, a, d).Ok? && Mint(c, a, d).value.initial.Some? ==> a.binding.Some?
  {
  }
}
