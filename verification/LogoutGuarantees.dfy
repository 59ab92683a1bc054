/**
 The logout machine over whole runs: stages only move forward, a session never has more live
 bound transactions than configured, wrong proofs are counted and change nothing else, and only
 the latest proof completes.
 */
module LogoutGuarantees {
  import opened Schema
  import opened Tokens
  import opened Authorization
  import opened Sessions
  import opened Accounts
  import opened Cleanup
  import opened Logouts
  import opened Invariants
  import opened Machine
  import Bindings

  // ----- Which steps touch logout rows -----

  predicate TouchesLogouts(e: Event) {
    e.LogoutStarted? || e.LogoutBound? || e.LogoutCompleted? || (e.Cleaned? && e.table == LogoutTransactions)
  }

  lemma CleaningLeavesLogouts(db: Db, table: Table, chosen: set<Id>, cutoff: Time, now: Time)
    requires table != LogoutTransactions
    ensures Clean(db, table, chosen, cutoff, now).logouts == db.logouts
  {
    hide DeleteCodes, DeleteAccesses, DeleteGenerations, DeleteFamilies, DeleteSessions, DeleteTransactions;
  }

  lemma OthersLeaveLogouts(s: Settings, db: Db, e: Event, now: Time)
    requires !TouchesLogouts(e)
    ensures Apply(s, db, e, now).logouts == db.logouts
  {
    hide CreateUser, UpdateUser, CreateClient, UpdateClient, RevokeGrant, Begin, Terminate, Deny, Issue;
    hide Exchange, Refresh, RevokeToken, Login, Register, Touch, RevokeSession;
    hide RevokeSessionByHash, RevokeOthers, RevokeAll, Start, Bind, Complete, Clean;
    if e.Cleaned? {
      CleaningLeavesLogouts(db, e.table, e.chosen, now - e.retention, now);
    }
  }

  // ----- Forward only -----

  /**
   Over any run a logout transaction only moves from pre_confirm to bound to one terminal stage, a
   bound session, user and binding never change, and a terminal row is frozen.
   */
  lemma LogoutMovesForward(s: Settings, at: State, ticks: seq<Tick>, l: Id)
    requires Good(at) && l in at.db.logouts && l in Run(s, at, ticks).db.logouts
    ensures var before, after := at.db.logouts[l], Run(s, at, ticks).db.logouts[l];
      && (before.stage == PreConfirm || after.stage == before.stage ||
          (before.stage == BoundConfirmable && (after.stage == Confirmed || after.stage == Canceled)))
      && (before.stage != PreConfirm ==>
            after.user == before.user && after.session == before.session && after.binding == before.binding)
      && (before.stage == Confirmed || before.stage == Canceled ==> after == before)
  {
    hide Run, ClientsOk, GrantsOk, CodesOk, TransactionsOk, FamiliesOk, FamilyCodesOk, LiveFamiliesOk, GenerationsOk;
    hide ChainsOk, AccessesOk, AccessCodesOk, AccessFamiliesOk, AccessSourcesOk, LiveAccessesOk, SessionsOk, FreshOk;
    hide UsersStable, ClientsStable, GrantsStable, TransactionsStable, CodesStable, FamiliesStable, GenerationsStable;
    hide AccessesStable, SessionsStable;
    RunKeeps(s, at, ticks);
    assert LogoutOk(at.db.logouts[l], at.db.sessions);
    assert LogoutKept(at.db.logouts[l], Run(s, at, ticks).db.logouts[l]);
  }

  // ----- The configured limits -----

  ghost predicate WithinLimits(s: Settings, logouts: map<Id, Logout>, now: Time) {
    && (forall session: Id :: |LiveBoundOf(logouts, session, now)| <= s.maxActive)
    && (forall l :: l in logouts ==> logouts[l].attempts <= s.maxAttempts)
  }

  /** Later, or with rows removed, fewer transactions are live and bound. */
  lemma FewerLive(logouts: map<Id, Logout>, after: map<Id, Logout>, session: Id, now: Time, later: Time)
    requires now <= later
    requires forall l :: l in after && LiveBound(after[l], session, later) ==>
      l in logouts && LiveBound(logouts[l], session, later)
    ensures |LiveBoundOf(after, session, later)| <= |LiveBoundOf(logouts, session, now)|
  {
    SubsetSize(LiveBoundOf(after, session, later), LiveBoundOf(logouts, session, now));
  }

  lemma LimitsOutlastTime(s: Settings, logouts: map<Id, Logout>, now: Time, later: Time)
    requires WithinLimits(s, logouts, now) && now <= later
    ensures WithinLimits(s, logouts, later)
  {
    hide LiveBoundOf;
    forall session: Id
      ensures |LiveBoundOf(logouts, session, later)| <= s.maxActive
    {
      FewerLive(logouts, logouts, session, now, later);
    }
  }

  /** A table whose live bound rows were live and bound before stays within the limits. */
  lemma ShrinkWithinLimits(s: Settings, logouts: map<Id, Logout>, after: map<Id, Logout>, now: Time)
    requires WithinLimits(s, logouts, now)
    requires forall l :: l in after ==> after[l].attempts <= s.maxAttempts
    requires forall l, session: Id :: l in after && LiveBound(after[l], session, now) ==>
      l in logouts && LiveBound(logouts[l], session, now)
    ensures WithinLimits(s, after, now)
  {
    hide LiveBoundOf, LiveBound;
    forall session: Id
      ensures |LiveBoundOf(after, session, now)| <= s.maxActive
    {
      FewerLive(logouts, after, session, now, now);
    }
  }

  /** Binding one more row under the count check stays within the limits. */
  lemma GrowWithinLimits(s: Settings, logouts: map<Id, Logout>, id: Id, row: Logout, now: Time)
    requires WithinLimits(s, logouts, now) && id in logouts && logouts[id].stage == PreConfirm
    requires row.session.Some? && row.attempts <= s.maxAttempts
    requires |LiveBoundOf(logouts, row.session.value, now)| < s.maxActive
    ensures WithinLimits(s, logouts[id := row], now)
  {
    var after := logouts[id := row];
    forall session: Id
      ensures |LiveBoundOf(after, session, now)| <= s.maxActive
    {
      assert |LiveBoundOf(logouts, session, now)| <= s.maxActive;
      if Some(session) == row.session {
        SubsetSize(LiveBoundOf(after, session, now), LiveBoundOf(logouts, session, now) + {id});
      } else {
        SubsetSize(LiveBoundOf(after, session, now), LiveBoundOf(logouts, session, now));
      }
    }
  }

  lemma BindWithinLimits(s: Settings, db: Db, lookupHash: Digest, csrfHash: Digest, p: Principal, now: Time)
    requires WithinLimits(s, db.logouts, now) && 0 <= s.maxAttempts
    ensures WithinLimits(s, Bind(db, lookupHash, csrfHash, p, s.maxActive, s.maxAttempts, now).0.logouts, now)
  {
    hide PrincipalStands, LiveBoundOf;
    var result := Bind(db, lookupHash, csrfHash, p, s.maxActive, s.maxAttempts, now);
    if result.1 == BoundNow {
      var id := FindLogout(db.logouts, lookupHash).value;
      GrowWithinLimits(s, db.logouts, id, result.0.logouts[id], now);
    } else if result.1 == ProofRotated {
      ShrinkWithinLimits(s, db.logouts, result.0.logouts, now);
    }
  }

  lemma CompleteWithinLimits(s: Settings, db: Db, lookupHash: Digest, csrfHash: Digest, decision: Decision,
                             p: Principal, now: Time)
    requires WithinLimits(s, db.logouts, now)
    ensures WithinLimits(s, Complete(db, lookupHash, csrfHash, decision, p, s.maxAttempts, now).0.logouts, now)
  {
    hide PrincipalStands, CloseSessions, LiveBoundOf;
    var result := Complete(db, lookupHash, csrfHash, decision, p, s.maxAttempts, now);
    if result.1 != CompleteNotFound {
      ShrinkWithinLimits(s, db.logouts, result.0.logouts, now);
    }
  }

  lemma StepWithinLimits(s: Settings, db: Db, e: Event, now: Time)
    requires 0 <= s.maxAttempts && WithinLimits(s, db.logouts, now)
    ensures WithinLimits(s, Apply(s, db, e, now).logouts, now)
  {
    hide CreateUser, UpdateUser, CreateClient, UpdateClient, RevokeGrant, Begin, Terminate, Deny, Issue;
    hide Exchange, Refresh, RevokeToken, Login, Register, Touch, RevokeSession;
    hide RevokeSessionByHash, RevokeOthers, RevokeAll, Start, Bind, Complete, LiveBoundOf, WithinLimits;
    hide DeleteCodes, DeleteAccesses, DeleteGenerations, DeleteFamilies, DeleteSessions, DeleteTransactions;
    hide DeleteLogouts;
    if !TouchesLogouts(e) {
      OthersLeaveLogouts(s, db, e, now);
    } else {
      match e {
        case LogoutBound(hash, csrf, p) => BindWithinLimits(s, db, hash, csrf, p, now);
        case LogoutCompleted(hash, csrf, decision, p) => CompleteWithinLimits(s, db, hash, csrf, decision, p, now);
        case LogoutStarted(id, hash, expiresAt) => StartWithinLimits(s, db, id, hash, expiresAt, now);
        case Cleaned(_, chosen, retention) => CleanWithinLimits(s, db, chosen, now, now - retention);
      }
    }
  }

  lemma StartWithinLimits(s: Settings, db: Db, id: Id, hash: Digest, expiresAt: Time, now: Time)
    requires 0 <= s.maxAttempts && WithinLimits(s, db.logouts, now)
    ensures WithinLimits(s, Start(db, id, hash, expiresAt, now).logouts, now)
  {
    hide LiveBoundOf;
    var after := Start(db, id, hash, expiresAt, now).logouts;
    if after != db.logouts {
      assert after[id].stage == PreConfirm;
      ShrinkWithinLimits(s, db.logouts, after, now);
    }
  }

  lemma CleanWithinLimits(s: Settings, db: Db, chosen: set<Id>, now: Time, cutoff: Time)
    requires WithinLimits(s, db.logouts, now)
    ensures WithinLimits(s, DeleteLogouts(db, chosen, now, cutoff).logouts, now)
  {
    hide LiveBoundOf, LogoutsRetired;
    if LogoutsRetired(db, chosen, now, cutoff) {
      ShrinkWithinLimits(s, db.logouts, db.logouts - chosen, now);
    }
  }

  /** Over every run a session has at most MaxActive live bound transactions, and no row counts more than
      MaxAttempts wrong proofs. */
  lemma {:induction false} LimitsHold(s: Settings, at: State, ticks: seq<Tick>)
    requires ValidLimits(s.maxActive, s.maxAttempts) && WithinLimits(s, at.db.logouts, at.clock)
    ensures var end := Run(s, at, ticks); WithinLimits(s, end.db.logouts, end.clock)
    decreases |ticks|
  {
    hide Apply, WithinLimits;
    if ticks != [] {
      var now := at.clock + ticks[0].elapsed;
      LimitsOutlastTime(s, at.db.logouts, at.clock, now);
      StepWithinLimits(s, at.db, ticks[0].event, now);
      LimitsHold(s, Step(s, at, ticks[0]), ticks[1..]);
    }
  }

  lemma ReachableWithinLimits(s: Settings, ticks: seq<Tick>)
    requires ValidLimits(s.maxActive, s.maxAttempts)
    ensures var end := Run(s, START, ticks); WithinLimits(s, end.db.logouts, end.clock)
  {
    assert forall session: Id :: LiveBoundOf(EMPTY.logouts, session, 1) == {};
    LimitsHold(s, START, ticks);
  }

  // ----- Proofs -----

  /** A wrong proof raises the attempt count of its row by one and changes nothing else. */
  lemma WrongProofOnlyCounts(db: Db, lookupHash: Digest, csrfHash: Digest, decision: Decision, p: Principal,
                             maxAttempts: int, now: Time)
    requires Complete(db, lookupHash, csrfHash, decision, p, maxAttempts, now).1 == WrongProof
    ensures var id := FindLogout(db.logouts, lookupHash).value;
      && FindLogout(db.logouts, lookupHash).Some? && db.logouts[id].attempts < maxAttempts
      && Complete(db, lookupHash, csrfHash, decision, p, maxAttempts, now).0 ==
         db.(logouts := db.logouts[id := db.logouts[id].(attempts := db.logouts[id].attempts + 1)])
  {
  }

  /** The event presents a wrong proof for this row and is counted. */
  ghost predicate Guesses(s: Settings, db: Db, e: Event, now: Time, l: Id) {
    && e.LogoutCompleted? && FindLogout(db.logouts, e.lookupHash) == Some(l)
    && Complete(db, e.lookupHash, e.csrfHash, e.decision, e.principal, s.maxAttempts, now).1 == WrongProof
  }

  ghost function WrongGuesses(s: Settings, at: State, ticks: seq<Tick>, l: Id): nat
    decreases |ticks|
  {
    if ticks == [] then 0
    else
      (if Guesses(s, at.db, ticks[0].event, at.clock + ticks[0].elapsed, l) then 1 else 0) +
      WrongGuesses(s, Step(s, at, ticks[0]), ticks[1..], l)
  }

  /** The row is still there only if it was, and its count grows exactly by a counted guess. */
  ghost predicate Counted(before: map<Id, Logout>, after: map<Id, Logout>, l: Id, guessed: bool) {
    l in after ==> l in before && after[l].attempts == before[l].attempts + (if guessed then 1 else 0)
  }

  lemma CompleteTouchesOne(db: Db, hash: Digest, csrf: Digest, decision: Decision, p: Principal, maxAttempts: int,
                           now: Time, l: Id)
    ensures var (after, outcome) := Complete(db, hash, csrf, decision, p, maxAttempts, now);
      Counted(db.logouts, after.logouts, l, outcome == WrongProof && FindLogout(db.logouts, hash) == Some(l))
  {
    hide PrincipalStands, CloseSessions, BoundTo, Open, FindLogout;
    var (after, outcome) := Complete(db, hash, csrf, decision, p, maxAttempts, now);
    if outcome == CompleteNotFound {
      assert after == db;
    } else {
      var id := FindLogout(db.logouts, hash).value;
      assert after.logouts == db.logouts[id := after.logouts[id]];
      if outcome == WrongProof {
        assert after.logouts[id].attempts == db.logouts[id].attempts + 1;
      } else {
        assert after.logouts[id].attempts == db.logouts[id].attempts;
      }
    }
  }

  lemma CompletionCounts(s: Settings, db: Db, e: Event, now: Time, l: Id)
    requires e.LogoutCompleted?
    ensures var after := Complete(db, e.lookupHash, e.csrfHash, e.decision, e.principal, s.maxAttempts, now).0.logouts;
      Counted(db.logouts, after, l, Guesses(s, db, e, now, l))
  {
    hide Complete, FindLogout, Counted;
    CompleteTouchesOne(db, e.lookupHash, e.csrfHash, e.decision, e.principal, s.maxAttempts, now, l);
  }

  lemma BindCounts(db: Db, hash: Digest, csrf: Digest, p: Principal, maxActive: int, maxAttempts: int, now: Time, l: Id)
    ensures Counted(db.logouts, Bind(db, hash, csrf, p, maxActive, maxAttempts, now).0.logouts, l, false)
  {
    hide PrincipalStands, LiveBoundOf, BoundTo, Open, FindLogout;
    var result := Bind(db, hash, csrf, p, maxActive, maxAttempts, now);
    if result.1 == BoundNow || result.1 == ProofRotated {
      var id := FindLogout(db.logouts, hash).value;
      assert result.0.logouts == db.logouts[id := result.0.logouts[id]];
    } else {
      assert result.0 == db;
    }
  }

  lemma StartCounts(db: Db, id: Id, hash: Digest, expiresAt: Time, now: Time, l: Id)
    requires l in db.usedIds
    ensures Counted(db.logouts, Start(db, id, hash, expiresAt, now).logouts, l, false)
  {
  }

  lemma RetiringCounts(db: Db, chosen: set<Id>, now: Time, cutoff: Time, l: Id)
    ensures Counted(db.logouts, DeleteLogouts(db, chosen, now, cutoff).logouts, l, false)
  {
    hide LogoutsRetired;
  }

  lemma TouchedCounts(s: Settings, db: Db, e: Event, now: Time, l: Id)
    requires TouchesLogouts(e) && l in db.usedIds
    ensures Counted(db.logouts, Apply(s, db, e, now).logouts, l, Guesses(s, db, e, now, l))
  {
    hide CreateUser, UpdateUser, CreateClient, UpdateClient, RevokeGrant, Begin, Terminate, Deny, Issue;
    hide Exchange, Refresh, RevokeToken, Login, Register, Touch, RevokeSession, RevokeSessionByHash, RevokeOthers;
    hide RevokeAll, Start, Bind, Complete, DeleteLogouts, Counted;
    match e {
      case LogoutStarted(id, hash, expiresAt) => StartCounts(db, id, hash, expiresAt, now, l);
      case LogoutBound(hash, csrf, p) => BindCounts(db, hash, csrf, p, s.maxActive, s.maxAttempts, now, l);
      case LogoutCompleted(hash, csrf, decision, p) => CompletionCounts(s, db, e, now, l);
      case Cleaned(_, chosen, retention) => RetiringCounts(db, chosen, now, now - retention, l);
    }
  }

  lemma StepCounts(s: Settings, db: Db, e: Event, now: Time, l: Id)
    requires l in db.usedIds
    ensures Counted(db.logouts, Apply(s, db, e, now).logouts, l, Guesses(s, db, e, now, l))
  {
    if TouchesLogouts(e) {
      TouchedCounts(s, db, e, now, l);
    } else {
      hide Apply;
      OthersLeaveLogouts(s, db, e, now);
    }
  }

  /** The wrong proofs a row may still be answered with. */
  function GuessesLeft(logouts: map<Id, Logout>, l: Id, maxAttempts: int): int {
    if l in logouts && logouts[l].attempts < maxAttempts then maxAttempts - logouts[l].attempts else 0
  }

  /**
   However a run goes on, one logout transaction is never answered with more wrong-proof outcomes than the
   attempts it had left.
   */
  lemma {:induction false} GuessesAreBounded(s: Settings, at: State, ticks: seq<Tick>, l: Id)
    requires Good(at) && l in at.db.usedIds
    ensures WrongGuesses(s, at, ticks, l) <= GuessesLeft(at.db.logouts, l, s.maxAttempts)
    decreases |ticks|
  {
    hide Inv, Stable, Apply, Complete, FindLogout;
    if ticks != [] {
      var e, now := ticks[0].event, at.clock + ticks[0].elapsed;
      TickKeeps(s, at, ticks[0]);
      UsedForever(at.db, Step(s, at, ticks[0]).db, l);
      StepCounts(s, at.db, e, now, l);
      if Guesses(s, at.db, e, now, l) {
        WrongProofOnlyCounts(at.db, e.lookupHash, e.csrfHash, e.decision, e.principal, s.maxAttempts, now);
      }
      GuessesAreBounded(s, Step(s, at, ticks[0]), ticks[1..], l);
    }
  }

  /** The proof this row accepts is this one, or it accepts none. */
  ghost predicate AcceptsOnly(logouts: map<Id, Logout>, l: Id, csrfHash: Digest) {
    l in logouts ==>
      && logouts[l].stage != PreConfirm
      && (logouts[l].csrfHash.Some? ==> logouts[l].csrfHash == Some(csrfHash))
  }

  /** The event hands out a new proof for this row. */
  ghost predicate BindsRow(s: Settings, db: Db, e: Event, now: Time, l: Id) {
    && e.LogoutBound? && l in db.logouts && FindLogout(db.logouts, e.lookupHash) == Some(l)
    && Bind(db, e.lookupHash, e.csrfHash, e.principal, s.maxActive, s.maxAttempts, now).1 in {BoundNow, ProofRotated}
  }

  lemma BindElsewhere(db: Db, hash: Digest, csrf: Digest, p: Principal, maxActive: int, maxAttempts: int, now: Time,
                      l: Id)
    requires FindLogout(db.logouts, hash) == Some(l) ==>
      Bind(db, hash, csrf, p, maxActive, maxAttempts, now).1 !in {BoundNow, ProofRotated}
    ensures var after := Bind(db, hash, csrf, p, maxActive, maxAttempts, now).0.logouts;
      (l in after <==> l in db.logouts) && (l in after ==> after[l] == db.logouts[l])
  {
    hide PrincipalStands, LiveBoundOf, BoundTo, Open, FindLogout;
    var result := Bind(db, hash, csrf, p, maxActive, maxAttempts, now);
    if result.1 == BoundNow || result.1 == ProofRotated {
      var id := FindLogout(db.logouts, hash).value;
      assert result.0.logouts == db.logouts[id := result.0.logouts[id]];
    } else {
      assert result.0 == db;
    }
  }

  lemma BindingKeepsProof(s: Settings, db: Db, e: Event, now: Time, l: Id, csrfHash: Digest)
    requires e.LogoutBound? && AcceptsOnly(db.logouts, l, csrfHash) && !BindsRow(s, db, e, now, l)
    ensures AcceptsOnly(Bind(db, e.lookupHash, e.csrfHash, e.principal, s.maxActive, s.maxAttempts, now).0.logouts, l,
                        csrfHash)
  {
    hide Bind;
    BindElsewhere(db, e.lookupHash, e.csrfHash, e.principal, s.maxActive, s.maxAttempts, now, l);
  }

  lemma CompletionKeepsProof(db: Db, hash: Digest, csrf: Digest, decision: Decision, p: Principal, maxAttempts: int,
                             now: Time, l: Id, csrfHash: Digest)
    requires AcceptsOnly(db.logouts, l, csrfHash)
    ensures AcceptsOnly(Complete(db, hash, csrf, decision, p, maxAttempts, now).0.logouts, l, csrfHash)
  {
    hide PrincipalStands, CloseSessions, BoundTo, Open, FindLogout;
    var result := Complete(db, hash, csrf, decision, p, maxAttempts, now);
    if result.1 == CompleteNotFound {
      assert result.0 == db;
    } else {
      var id := FindLogout(db.logouts, hash).value;
      assert result.0.logouts == db.logouts[id := result.0.logouts[id]];
    }
  }

  lemma StartKeepsProof(db: Db, id: Id, hash: Digest, expiresAt: Time, now: Time, l: Id, csrfHash: Digest)
    requires l in db.usedIds && AcceptsOnly(db.logouts, l, csrfHash)
    ensures AcceptsOnly(Start(db, id, hash, expiresAt, now).logouts, l, csrfHash)
  {
  }

  lemma RetiringKeepsProof(db: Db, chosen: set<Id>, now: Time, cutoff: Time, l: Id, csrfHash: Digest)
    requires AcceptsOnly(db.logouts, l, csrfHash)
    ensures AcceptsOnly(DeleteLogouts(db, chosen, now, cutoff).logouts, l, csrfHash)
  {
    hide LogoutsRetired;
  }

  lemma ProofKept(s: Settings, db: Db, e: Event, now: Time, l: Id, csrfHash: Digest)
    requires l in db.usedIds && AcceptsOnly(db.logouts, l, csrfHash) && !BindsRow(s, db, e, now, l)
    ensures AcceptsOnly(Apply(s, db, e, now).logouts, l, csrfHash)
  {
    if TouchesLogouts(e) {
      TouchedKeepsProof(s, db, e, now, l, csrfHash);
    } else {
      hide Apply;
      OthersLeaveLogouts(s, db, e, now);
    }
  }

  lemma TouchedKeepsProof(s: Settings, db: Db, e: Event, now: Time, l: Id, csrfHash: Digest)
    requires TouchesLogouts(e)
    requires l in db.usedIds && AcceptsOnly(db.logouts, l, csrfHash) && !BindsRow(s, db, e, now, l)
    ensures AcceptsOnly(Apply(s, db, e, now).logouts, l, csrfHash)
  {
    hide CreateUser, UpdateUser, CreateClient, UpdateClient, RevokeGrant, Begin, Terminate, Deny, Issue;
    hide Exchange, Refresh, RevokeToken, Login, Register, Touch, RevokeSession, RevokeSessionByHash, RevokeOthers;
    hide RevokeAll, Start, Bind, Complete, DeleteLogouts, BindsRow, AcceptsOnly;
    match e {
      case LogoutStarted(id, hash, expiresAt) => StartKeepsProof(db, id, hash, expiresAt, now, l, csrfHash);
      case LogoutBound(hash, csrf, p) => BindingKeepsProof(s, db, e, now, l, csrfHash);
      case LogoutCompleted(hash, csrf, decision, p) =>
        CompletionKeepsProof(db, hash, csrf, decision, p, s.maxAttempts, now, l, csrfHash);
      case Cleaned(_, chosen, retention) => RetiringKeepsProof(db, chosen, now, now - retention, l, csrfHash);
    }
  }

  /** No step of the run hands out another proof for this row. */
  ghost predicate NeverRebound(s: Settings, at: State, ticks: seq<Tick>, l: Id)
    decreases |ticks|
  {
    ticks == [] ||
    (!BindsRow(s, at.db, ticks[0].event, at.clock + ticks[0].elapsed, l) &&
     NeverRebound(s, Step(s, at, ticks[0]), ticks[1..], l))
  }

  lemma {:induction false} ProofOverRuns(s: Settings, at: State, ticks: seq<Tick>, l: Id, csrfHash: Digest)
    requires Good(at) && l in at.db.usedIds && AcceptsOnly(at.db.logouts, l, csrfHash) && NeverRebound(s, at, ticks, l)
    ensures AcceptsOnly(Run(s, at, ticks).db.logouts, l, csrfHash)
    decreases |ticks|
  {
    hide Inv, AcceptsOnly, Apply, BindsRow;
    hide UsersStable, ClientsStable, GrantsStable, TransactionsStable, CodesStable, FamiliesStable, GenerationsStable;
    hide AccessesStable, SessionsStable, LogoutsStable;
    if ticks != [] {
      ProofKept(s, at.db, ticks[0].event, at.clock + ticks[0].elapsed, l, csrfHash);
      TickKeeps(s, at, ticks[0]);
      ProofOverRuns(s, Step(s, at, ticks[0]), ticks[1..], l, csrfHash);
    }
  }

  lemma BindFixesProof(db: Db, lookupHash: Digest, csrfHash: Digest, p: Principal, maxActive: int, maxAttempts: int,
                       now: Time)
    requires Bind(db, lookupHash, csrfHash, p, maxActive, maxAttempts, now).1 in {BoundNow, ProofRotated}
    ensures FindLogout(db.logouts, lookupHash).Some?
    ensures AcceptsOnly(Bind(db, lookupHash, csrfHash, p, maxActive, maxAttempts, now).0.logouts,
                        FindLogout(db.logouts, lookupHash).value, csrfHash)
  {
    hide PrincipalStands, LiveBoundOf;
  }

  lemma LogoutRowUsed(db: Db, l: Id, now: Time)
    requires Inv(db, now) && l in db.logouts
    ensures l in db.usedIds && db.logouts[l].lookupHash in db.usedHashes
  {
    hide ClientsOk, GrantsOk, CodesOk, TransactionsOk, FamiliesOk, FamilyCodesOk, LiveFamiliesOk, GenerationsOk;
    hide ChainsOk, AccessesOk, AccessCodesOk, AccessFamiliesOk, AccessSourcesOk, LiveAccessesOk, SessionsOk, LogoutsOk;
  }

  /** A lookup digest never names another row later: it finds the row it found, or nothing. */
  lemma LookupIsForGood(db: Db, after: Db, hash: Digest, l: Id, now: Time)
    requires Inv(db, now) && Stable(db, after) && FindLogout(db.logouts, hash) == Some(l)
    ensures FindLogout(after.logouts, hash) == Some(l) || FindLogout(after.logouts, hash) == None
  {
    hide FreshOk, ClientsOk, GrantsOk, CodesOk, TransactionsOk, FamiliesOk, FamilyCodesOk, LiveFamiliesOk;
    hide GenerationsOk, ChainsOk, AccessesOk, AccessCodesOk, AccessFamiliesOk, AccessSourcesOk, LiveAccessesOk;
    hide UsersStable, ClientsStable, GrantsStable, TransactionsStable, CodesStable, FamiliesStable, GenerationsStable;
    hide AccessesStable, SessionsStable, SessionsOk;
    LogoutRowUsed(db, l, now);
    var found := FindLogout(after.logouts, hash);
    if found.Some? && found.value in db.logouts {
      assert LogoutKept(db.logouts[found.value], after.logouts[found.value]);
    }
  }

  /**
   Once a bind has handed out a proof, no other proof completes the transaction until a bind hands out
   another one.
   */
  lemma OnlyLatestProofCompletes(s: Settings, at: State, lookupHash: Digest, csrfHash: Digest, p: Principal,
                                 ticks: seq<Tick>, other: Digest, decision: Decision, q: Principal)
    requires Good(at) && other != csrfHash
    requires Bind(at.db, lookupHash, csrfHash, p, s.maxActive, s.maxAttempts, at.clock).1 in {BoundNow, ProofRotated}
    requires FindLogout(at.db.logouts, lookupHash).Some?
    requires NeverRebound(s, Step(s, at, Tick(0, LogoutBound(lookupHash, csrfHash, p))), ticks,
                          FindLogout(at.db.logouts, lookupHash).value)
    ensures var end := Run(s, Step(s, at, Tick(0, LogoutBound(lookupHash, csrfHash, p))), ticks);
      Complete(end.db, lookupHash, other, decision, q, s.maxAttempts, end.clock).1 in {WrongProof, CompleteNotFound}
  {
    hide Inv, Stable, Run, Bind, NeverRebound;
    var l := FindLogout(at.db.logouts, lookupHash).value;
    var bound := Step(s, at, Tick(0, LogoutBound(lookupHash, csrfHash, p)));
    var end := Run(s, bound, ticks);
    BindFixesProof(at.db, lookupHash, csrfHash, p, s.maxActive, s.maxAttempts, at.clock);
    TickKeeps(s, at, Tick(0, LogoutBound(lookupHash, csrfHash, p)));
    LogoutRowUsed(at.db, l, at.clock);
    UsedForever(at.db, bound.db, l);
    ProofOverRuns(s, bound, ticks, l, csrfHash);
    RunKeeps(s, bound, ticks);
    StableTransitive(at.db, bound.db, end.db, at.clock);
    LookupIsForGood(at.db, end.db, lookupHash, l, at.clock);
    OtherProofRefused(end.db, lookupHash, l, csrfHash, other, decision, q, s.maxAttempts, end.clock);
  }

  lemma UsedForever(db: Db, after: Db, l: Id)
    requires Stable(db, after) && l in db.usedIds
    ensures l in after.usedIds
  {
  }

  lemma OtherProofRefused(db: Db, lookupHash: Digest, l: Id, csrfHash: Digest, other: Digest, decision: Decision,
                          q: Principal, maxAttempts: int, now: Time)
    requires FindLogout(db.logouts, lookupHash) == Some(l) || FindLogout(db.logouts, lookupHash) == None
    requires AcceptsOnly(db.logouts, l, csrfHash) && other != csrfHash
    ensures Complete(db, lookupHash, other, decision, q, maxAttempts, now).1 in {WrongProof, CompleteNotFound}
  {
    hide CloseSessions, PrincipalStands, FindLogout;
  }

  /** Confirming closes the binding of the logged-out session and revokes that session. */
  lemma ConfirmClosesBinding(db: Db, lookupHash: Digest, csrfHash: Digest, decision: Decision, p: Principal,
                             maxAttempts: int, now: Time)
    requires Complete(db, lookupHash, csrfHash, decision, p, maxAttempts, now).1 == LogoutConfirmed
    ensures var after := Complete(db, lookupHash, csrfHash, decision, p, maxAttempts, now).0;
      && Bindings.BindingClosed(after, p.binding, now)
      && (forall b :: b != p.binding ==> Bindings.BindingUntouched(db, after, b))
      && p.session in after.sessions && after.sessions[p.session].revokedAt.Some?
  {
    var after := Complete(db, lookupHash, csrfHash, decision, p, maxAttempts, now).0;
    var closed := CloseSessions(db, {p.session}, now);
    assert after.families == closed.families && after.accesses == closed.accesses && after.sessions == closed.sessions;
    Bindings.ClosingCloses(db, {p.session}, p.binding, now);
    forall b | b != p.binding
      ensures Bindings.BindingUntouched(db, after, b)
    {
      Bindings.ClosingSparesOthers(db, {p.session}, b, now);
    }
  }
}
