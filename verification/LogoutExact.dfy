/**
 Logout transactions, exactly: which answer each step gives, the one row it writes, and what only a
 confirmation ends.
 */
module LogoutExact {
  import opened Schema
  import opened Sessions
  import opened Logouts
  import opened Invariants

  /** The transaction is undecided, inside its deadline and not guessed at too often. */
  predicate Undecided(row: Logout, now: Time, maxAttempts: int) {
    row.consumedAt.None? && now < row.expiresAt && row.attempts < maxAttempts
  }

  /** The browser's session is this user's, on this binding, unrevoked and inside both deadlines. */
  predicate SignedIn(db: Db, p: Principal, now: Time) {
    && p.session in db.sessions
    && var s := db.sessions[p.session];
       s.user == p.user && s.binding == p.binding && s.revokedAt.None? && now < s.expiresAt && now < s.idleExpiresAt
  }

  /** The transaction waits for this principal's decision. */
  predicate WaitsFor(row: Logout, p: Principal) {
    row.stage == BoundConfirmable && row.user == Some(p.user) && row.session == Some(p.session) &&
    row.binding == Some(p.binding)
  }

  /** Undecided transactions already waiting for this session. */
  function Waiting(logouts: map<Id, Logout>, session: Id, now: Time): set<Id> {
    set l | l in logouts && logouts[l].stage == BoundConfirmable && logouts[l].session == Some(session) &&
            logouts[l].consumedAt.None? && now < logouts[l].expiresAt
  }

  lemma OneLogoutPerHash(db: Db, l: Id, now: Time)
    requires Inv(db, now) && l in db.logouts
    ensures FindLogout(db.logouts, db.logouts[l].lookupHash) == Some(l)
  {
    hide FreshOk, ClientsOk, GrantsOk, CodesOk, TransactionsOk, FamiliesOk, FamilyCodesOk, LiveFamiliesOk;
    hide GenerationsOk, ChainsOk, AccessesOk, AccessCodesOk, AccessFamiliesOk, AccessSourcesOk, LiveAccessesOk;
    hide SessionsOk;
  }

  /** StartLogout stores an unbound row for at most a quarter of an hour. */
  lemma StartExact(db: Db, id: Id, lookupHash: Digest, expiresAt: Time, now: Time)
    ensures var after := Start(db, id, lookupHash, expiresAt, now);
      if id !in db.usedIds && lookupHash !in db.usedHashes && now < expiresAt <= now + 15 * MINUTE then
        && after == db.(logouts := after.logouts, usedIds := db.usedIds + {id},
                        usedHashes := db.usedHashes + {lookupHash})
        && after.logouts.Keys == db.logouts.Keys + {id}
        && (forall l :: l in db.logouts && l != id ==> after.logouts[l] == db.logouts[l])
        && var row := after.logouts[id];
           && row.lookupHash == lookupHash && row.stage == PreConfirm && row.createdAt == now
           && row.expiresAt == expiresAt && row.attempts == 0
           && row.csrfHash.None? && row.user.None? && row.session.None? && row.binding.None? && row.consumedAt.None?
      else after == db
  {
  }

  /**
   BindLogoutTransaction: a fresh transaction is bound while fewer than the allowed number wait for the session; one
   already waiting for this principal only gets a new proof. Nothing but that row ever changes.
   */
  lemma BindExact(db: Db, l: Id, csrfHash: Digest, p: Principal, maxActive: int, maxAttempts: int, now: Time)
    requires Inv(db, now) && l in db.logouts && 1 <= maxActive <= 5 && 1 <= maxAttempts <= 10
    ensures var (after, outcome) := Bind(db, db.logouts[l].lookupHash, csrfHash, p, maxActive, maxAttempts, now);
      var row := db.logouts[l];
      var ready := Undecided(row, now, maxAttempts) && SignedIn(db, p, now);
      && (outcome == BoundNow <==>
          ready && row.stage == PreConfirm && |Waiting(db.logouts, p.session, now)| < maxActive)
      && (outcome == AtCapacity <==>
          ready && row.stage == PreConfirm && |Waiting(db.logouts, p.session, now)| >= maxActive)
      && (outcome == ProofRotated <==> ready && WaitsFor(row, p))
      && (outcome == BoundNow || outcome == ProofRotated ==>
            after == db.(logouts := db.logouts[l :=
              Logout(row.lookupHash, BoundConfirmable, Some(csrfHash), Some(p.user), Some(p.session), Some(p.binding),
                     row.createdAt, row.expiresAt, None, row.attempts)]))
      && (outcome == AtCapacity || outcome == BindNotFound ==> after == db)
  {
    hide Inv, Bound, Waiting, LiveBoundOf, Open, PrincipalStands, Undecided, SignedIn;
    OneLogoutPerHash(db, l, now);
    CountedAlike(db.logouts, p.session, now);
    ReadyAlike(db, db.logouts[l], p, maxAttempts, now);
    if Open(db.logouts[l], now, maxAttempts) { BoundRow(db.logouts[l], csrfHash, p); }
  }

  lemma CountedAlike(logouts: map<Id, Logout>, session: Id, now: Time)
    ensures Waiting(logouts, session, now) == LiveBoundOf(logouts, session, now)
  {
  }

  lemma ReadyAlike(db: Db, row: Logout, p: Principal, maxAttempts: nat, now: Time)
    ensures Undecided(row, now, maxAttempts) <==> Open(row, now, maxAttempts)
    ensures SignedIn(db, p, now) <==> PrincipalStands(db, p, now)
    ensures Open(row, now, maxAttempts) ==> row.consumedAt.None?
  {
  }

  lemma BoundRow(row: Logout, csrfHash: Digest, p: Principal)
    requires row.consumedAt.None?
    ensures Bound(row, csrfHash, p) ==
            Logout(row.lookupHash, BoundConfirmable, Some(csrfHash), Some(p.user), Some(p.session), Some(p.binding),
                   row.createdAt, row.expiresAt, None, row.attempts)
    ensures WaitsFor(row, p) ==> row.(csrfHash := Some(csrfHash)) == Bound(row, csrfHash, p)
  {
  }

  /**
   CompleteLogoutTransaction: only the principal it waits for decides, with the current proof. A wrong proof is
   counted and does nothing else; a cancellation retires the row and ends nothing; a confirmation retires the row
   and ends the session with all that is recorded under its binding.
   */
  lemma CompleteExact(db: Db, l: Id, csrfHash: Digest, decision: Decision, p: Principal, maxAttempts: int, now: Time)
    requires Inv(db, now) && l in db.logouts && 1 <= maxAttempts <= 10
    ensures var (after, outcome) := Complete(db, db.logouts[l].lookupHash, csrfHash, decision, p, maxAttempts, now);
      var row := db.logouts[l];
      var ready := Undecided(row, now, maxAttempts) && WaitsFor(row, p) && SignedIn(db, p, now);
      && (outcome == CompleteNotFound <==> !ready)
      && (outcome == WrongProof <==> ready && row.csrfHash != Some(csrfHash))
      && (outcome == LogoutCanceled <==> ready && row.csrfHash == Some(csrfHash) && decision == Cancel)
      && (outcome == LogoutConfirmed <==> ready && row.csrfHash == Some(csrfHash) && decision == Confirm)
      && (outcome == CompleteNotFound ==> after == db)
      && (outcome == WrongProof ==> after == db.(logouts := db.logouts[l := row.(attempts := row.attempts + 1)]))
      && (outcome == LogoutCanceled ==> after == db.(logouts := db.logouts[l := Retired(row, Canceled, now)]))
      && (outcome == LogoutConfirmed ==>
            after == RevokeSession(db, p.session, None, now).(logouts := db.logouts[l := Retired(row, Confirmed, now)]))
  {
    hide Inv, CloseSessions, Open, PrincipalStands, Undecided, SignedIn;
    OneLogoutPerHash(db, l, now);
    ReadyAlike(db, db.logouts[l], p, maxAttempts, now);
    assert SignedIn(db, p, now) ==> p.session in db.sessions && db.sessions[p.session].revokedAt.None? by {
      SignedInFacts(db, p, now);
    }
  }

  lemma SignedInFacts(db: Db, p: Principal, now: Time)
    ensures SignedIn(db, p, now) ==> p.session in db.sessions && db.sessions[p.session].revokedAt.None?
  {
  }

  /** The row keeps whom it waited for, and its proof is gone. */
  function Retired(row: Logout, stage: Stage, now: Time): Logout {
    Logout(row.lookupHash, stage, None, row.user, row.session, row.binding, row.createdAt, row.expiresAt, Some(now),
           row.attempts)
  }
}
