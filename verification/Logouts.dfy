/**
 RP-initiated logout transactions (storage/postgres/logout.go): created without authority,
 bound to one browser session, then confirmed or canceled by the latest proof.
 */
module Logouts {
  import opened Schema
  import opened Sessions

  function Start(db: Db, id: Id, lookupHash: Digest, expiresAt: Time, now: Time): (after: Db)
    ensures after.generations == db.generations && after.users == db.users && after.sessions == db.sessions
    ensures after.grants == db.grants
  {
    if id in db.usedIds || lookupHash in db.usedHashes || !(now < expiresAt <= now + 15 * MINUTE) then db
    else
      db.(logouts := db.logouts[id := Logout(lookupHash, PreConfirm, None, None, None, None, now, expiresAt, None, 0)],
          usedIds := db.usedIds + {id},
          usedHashes := db.usedHashes + {lookupHash})
  }

  datatype Principal = Principal(user: Id, session: Id, binding: Id)

  /** The locked session row is the principal's, unrevoked and unexpired. */
  predicate PrincipalStands(db: Db, p: Principal, now: Time) {
    && p.session in db.sessions
    && db.sessions[p.session].user == p.user
    && db.sessions[p.session].binding == p.binding
    && SessionLive(db.sessions[p.session], now)
  }

  predicate LiveBound(row: Logout, session: Id, now: Time) {
    row.session == Some(session) && row.stage == BoundConfirmable && row.consumedAt.None? && row.expiresAt > now
  }

  /** CountLiveBoundLogoutTransactionsBySession counts these. */
  function LiveBoundOf(logouts: map<Id, Logout>, session: Id, now: Time): set<Id> {
    set id | id in logouts && LiveBound(logouts[id], session, now)
  }

  predicate BoundTo(row: Logout, p: Principal) {
    row.user == Some(p.user) && row.session == Some(p.session) && row.binding == Some(p.binding)
  }

  predicate Open(row: Logout, now: Time, maxAttempts: nat) {
    row.consumedAt.None? && now < row.expiresAt && row.attempts < maxAttempts
  }

  datatype BindOutcome = BoundNow | ProofRotated | AtCapacity | BindNotFound

  predicate ValidLimits(maxActive: int, maxAttempts: int) {
    1 <= maxActive <= 5 && 1 <= maxAttempts <= 10
  }

  /** The row once it is bound to a principal under a proof. */
  function Bound(row: Logout, csrfHash: Digest, p: Principal): Logout {
    row.(stage := BoundConfirmable, csrfHash := Some(csrfHash),
         user := Some(p.user), session := Some(p.session), binding := Some(p.binding))
  }

  function Ended(row: Logout, stage: Stage, now: Time): Logout {
    row.(stage := stage, csrfHash := None, consumedAt := Some(now))
  }

  function WithLogout(db: Db, id: Id, row: Logout): (after: Db)
    ensures after.generations == db.generations && after.users == db.users && after.sessions == db.sessions
    ensures after.grants == db.grants
  {
    db.(logouts := db.logouts[id := row])
  }

  /** BindLogoutTransaction. */
  ghost function Bind(db: Db, lookupHash: Digest, csrfHash: Digest, p: Principal, maxActive: int, maxAttempts: int,
                      now: Time)
    : (r: (Db, BindOutcome))
    ensures r.0.generations == db.generations && r.0.users == db.users && r.0.sessions == db.sessions
    ensures r.0.grants == db.grants
  {
    var found := FindLogout(db.logouts, lookupHash);
    if found.None? || !ValidLimits(maxActive, maxAttempts) then (db, BindNotFound)
    else BindLocked(db, found.value, csrfHash, p, maxActive, maxAttempts, now)
  }

  function BindLocked(db: Db, id: Id, csrfHash: Digest, p: Principal, maxActive: int, maxAttempts: nat, now: Time)
    : (r: (Db, BindOutcome))
    requires id in db.logouts
    ensures r.0.generations == db.generations && r.0.users == db.users && r.0.sessions == db.sessions
    ensures r.0.grants == db.grants
  {
    var row := db.logouts[id];
    if !Open(row, now, maxAttempts) || !PrincipalStands(db, p, now) then (db, BindNotFound)
    else if row.stage == PreConfirm then
      if |LiveBoundOf(db.logouts, p.session, now)| >= maxActive then (db, AtCapacity)
      else (WithLogout(db, id, Bound(row, csrfHash, p)), BoundNow)
    else if row.stage == BoundConfirmable && BoundTo(row, p) then
      (WithLogout(db, id, row.(csrfHash := Some(csrfHash))), ProofRotated)
    else (db, BindNotFound)
  }

  datatype Decision = Confirm | Cancel

  datatype CompleteOutcome = LogoutConfirmed | LogoutCanceled | WrongProof | CompleteNotFound

  /** CompleteLogoutTransaction. */
  ghost function Complete(db: Db, lookupHash: Digest, csrfHash: Digest, decision: Decision, p: Principal,
                          maxAttempts: int, now: Time)
    : (r: (Db, CompleteOutcome))
    ensures r.0.generations == db.generations && r.0.users == db.users
    ensures r.0.grants == db.grants
  {
    var found := FindLogout(db.logouts, lookupHash);
    if found.None? || !(1 <= maxAttempts <= 10) then (db, CompleteNotFound)
    else CompleteLocked(db, found.value, csrfHash, decision, p, maxAttempts, now)
  }

  function CompleteLocked(db: Db, id: Id, csrfHash: Digest, decision: Decision, p: Principal, maxAttempts: nat,
                          now: Time)
    : (r: (Db, CompleteOutcome))
    requires id in db.logouts
    ensures r.0.generations == db.generations && r.0.users == db.users
    ensures r.0.grants == db.grants
  {
    var row := db.logouts[id];
    if row.stage != BoundConfirmable || !Open(row, now, maxAttempts) || !BoundTo(row, p) || !PrincipalStands(db, p, now)
    then (db, CompleteNotFound)
    else if row.csrfHash != Some(csrfHash) then
      (WithLogout(db, id, row.(attempts := row.attempts + 1)), WrongProof)
    else if decision == Cancel then
      (WithLogout(db, id, Ended(row, Canceled, now)), LogoutCanceled)
    else
      (WithLogout(CloseSessions(db, {p.session}, now), id, Ended(row, Confirmed, now)), LogoutConfirmed)
  }
}
