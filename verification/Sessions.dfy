/**
 Browser sessions: login rotation, registration and every way a session is revoked
 (authn.go, session.go, admin.go). A session binding survives rotation; revoking a session
 withdraws the offline authority recorded under its binding.
 */
module Sessions {
  import opened Schema
  import opened Revocation

  /** LockActiveLoginSessionsByUser: the unrevoked sessions of a user. */
  function ActiveSessionsOf(sessions: map<Id, Session>, user: Id): set<Id> {
    set s | s in sessions && sessions[s].user == user && sessions[s].revokedAt.None?
  }

  function BindingsOf(sessions: map<Id, Session>, ids: set<Id>): set<Id> {
    set s | s in ids && s in sessions :: sessions[s].binding
  }

  function RevokeSessions(sessions: map<Id, Session>, ids: set<Id>, now: Time): map<Id, Session> {
    map s | s in sessions ::
      if s in ids && sessions[s].revokedAt.None? then sessions[s].(revokedAt := Some(now)) else sessions[s]
  }

  /** revokeSessionBindingsCascade followed by RevokeLoginSessionBindingByID on each session. */
  function CloseSessions(db: Db, ids: set<Id>, now: Time): (after: Db)
    ensures after.logouts == db.logouts && after.generations == db.generations && after.users == db.users
    ensures after.grants == db.grants
  {
    Cascade(db, OnBindings(BindingsOf(db.sessions, ids)), now).(sessions := RevokeSessions(db.sessions, ids, now))
  }

  /** RevokeUserSession, RevokeManagedSession and RevokeSessionByHash: one unrevoked session. */
  function RevokeSession(db: Db, id: Id, owner: Option<Id>, now: Time): (after: Db)
    ensures after.logouts == db.logouts && after.generations == db.generations && after.users == db.users
    ensures after.grants == db.grants
  {
    if id in db.sessions && db.sessions[id].revokedAt.None? && (owner.Some? ==> db.sessions[id].user == owner.value)
    then CloseSessions(db, {id}, now)
    else db
  }

  ghost function RevokeSessionByHash(db: Db, hash: Digest, now: Time): (after: Db)
    ensures after.logouts == db.logouts && after.generations == db.generations && after.users == db.users
    ensures after.grants == db.grants
  {
    var found := FindSession(db.sessions, hash);
    if found.None? then db else RevokeSession(db, found.value, None, now)
  }

  /** RevokeOtherUserSessions. */
  function RevokeOthers(db: Db, user: Id, current: Id, now: Time): (after: Db)
    ensures after.logouts == db.logouts && after.generations == db.generations && after.users == db.users
    ensures after.grants == db.grants
  {
    CloseSessions(db, ActiveSessionsOf(db.sessions, user) - {current}, now)
  }

  /** RevokeAllManagedUserSessions. */
  function RevokeAll(db: Db, user: Id, now: Time): (after: Db)
    ensures after.logouts == db.logouts && after.generations == db.generations && after.users == db.users
    ensures after.grants == db.grants
  {
    if user !in db.users then db else CloseSessions(db, ActiveSessionsOf(db.sessions, user), now)
  }

  datatype LoginInput = LoginInput(
    user: Id, session: Id, tokenHash: Digest, expiresAt: Time, idleExpiresAt: Time, existing: Option<Digest>)

  predicate SessionLive(s: Session, now: Time) {
    s.revokedAt.None? && s.expiresAt > now && s.idleExpiresAt > now
  }

  predicate SessionInsertable(db: Db, x: LoginInput, now: Time) {
    && x.session !in db.usedIds
    && x.tokenHash !in db.usedHashes
    && now < x.idleExpiresAt <= x.expiresAt
  }

  function InsertSession(db: Db, x: LoginInput, binding: Id, now: Time): (after: Db)
    ensures after.logouts == db.logouts && after.generations == db.generations && after.users == db.users
    ensures after.grants == db.grants
  {
    var row := Session(x.user, binding, x.tokenHash, now, x.expiresAt, x.idleExpiresAt, None);
    db.(sessions := db.sessions[x.session := row],
        usedIds := db.usedIds + {x.session},
        usedHashes := db.usedHashes + {x.tokenHash})
  }

  /** The browser's previous session, when its cookie names one that is still live. */
  ghost function Existing(db: Db, x: LoginInput, now: Time): (r: Option<Id>)
    ensures r.Some? ==> r.value in db.sessions && SessionLive(db.sessions[r.value], now)
  {
    if x.existing.None? then None
    else
      var found := FindSession(db.sessions, x.existing.value);
      if found.Some? && SessionLive(db.sessions[found.value], now) then found else None
  }

  /** CommitLogin: returns the new state and the binding of the new session. */
  ghost function Login(db: Db, x: LoginInput, now: Time): (r: (Db, Option<Id>))
    ensures r.0.logouts == db.logouts && r.0.generations == db.generations && r.0.users == db.users
    ensures r.0.grants == db.grants
  {
    if x.session == NIL || x.user !in db.users || db.users[x.user].status != Active || !SessionInsertable(db, x, now)
    then (db, None)
    else
      var existing := Existing(db, x, now);
      if existing.None? then (InsertSession(db, x, x.session, now), Some(x.session))
      else if db.sessions[existing.value].user == x.user then
        var binding := db.sessions[existing.value].binding;
        var rotated := db.(sessions := RevokeSessions(db.sessions, {existing.value}, now));
        (InsertSession(rotated, x, binding, now), Some(binding))
      else
        (InsertSession(CloseSessions(db, {existing.value}, now), x, x.session, now), Some(x.session))
  }

  /** What a registration needs: new keys, an active first version of the user row and a session in the future. */
  predicate Registrable(db: Db, x: LoginInput, u: User, now: Time) {
    && x.session != NIL && x.user !in db.usedIds && x.user != x.session
    && u.status == Active && u.version == 1
    && SessionInsertable(db, x, now)
  }

  /** CommitRegistration: the user row is created in the same transaction. */
  ghost function Register(db: Db, x: LoginInput, u: User, now: Time): (after: Db)
    ensures after.logouts == db.logouts && after.generations == db.generations
    ensures after.grants == db.grants
  {
    if !Registrable(db, x, u, now) then db
    else
      var registered := db.(users := db.users[x.user := u], usedIds := db.usedIds + {x.user});
      var existing := Existing(db, x, now);
      if existing.None? || db.sessions[existing.value].user == x.user then InsertSession(registered, x, x.session, now)
      else InsertSession(CloseSessions(registered, {existing.value}, now), x, x.session, now)
  }

  /** The idle deadline moves, never past the absolute one. */
  function Extended(s: Session, idleExpiresAt: Time): Session {
    s.(idleExpiresAt := if idleExpiresAt <= s.expiresAt then idleExpiresAt else s.expiresAt)
  }

  /** TouchLoginSession; a check of the table keeps the idle deadline after the creation. */
  function Touch(db: Db, id: Id, idleExpiresAt: Time, now: Time): (after: Db)
    ensures after.logouts == db.logouts && after.generations == db.generations && after.users == db.users
    ensures after.grants == db.grants
  {
    if id in db.sessions && SessionLive(db.sessions[id], now) && idleExpiresAt > db.sessions[id].createdAt then
      db.(sessions := db.sessions[id := Extended(db.sessions[id], idleExpiresAt)])
    else db
  }
}
