/**
 Administration and owner operations that withdraw authority: grant revocation (consent.go),
 client update (client.go) and user update (admin.go). Each withdraws by a cascade.
 */
module Accounts {
  import opened Schema
  import opened Revocation
  import opened Sessions

  // ----- RevokeCurrentUserGrant -----

  function RevokeGrant(db: Db, user: Id, client: Id, now: Time): (after: Db)
    ensures after.logouts == db.logouts && after.generations == db.generations
    ensures after.users == db.users && after.sessions == db.sessions
  {
    var key := GrantKey(user, client);
    if user in db.users && client in db.clients && key in db.grants && db.grants[key].revokedAt.None? then
      var grant := db.grants[key];
      Cascade(db, OfGrant(grant.id), now).(
        grants := db.grants[key := grant.(revokedAt := Some(now), updatedAt := now, version := grant.version + 1)])
    else db
  }

  // ----- Clients -----

  function CreateClient(db: Db, id: Id, c: Client): (after: Db)
    ensures after.logouts == db.logouts && after.generations == db.generations
    ensures after.users == db.users && after.sessions == db.sessions
    ensures after.grants == db.grants
  {
    if id in db.usedIds || !ValidProfile(c) || OpenId !in c.scopes || c.publicId == "" ||
       c.version != 1 || c.status != Active then db
    else db.(clients := db.clients[id := c], usedIds := db.usedIds + {id})
  }

  datatype ClientUpdate = ClientUpdate(
    status: Status, redirectUris: set<string>, scopes: set<Scope>, expectedVersion: int)

  /** Which cascade an update needs: all live authority, offline authority, or none. */
  function UpdateSelector(id: Id, current: Client, u: ClientUpdate): Option<Selector> {
    if u.status == Disabled then Some(OfClient(id))
    else if OfflineAccess in current.scopes && OfflineAccess !in u.scopes then Some(OfflineOfClient(id))
    else None
  }

  function Updated(c: Client, u: ClientUpdate): Client {
    c.(status := u.status, redirectUris := u.redirectUris, scopes := u.scopes, version := c.version + 1)
  }

  /** UpdateClient, after the service's validateScopes (openid is required). */
  function UpdateClient(db: Db, id: Id, u: ClientUpdate, now: Time): (after: Db)
    ensures after.logouts == db.logouts && after.generations == db.generations
    ensures after.users == db.users && after.sessions == db.sessions
    ensures after.grants == db.grants
  {
    if id !in db.clients || OpenId !in u.scopes || db.clients[id].version != u.expectedVersion then db
    else
      var current := db.clients[id];
      CascadeIf(db, UpdateSelector(id, current, u), now).(clients := db.clients[id := Updated(current, u)])
  }

  /** What a client update answers, in the order of its checks. */
  datatype ClientAnswer = ClientStored(row: Client) | ClientMissing | ClientInvalid | ClientConflict

  // ----- Users -----

  function CreateUser(db: Db, id: Id, u: User): (after: Db)
    ensures after.logouts == db.logouts && after.generations == db.generations && after.sessions == db.sessions
    ensures after.grants == db.grants
  {
    if id in db.usedIds || u.status != Active || u.version != 1 then db
    else db.(users := db.users[id := u], usedIds := db.usedIds + {id})
  }

  datatype UserUpdate = UserUpdate(status: Status, role: Role, revokeSessions: bool, expectedVersion: int)

  function ActiveAdmins(users: map<Id, User>): set<Id> {
    set id | id in users && users[id].role == Admin && users[id].status == Active
  }

  /** Losing the administrator role or active status needs a second active administrator. */
  predicate LastAdminBlocks(db: Db, id: Id, u: UserUpdate)
    requires id in db.users
  {
    && id in ActiveAdmins(db.users)
    && (u.role != Admin || u.status != Active)
    && |ActiveAdmins(db.users)| <= 1
  }

  /** The cascades a user update needs, before the user row is written. */
  function Withdrawn(db: Db, id: Id, u: UserUpdate, now: Time): (after: Db)
    ensures after.logouts == db.logouts && after.generations == db.generations && after.users == db.users
    ensures after.grants == db.grants
  {
    var withdrawn := CascadeIf(db, if u.status == Disabled then Some(OfUser(id)) else None, now);
    if u.revokeSessions then CloseSessions(withdrawn, ActiveSessionsOf(db.sessions, id), now) else withdrawn
  }

  /** UpdateManagedUser. */
  function UpdateUser(db: Db, id: Id, u: UserUpdate, now: Time): (after: Db)
    ensures after.logouts == db.logouts && after.generations == db.generations
    ensures after.grants == db.grants
  {
    if id !in db.users || LastAdminBlocks(db, id, u) || db.users[id].version != u.expectedVersion then db
    else
      var row := db.users[id].(status := u.status, role := u.role, version := db.users[id].version + 1);
      Withdrawn(db, id, u, now).(users := db.users[id := row])
  }

  /** What a user update answers, in the order of its checks. */
  datatype UserAnswer = UserStored(row: User) | UserMissing | UserLastAdmin | UserConflict
}
