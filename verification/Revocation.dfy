/**
 The guarded UPDATE statements shared by every cascade: revoke the unrevoked families a
 selector names, and the live access rows it names.
 */
module Revocation {
  import opened Schema

  datatype Selector =
    | OfUser(user: Id)
    | OfClient(client: Id)
    | OfflineOfClient(client: Id)
    | OfGrant(grant: Id)
    | OnBindings(bindings: set<Id>)
    | OfFamily(family: Id)

  predicate SelectsFamily(s: Selector, id: Id, f: Family) {
    match s
    case OfUser(u) => f.user == u
    case OfClient(c) => f.client == c
    case OfflineOfClient(c) => f.client == c
    case OfGrant(g) => f.grant == g
    case OnBindings(bs) => f.binding in bs
    case OfFamily(fam) => id == fam
  }

  predicate SelectsAccess(s: Selector, a: Access) {
    match s
    case OfUser(u) => a.user == u
    case OfClient(c) => a.client == c
    case OfflineOfClient(c) => a.client == c && a.family.Some?
    case OfGrant(g) => a.grant == g
    case OnBindings(bs) => a.binding.Some? && a.binding.value in bs
    case OfFamily(fam) => a.family == Some(fam)
  }

  function RevokedFamily(s: Selector, id: Id, f: Family, now: Time): Family {
    if SelectsFamily(s, id, f) && f.revokedAt.None? then f.(revokedAt := Some(now)) else f
  }

  function RevokedAccess(s: Selector, a: Access, now: Time): Access {
    if SelectsAccess(s, a) && a.revokedAt.None? && a.expiresAt > now then a.(revokedAt := Some(now)) else a
  }

  function RevokeFamilies(families: map<Id, Family>, s: Selector, now: Time): map<Id, Family> {
    map id | id in families :: RevokedFamily(s, id, families[id], now)
  }

  function RevokeAccesses(accesses: map<Id, Access>, s: Selector, now: Time): map<Id, Access> {
    map id | id in accesses :: RevokedAccess(s, accesses[id], now)
  }

  function Cascade(db: Db, s: Selector, now: Time): (after: Db)
    ensures after.logouts == db.logouts && after.generations == db.generations
    ensures after.users == db.users && after.sessions == db.sessions
    ensures after.grants == db.grants && after.clients == db.clients
  {
    db.(families := RevokeFamilies(db.families, s, now),
        accesses := RevokeAccesses(db.accesses, s, now))
  }

  function CascadeIf(db: Db, s: Option<Selector>, now: Time): (after: Db)
    ensures after.logouts == db.logouts && after.generations == db.generations
    ensures after.users == db.users && after.sessions == db.sessions
    ensures after.grants == db.grants && after.clients == db.clients
  {
    if s.Some? then Cascade(db, s.value, now) else db
  }

  /** Nothing a selector names is left: no unrevoked family and no access row live after `now`. */
  ghost predicate Emptied(db: Db, s: Selector, now: Time) {
    && (forall f :: f in db.families && SelectsFamily(s, f, db.families[f]) ==> db.families[f].revokedAt.Some?)
    && (forall a :: a in db.accesses && SelectsAccess(s, db.accesses[a]) ==>
          db.accesses[a].revokedAt.Some? || db.accesses[a].expiresAt <= now)
  }
}
