/**
 There is always an administrator: once one is active, no run leaves the provider without any.
 */
module Administrators {
  import opened Schema
  import opened Accounts
  import opened Sessions
  import opened Tokens
  import opened Authorization
  import opened Logouts
  import opened Machine

  /** An update never takes the last active administrator away. */
  lemma UpdateLeavesOne(db: Db, id: Id, u: UserUpdate, now: Time)
    requires ActiveAdmins(db.users) != {}
    ensures ActiveAdmins(UpdateUser(db, id, u, now).users) != {}
  {
    hide Withdrawn;
    var before := ActiveAdmins(db.users);
    var after := UpdateUser(db, id, u, now).users;
    if after != db.users {
      var other := if before == {id} then id else AnotherIn(before, id);
      assert other in before;
      if other != id {
        assert other in ActiveAdmins(after);
      } else {
        assert |before| == 1;
        assert id in ActiveAdmins(after);
      }
    }
  }

  /** A member of a set other than one given. */
  ghost function AnotherIn(ids: set<Id>, id: Id): (other: Id)
    requires ids != {} && ids != {id}
    ensures other in ids && other != id
  {
    var other :| other in ids && other != id;
    other
  }

  /** A new account leaves the existing ones alone. */
  lemma NewAccountLeavesOne(users: map<Id, User>, id: Id, u: User)
    requires ActiveAdmins(users) != {} && id !in users
    ensures ActiveAdmins(users[id := u]) != {}
  {
    var admin :| admin in ActiveAdmins(users);
    assert admin in ActiveAdmins(users[id := u]);
  }

  lemma RegisterUsers(db: Db, x: LoginInput, u: User, now: Time)
    ensures var after := Register(db, x, u, now).users;
      after == db.users || (x.user !in db.usedIds && after == db.users[x.user := u])
  {
    hide CloseSessions, Existing, InsertSession, SessionInsertable;
  }

  lemma CreationLeavesOne(db: Db, id: Id, u: User)
    requires ActiveAdmins(db.users) != {} && db.users.Keys <= db.usedIds
    ensures ActiveAdmins(CreateUser(db, id, u).users) != {}
  {
    hide ActiveAdmins;
    var after := CreateUser(db, id, u).users;
    if after != db.users {
      assert id !in db.usedIds && after == db.users[id := u];
      NewAccountLeavesOne(db.users, id, u);
    }
  }

  lemma RegistrationLeavesOne(db: Db, x: LoginInput, u: User, now: Time)
    requires ActiveAdmins(db.users) != {} && db.users.Keys <= db.usedIds
    ensures ActiveAdmins(Register(db, x, u, now).users) != {}
  {
    hide Register, ActiveAdmins;
    RegisterUsers(db, x, u, now);
    if Register(db, x, u, now).users != db.users { NewAccountLeavesOne(db.users, x.user, u); }
  }

  lemma OthersLeaveUsers(s: Settings, db: Db, e: Event, now: Time)
    requires !e.UserCreated? && !e.UserUpdated? && !e.Registered?
    ensures Apply(s, db, e, now).users == db.users
  {
    hide CreateUser, UpdateUser, CreateClient, UpdateClient, RevokeGrant, Begin, Terminate, Deny, Issue;
    hide Exchange, Refresh, RevokeToken, Login, Register, Touch, RevokeSession;
    hide RevokeSessionByHash, RevokeOthers, RevokeAll, Start, Bind, Complete;
  }

  lemma StepLeavesOne(s: Settings, db: Db, e: Event, now: Time)
    requires ActiveAdmins(db.users) != {} && db.users.Keys <= db.usedIds
    ensures ActiveAdmins(Apply(s, db, e, now).users) != {}
  {
    hide UpdateUser, CreateUser, Register, CreateClient, UpdateClient, RevokeGrant, Begin, Terminate, Deny, Issue;
    hide Exchange, Refresh, RevokeToken, Login, Touch, RevokeSession, ActiveAdmins;
    hide RevokeSessionByHash, RevokeOthers, RevokeAll, Start, Bind, Complete, Clean;
    match e
    case UserUpdated(id, u) => UpdateLeavesOne(db, id, u, now);
    case UserCreated(id, row) => CreationLeavesOne(db, id, row);
    case Registered(x, row) => RegistrationLeavesOne(db, x, row, now);
    case _ => OthersLeaveUsers(s, db, e, now);
  }

  lemma UserIdsUsed(at: State)
    requires Good(at)
    ensures at.db.users.Keys <= at.db.usedIds
  {
  }

  /** Whatever happens, an active administrator remains. */
  lemma {:induction false} AdministratorRemains(s: Settings, at: State, ticks: seq<Tick>)
    requires Good(at) && ActiveAdmins(at.db.users) != {}
    ensures ActiveAdmins(Run(s, at, ticks).db.users) != {}
    decreases |ticks|
  {
    hide Good, Apply, ActiveAdmins;
    if ticks != [] {
      UserIdsUsed(at);
      StepLeavesOne(s, at.db, ticks[0].event, at.clock + ticks[0].elapsed);
      TickKeeps(s, at, ticks[0]);
      AdministratorRemains(s, Step(s, at, ticks[0]), ticks[1..]);
    }
  }
}
