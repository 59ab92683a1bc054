/**
 Closing a binding is final, whichever transaction closes it; a session ends with its binding
 except when the same user logs in again; and the session such a login replaced can still end
 the families it left behind.
 */
module BindingFinality {
  import opened Schema
  import opened Revocation
  import opened Tokens
  import opened Sessions
  import opened Accounts
  import opened Authorization
  import opened Logouts
  import opened Invariants
  import opened Machine
  import opened Finality
  import opened Bindings
  import LogoutGuarantees
  import Cleanup

  // ----- Every way a binding closes -----

  /** An unrevoked session of this user that is not spared is on the binding. */
  ghost predicate OpenOn(db: Db, user: Id, spared: set<Id>, b: Id) {
    exists s :: s in ActiveSessionsOf(db.sessions, user) && s !in spared && db.sessions[s].binding == b
  }

  /** What a login needs of the state it meets. */
  predicate CanLogIn(db: Db, x: LoginInput, now: Time) {
    x.session != NIL && x.user in db.users && db.users[x.user].status == Active && SessionInsertable(db, x, now)
  }

  lemma LoginExactly(db: Db, x: LoginInput, now: Time)
    ensures Login(db, x, now).1.Some? <==> CanLogIn(db, x, now)
  {
    hide CloseSessions, InsertSession, RevokeSessions, Existing, SessionInsertable;
  }

  /** What confirming a logout needs: an open row bound to this live principal, and its current proof. */
  ghost predicate CanConfirm(db: Db, hash: Digest, csrf: Digest, decision: Decision, p: Principal, maxAttempts: int,
                             now: Time)
  {
    var found := FindLogout(db.logouts, hash);
    && 1 <= maxAttempts <= 10 && decision == Confirm && found.Some? && PrincipalStands(db, p, now)
    && var row := db.logouts[found.value];
       row.stage == BoundConfirmable && Open(row, now, maxAttempts) && BoundTo(row, p) && row.csrfHash == Some(csrf)
  }

  lemma ConfirmExactly(db: Db, hash: Digest, csrf: Digest, decision: Decision, p: Principal, maxAttempts: int,
                       now: Time)
    ensures Complete(db, hash, csrf, decision, p, maxAttempts, now).1 == LogoutConfirmed <==>
            CanConfirm(db, hash, csrf, decision, p, maxAttempts, now)
  {
    hide CloseSessions, PrincipalStands, BoundTo, FindLogout;
  }

  /** The transaction withdraws the authority recorded under binding `b`, seen in the state before it. */
  ghost predicate Closes(s: Settings, db: Db, e: Event, now: Time, b: Id) {
    match e
    case SessionRevoked(id, owner) =>
      && id in db.sessions && db.sessions[id].revokedAt.None? && db.sessions[id].binding == b
      && (owner.Some? ==> db.sessions[id].user == owner.value)
    case SessionRevokedByHash(hash) =>
      var found := FindSession(db.sessions, hash);
      found.Some? && db.sessions[found.value].revokedAt.None? && db.sessions[found.value].binding == b
    case OtherSessionsRevoked(user, current) => OpenOn(db, user, {current}, b)
    case AllSessionsRevoked(user) => user in db.users && OpenOn(db, user, {}, b)
    case UserUpdated(id, u) =>
      && id in db.users && !LastAdminBlocks(db, id, u) && db.users[id].version == u.expectedVersion
      && u.revokeSessions && OpenOn(db, id, {}, b)
    case LoggedIn(x) =>
      var existing := Existing(db, x, now);
      && CanLogIn(db, x, now) && existing.Some?
      && db.sessions[existing.value].user != x.user && db.sessions[existing.value].binding == b
    case Registered(x, row) =>
      var existing := Existing(db, x, now);
      Registrable(db, x, row, now) && existing.Some? && db.sessions[existing.value].binding == b
    case LogoutCompleted(hash, csrf, decision, p) =>
      CanConfirm(db, hash, csrf, decision, p, s.maxAttempts, now) && p.binding == b
    case _ => false
  }

  lemma RevokingSessionsCloses(db: Db, user: Id, spared: set<Id>, s: Id, now: Time)
    requires s in ActiveSessionsOf(db.sessions, user) && s !in spared
    ensures var closed := CloseSessions(db, ActiveSessionsOf(db.sessions, user) - spared, now);
      BindingClosed(closed, db.sessions[s].binding, now)
  {
    hide BindingClosed, CloseSessions;
    ClosingCloses(db, ActiveSessionsOf(db.sessions, user) - spared, db.sessions[s].binding, now);
  }

  lemma OthersClose(db: Db, user: Id, current: Id, b: Id, now: Time)
    requires OpenOn(db, user, {current}, b)
    ensures BindingClosed(RevokeOthers(db, user, current, now), b, now)
  {
    hide BindingClosed, CloseSessions;
    var s :| s in ActiveSessionsOf(db.sessions, user) && s !in {current} && db.sessions[s].binding == b;
    RevokingSessionsCloses(db, user, {current}, s, now);
  }

  lemma AllClose(db: Db, user: Id, b: Id, now: Time)
    requires OpenOn(db, user, {}, b)
    ensures BindingClosed(CloseSessions(db, ActiveSessionsOf(db.sessions, user), now), b, now)
  {
    hide BindingClosed, CloseSessions;
    var s :| s in ActiveSessionsOf(db.sessions, user) && db.sessions[s].binding == b;
    ClosingCloses(db, ActiveSessionsOf(db.sessions, user), b, now);
  }

  lemma UpdateCloses(db: Db, id: Id, u: UserUpdate, b: Id, now: Time)
    requires id in db.users && !LastAdminBlocks(db, id, u) && db.users[id].version == u.expectedVersion
    requires u.revokeSessions && OpenOn(db, id, {}, b)
    ensures BindingClosed(UpdateUser(db, id, u, now), b, now)
  {
    hide Cascade, CloseSessions, ActiveAdmins, ActiveSessionsOf, SelectsFamily, SelectsAccess;
    var withdrawn := CascadeIf(db, if u.status == Disabled then Some(OfUser(id)) else None, now);
    assert OpenOn(withdrawn, id, {}, b);
    AllClose(withdrawn, id, b, now);
  }

  lemma RegistrationCloses(db: Db, x: LoginInput, row: User, now: Time)
    requires Inv(db, now) && Registrable(db, x, row, now) && Existing(db, x, now).Some?
    ensures BindingClosed(Register(db, x, row, now), db.sessions[Existing(db, x, now).value].binding, now)
  {
    hide Inv, Existing, CloseSessions, SelectsFamily, SelectsAccess;
    var previous := Existing(db, x, now).value;
    SessionUserUsed(db, previous, now);
    var registered := db.(users := db.users[x.user := row], usedIds := db.usedIds + {x.user});
    ClosingCloses(registered, {previous}, db.sessions[previous].binding, now);
    var closed := CloseSessions(registered, {previous}, now);
    assert Register(db, x, row, now) == InsertSession(closed, x, x.session, now);
  }

  lemma SessionUserUsed(db: Db, s: Id, now: Time)
    requires Inv(db, now) && s in db.sessions
    ensures db.sessions[s].user in db.usedIds && s != NIL && s in db.usedIds
  {
    hide ClientsOk, GrantsOk, CodesOk, TransactionsOk, FamiliesOk, FamilyCodesOk, LiveFamiliesOk, GenerationsOk;
    hide ChainsOk, AccessesOk, AccessCodesOk, AccessFamiliesOk, AccessSourcesOk, LiveAccessesOk, LogoutsOk;
    hide GrantIdsFresh, BindingsFresh, CodeHashesFresh, GenerationHashesFresh, AccessHashesFresh, SessionHashesFresh;
    hide LogoutHashesFresh;
  }

  lemma OneCloses(db: Db, id: Id, owner: Option<Id>, now: Time)
    requires id in db.sessions && db.sessions[id].revokedAt.None?
    requires owner.Some? ==> db.sessions[id].user == owner.value
    ensures BindingClosed(RevokeSession(db, id, owner, now), db.sessions[id].binding, now)
  {
    hide BindingClosed, CloseSessions;
    ClosingCloses(db, {id}, db.sessions[id].binding, now);
  }

  /** After each of these transactions nothing live is left under the binding. */
  lemma ClosingStepCloses(s: Settings, db: Db, e: Event, now: Time, b: Id)
    requires Inv(db, now) && Closes(s, db, e, now, b)
    ensures BindingClosed(Apply(s, db, e, now), b, now)
  {
    hide Inv, BindingClosed, BindingUntouched, UpdateUser, Login, Register, RevokeSession, RevokeOthers, CloseSessions;
    hide Complete, OpenOn, ActiveSessionsOf, Registrable, LastAdminBlocks, Existing, CanLogIn, CanConfirm;
    match e {
      case SessionRevoked(id, owner) => OneCloses(db, id, owner, now);
      case SessionRevokedByHash(hash) => OneCloses(db, FindSession(db.sessions, hash).value, None, now);
      case OtherSessionsRevoked(user, current) => OthersClose(db, user, current, b, now);
      case AllSessionsRevoked(user) => AllClose(db, user, b, now);
      case UserUpdated(id, u) => UpdateCloses(db, id, u, b, now);
      case LoggedIn(x) =>
        LoginExactly(db, x, now);
        AccountSwitchClosesOldBinding(db, x, now);
      case Registered(x, row) => RegistrationCloses(db, x, row, now);
      case LogoutCompleted(hash, csrf, decision, p) =>
        ConfirmExactly(db, hash, csrf, decision, p, s.maxAttempts, now);
        LogoutGuarantees.ConfirmClosesBinding(db, hash, csrf, decision, p, s.maxAttempts, now);
    }
  }

  /**
   Whichever transaction closes a binding - a revoked session, the others or all sessions of a user, a
   user update, a login or registration over another account, or a confirmed logout - no family and no
   access row recorded under it is accepted again in any run.
   */
  lemma ClosedBindingsAreFinal(s: Settings, at: State, e: Event, b: Id, ticks: seq<Tick>)
    requires Good(at) && Closes(s, at.db, e, at.clock, b)
    ensures var sel := OnBindings({b});
      var end := Run(s, Step(s, at, Tick(0, e)), ticks);
      NoneAccepted(s, end, FamiliesOf(at.db, sel), AccessesOf(at.db, sel), {})
  {
    hide Inv, Run, Apply, NoneAccepted, FamiliesOf, AccessesOf, Closes, Emptied;
    ClosingStepCloses(s, at.db, e, at.clock, b);
    WithdrawalIsFinal(s, at, e, OnBindings({b}), ticks);
  }

  // ----- No session ends without its binding -----

  /** The same user logs in again over this session. */
  ghost predicate Rotates(db: Db, e: Event, now: Time, id: Id) {
    e.LoggedIn? && Existing(db, e.login, now) == Some(id) && db.sessions[id].user == e.login.user
  }

  predicate LeavesSessions(e: Event) {
    e.UserCreated? || e.ClientCreated? || e.ClientUpdated? || e.GrantRevoked? || e.AuthorizationBegun? ||
    e.AuthorizationEnded? || e.AuthorizationDenied? || e.CodeRequested? || e.CodeExchanged? || e.TokenRefreshed? ||
    e.TokenRevoked? || e.LogoutStarted? || e.LogoutBound?
  }

  lemma OthersLeaveSessions(s: Settings, db: Db, e: Event, now: Time)
    requires LeavesSessions(e)
    ensures Apply(s, db, e, now).sessions == db.sessions
  {
    hide CreateUser, UpdateUser, CreateClient, UpdateClient, RevokeGrant, Begin, Terminate, Deny, Issue;
    hide Exchange, Refresh, RevokeToken, Login, Register, Touch, RevokeSession;
    hide RevokeSessionByHash, RevokeOthers, RevokeAll, Start, Bind, Complete, Clean;
  }

  lemma CleaningLeavesRevocation(db: Db, table: Table, chosen: set<Id>, cutoff: Time, now: Time, id: Id)
    requires id in db.sessions && id in Clean(db, table, chosen, cutoff, now).sessions
    ensures Clean(db, table, chosen, cutoff, now).sessions[id] == db.sessions[id]
  {
    hide Cleanup.SessionsRetired, Cleanup.CodesRetired, Cleanup.AccessesRetired, Cleanup.GenerationsRetired;
    hide Cleanup.FamiliesRetired, Cleanup.LogoutsRetired, Cleanup.TransactionsRetired;
  }

  /** What one of these transactions revokes, it revokes with its binding. */
  lemma SessionStepsClose(s: Settings, db: Db, e: Event, now: Time, id: Id)
    requires e.SessionRevoked? || e.SessionRevokedByHash? || e.OtherSessionsRevoked? || e.AllSessionsRevoked?
    requires id in db.sessions && db.sessions[id].revokedAt.None?
    requires id in Apply(s, db, e, now).sessions && Apply(s, db, e, now).sessions[id].revokedAt.Some?
    ensures Closes(s, db, e, now, db.sessions[id].binding)
  {
    hide CreateUser, UpdateUser, CreateClient, UpdateClient, RevokeGrant, Begin, Terminate, Deny, Issue;
    hide Exchange, Refresh, RevokeToken, Login, Register, Touch, Start, Bind, Complete, Clean;
    hide Cascade, BindingsOf;
  }

  lemma UpdateStepCloses(db: Db, user: Id, u: UserUpdate, now: Time, id: Id)
    requires id in db.sessions && db.sessions[id].revokedAt.None?
    requires var after := UpdateUser(db, user, u, now).sessions; id in after && after[id].revokedAt.Some?
    ensures user in db.users && !LastAdminBlocks(db, user, u) && db.users[user].version == u.expectedVersion
    ensures u.revokeSessions && OpenOn(db, user, {}, db.sessions[id].binding)
  {
    hide RevokeFamilies, RevokeAccesses, BindingsOf, ActiveAdmins;
    assert id in ActiveSessionsOf(db.sessions, user);
  }

  lemma InsertRevokesNothing(db: Db, x: LoginInput, binding: Id, now: Time, id: Id)
    ensures var after := InsertSession(db, x, binding, now).sessions;
      id in after && after[id].revokedAt.Some? ==> id in db.sessions && db.sessions[id].revokedAt.Some?
  {
  }

  lemma LoginStepCloses(db: Db, x: LoginInput, now: Time, id: Id)
    requires id in db.sessions && db.sessions[id].revokedAt.None?
    requires var after := Login(db, x, now).0.sessions; id in after && after[id].revokedAt.Some?
    ensures Login(db, x, now).1.Some? && Existing(db, x, now) == Some(id)
  {
    hide Cascade, BindingsOf, Existing, SessionInsertable, InsertSession;
    var existing := Existing(db, x, now);
    if existing.None? {
      InsertRevokesNothing(db, x, x.session, now, id);
    } else if db.sessions[existing.value].user == x.user {
      var rotated := db.(sessions := RevokeSessions(db.sessions, {existing.value}, now));
      InsertRevokesNothing(rotated, x, db.sessions[existing.value].binding, now, id);
    } else {
      InsertRevokesNothing(CloseSessions(db, {existing.value}, now), x, x.session, now, id);
    }
  }

  lemma RegistrationStepCloses(db: Db, x: LoginInput, row: User, now: Time, id: Id)
    requires id in db.sessions && db.sessions[id].revokedAt.None?
    requires var after := Register(db, x, row, now).sessions; id in after && after[id].revokedAt.Some?
    ensures Registrable(db, x, row, now) && Existing(db, x, now) == Some(id)
  {
    hide RevokeFamilies, RevokeAccesses, BindingsOf, Existing, SessionInsertable;
  }

  lemma LogoutStepCloses(db: Db, hash: Digest, csrf: Digest, decision: Decision, p: Principal, maxAttempts: int,
                         now: Time, id: Id)
    requires id in db.sessions && db.sessions[id].revokedAt.None?
    requires var after := Complete(db, hash, csrf, decision, p, maxAttempts, now).0.sessions;
      id in after && after[id].revokedAt.Some?
    ensures Complete(db, hash, csrf, decision, p, maxAttempts, now).1 == LogoutConfirmed
    ensures p.binding == db.sessions[id].binding
  {
    hide RevokeFamilies, RevokeAccesses, BindingsOf, BoundTo, Open;
  }

  /**
   A session is never revoked without its binding, with one exception: the same user logging in again,
   which hands the binding to the new session.
   */
  lemma SessionsEndWithTheirBinding(s: Settings, db: Db, e: Event, now: Time, id: Id)
    requires id in db.sessions && db.sessions[id].revokedAt.None?
    requires id in Apply(s, db, e, now).sessions && Apply(s, db, e, now).sessions[id].revokedAt.Some?
    ensures Rotates(db, e, now, id) || Closes(s, db, e, now, db.sessions[id].binding)
  {
    if LeavesSessions(e) {
      hide Apply, Closes, Rotates;
      OthersLeaveSessions(s, db, e, now);
    } else if e.SessionRevoked? || e.SessionRevokedByHash? || e.OtherSessionsRevoked? || e.AllSessionsRevoked? {
      hide Apply, Closes, Rotates;
      SessionStepsClose(s, db, e, now, id);
    } else {
      LastStepsClose(s, db, e, now, id);
    }
  }

  lemma LastStepsClose(s: Settings, db: Db, e: Event, now: Time, id: Id)
    requires e.UserUpdated? || e.LoggedIn? || e.Registered? || e.LogoutCompleted? || e.SessionTouched? || e.Cleaned?
    requires id in db.sessions && db.sessions[id].revokedAt.None?
    requires id in Apply(s, db, e, now).sessions && Apply(s, db, e, now).sessions[id].revokedAt.Some?
    ensures Rotates(db, e, now, id) || Closes(s, db, e, now, db.sessions[id].binding)
  {
    hide CreateUser, UpdateUser, CreateClient, UpdateClient, RevokeGrant, Begin, Terminate, Deny, Issue;
    hide Exchange, Refresh, RevokeToken, Login, Register, RevokeSession, RevokeSessionByHash, RevokeOthers, RevokeAll;
    hide Start, Bind, Complete, Clean, Existing, Registrable, LastAdminBlocks, OpenOn, CanLogIn, CanConfirm;
    match e {
      case UserUpdated(user, u) => UpdateStepCloses(db, user, u, now, id);
      case LoggedIn(x) =>
        LoginExactly(db, x, now);
        LoginStepCloses(db, x, now, id);
      case Registered(x, row) => RegistrationStepCloses(db, x, row, now, id);
      case LogoutCompleted(hash, csrf, decision, p) =>
        ConfirmExactly(db, hash, csrf, decision, p, s.maxAttempts, now);
        LogoutStepCloses(db, hash, csrf, decision, p, s.maxAttempts, now, id);
      case Cleaned(table, chosen, retention) =>
        CleaningLeavesRevocation(db, table, chosen, now - retention, now, id);
      case SessionTouched(_, _) =>
    }
  }

  // ----- The session a login replaced -----

  /** Once the same user has logged in again, the binding is taken from the session that was replaced. */
  lemma ReplacedSessionLosesBinding(db: Db, x: LoginInput, now: Time, previous: Id)
    requires Inv(db, now) && Login(db, x, now).1.Some? && Existing(db, x, now) == Some(previous)
    requires db.sessions[previous].user == x.user
    ensures var after := Login(db, x, now).0;
      && previous in after.sessions && after.sessions[previous].user == x.user
      && after.sessions[previous].binding == db.sessions[previous].binding
      && BindingTaken(after, previous)
      && OpenOn(after, x.user, {previous}, db.sessions[previous].binding)
  {
    hide Inv, InsertSession;
    ReloginKeepsFamilies(db, x, now);
    SessionUserUsed(db, previous, now);
    NewSessionRow(db, x, now, previous);
    var after := Login(db, x, now).0;
    assert x.session in ActiveSessionsOf(after.sessions, x.user);
    assert x.session in after.sessions && x.session != previous;
  }

  lemma NewSessionRow(db: Db, x: LoginInput, now: Time, previous: Id)
    requires Login(db, x, now).1.Some? && Existing(db, x, now) == Some(previous)
    requires db.sessions[previous].user == x.user && previous in db.usedIds
    ensures var after := Login(db, x, now).0;
      && x.session in after.sessions && after.sessions[x.session].user == x.user && x.session != previous
      && previous in after.sessions && after.sessions[previous].user == x.user
      && after.sessions[previous].binding == db.sessions[previous].binding
  {
    hide Existing, CloseSessions;
  }

  lemma StillOpen(db: Db, after: Db, id: Id, other: Id, user: Id, b: Id)
    requires Stable(db, after) && id in db.sessions && db.sessions[id].user == user && db.sessions[id].binding == b
    requires id in after.sessions && after.sessions[id].revokedAt.None? && id != other
    ensures OpenOn(after, user, {other}, b)
  {
    hide UsersStable, ClientsStable, GrantsStable, TransactionsStable, CodesStable, FamiliesStable, GenerationsStable;
    hide AccessesStable, LogoutsStable;
    assert SessionKept(db.sessions[id], after.sessions[id]);
    assert id in ActiveSessionsOf(after.sessions, user);
  }

  /**
   The unsafe caller of RevokeOtherUserSessions: the session a same-user login replaced. The login changes
   no token row. Whatever happens then, if the replaced session revokes "the others" while the new session is
   unrevoked, it closes its own binding, and everything recorded there is refused from then on.
   */
  lemma ReplacedSessionEndsFamilies(s: Settings, at: State, x: LoginInput, previous: Id, between: seq<Tick>, wait: nat,
                                    ticks: seq<Tick>)
    requires Good(at) && Login(at.db, x, at.clock).1.Some? && Existing(at.db, x, at.clock) == Some(previous)
    requires at.db.sessions[previous].user == x.user
    requires var mid := Run(s, Step(s, at, Tick(0, LoggedIn(x))), between).db;
      x.session in mid.sessions && mid.sessions[x.session].revokedAt.None?
    ensures var sel := OnBindings({at.db.sessions[previous].binding});
      var relogged := Step(s, at, Tick(0, LoggedIn(x)));
      var mid := Run(s, relogged, between);
      var closed := Step(s, mid, Tick(wait, OtherSessionsRevoked(x.user, previous)));
      && relogged.db.families == at.db.families && relogged.db.accesses == at.db.accesses
      && BindingClosed(closed.db, at.db.sessions[previous].binding, closed.clock)
      && NoneAccepted(s, Run(s, closed, ticks), FamiliesOf(mid.db, sel), AccessesOf(mid.db, sel), {})
  {
    hide Inv, Stable, Run, NoneAccepted, Login, RevokeOthers, OpenOn, Emptied, BindingTaken;
    var b := at.db.sessions[previous].binding;
    var relogged := Step(s, at, Tick(0, LoggedIn(x)));
    var revoke := OtherSessionsRevoked(x.user, previous);
    TickKeeps(s, at, Tick(0, LoggedIn(x)));
    ReloginKeepsFamilies(at.db, x, at.clock);
    SessionUserUsed(at.db, previous, at.clock);
    NewSessionRow(at.db, x, at.clock, previous);
    var mid := Run(s, relogged, between);
    RunKeeps(s, relogged, between);
    StillOpen(relogged.db, mid.db, x.session, previous, x.user, b);
    var waited := State(mid.db, mid.clock + wait);
    TimePasses(mid.db, mid.clock, waited.clock);
    ClosingStepCloses(s, waited.db, revoke, waited.clock, b);
    ClosedBindingsAreFinal(s, waited, revoke, b, ticks);
    assert Step(s, waited, Tick(0, revoke)) == Step(s, mid, Tick(wait, revoke));
  }
}
