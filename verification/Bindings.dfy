/**
 Session bindings: what a binding means, which cascades spare it, and how login rotation and
 account switching treat the families recorded under it.
 */
module Bindings {
  import opened Schema
  import opened Revocation
  import opened Sessions
  import opened Invariants
  import opened Machine
  import opened SessionProofs

  /** In every reachable state a binding belongs to one user and has at most one unrevoked session. */
  lemma OneOpenSessionPerBinding(s: Settings, ticks: seq<Tick>, a: Id, b: Id)
    requires var db := Run(s, START, ticks).db;
      a in db.sessions && b in db.sessions && db.sessions[a].binding == db.sessions[b].binding
    ensures var db := Run(s, START, ticks).db;
      && db.sessions[a].user == db.sessions[b].user
      && (db.sessions[a].revokedAt.None? && db.sessions[b].revokedAt.None? ==> a == b)
  {
    hide Run, Inv;
    ReachableIsGood(s, ticks);
    var end := Run(s, START, ticks);
    SessionsAreOk(end.db, end.clock);
  }

  /** Every row recorded under a binding is as before. */
  ghost predicate BindingUntouched(db: Db, after: Db, binding: Id) {
    && (forall f :: f in db.families && db.families[f].binding == binding ==>
          f in after.families && after.families[f] == db.families[f])
    && (forall a :: a in db.accesses && db.accesses[a].binding == Some(binding) ==>
          a in after.accesses && after.accesses[a] == db.accesses[a])
  }

  /** Every family under a binding is revoked and every access row under it is revoked or expired. */
  ghost predicate BindingClosed(db: Db, binding: Id, now: Time) {
    Emptied(db, OnBindings({binding}), now)
  }

  lemma ClosingSparesOthers(db: Db, ids: set<Id>, binding: Id, now: Time)
    requires binding !in BindingsOf(db.sessions, ids)
    ensures BindingUntouched(db, CloseSessions(db, ids, now), binding)
  {
  }

  lemma ClosingCloses(db: Db, ids: set<Id>, binding: Id, now: Time)
    requires binding in BindingsOf(db.sessions, ids)
    ensures BindingClosed(CloseSessions(db, ids, now), binding, now)
  {
    var sel := OnBindings(BindingsOf(db.sessions, ids));
    var after := CloseSessions(db, ids, now);
    assert forall f :: f in after.families && SelectsFamily(OnBindings({binding}), f, after.families[f]) ==>
        SelectsFamily(sel, f, db.families[f]);
    assert forall a :: a in after.accesses && SelectsAccess(OnBindings({binding}), after.accesses[a]) ==>
        SelectsAccess(sel, db.accesses[a]);
  }

  /** Another unrevoked session shares the current session's binding. */
  ghost predicate BindingTaken(db: Db, current: Id)
    requires current in db.sessions
  {
    exists s :: s in db.sessions && s != current && db.sessions[s].revokedAt.None? &&
                db.sessions[s].binding == db.sessions[current].binding
  }

  /**
   Revoking the other sessions spares the current session's own binding exactly when no other
   unrevoked session shares it; then its families and access rows are untouched, and otherwise
   they are all closed.
   */
  lemma RevokeOthersAndOwnBinding(db: Db, current: Id, now: Time)
    requires Inv(db, now) && current in db.sessions
    ensures var b := db.sessions[current].binding;
      var after := RevokeOthers(db, db.sessions[current].user, current, now);
      if BindingTaken(db, current) then BindingClosed(after, b, now) else BindingUntouched(db, after, b)
  {
    hide Inv, BindingClosed, BindingUntouched, CloseSessions;
    SessionsAreOk(db, now);
    var b, user := db.sessions[current].binding, db.sessions[current].user;
    var others := ActiveSessionsOf(db.sessions, user) - {current};
    if BindingTaken(db, current) {
      var s :| s in db.sessions && s != current && db.sessions[s].revokedAt.None? && db.sessions[s].binding == b;
      assert s in others;
      ClosingCloses(db, others, b, now);
    } else {
      assert forall s :: s in others ==> db.sessions[s].binding != b;
      ClosingSparesOthers(db, others, b, now);
    }
  }

  /** A still-unrevoked session never closes its own binding by revoking the others. */
  lemma UnrevokedSessionKeepsItsBinding(db: Db, current: Id, now: Time)
    requires Inv(db, now) && current in db.sessions && db.sessions[current].revokedAt.None?
    ensures BindingUntouched(db, RevokeOthers(db, db.sessions[current].user, current, now),
                             db.sessions[current].binding)
  {
    hide Inv, BindingUntouched, RevokeOthers, BindingClosed;
    SessionsAreOk(db, now);
    RevokeOthersAndOwnBinding(db, current, now);
  }

  // ----- Login -----

  /** Same-user login rotates the session and leaves every family and access row alone. */
  lemma ReloginKeepsFamilies(db: Db, x: LoginInput, now: Time)
    requires Inv(db, now) && Login(db, x, now).1.Some?
    requires Existing(db, x, now).Some? && db.sessions[Existing(db, x, now).value].user == x.user
    ensures var (after, binding) := Login(db, x, now);
      var previous := Existing(db, x, now).value;
      && after.families == db.families && after.accesses == db.accesses
      && binding == Some(db.sessions[previous].binding)
      && x.session in after.sessions && after.sessions[x.session].binding == db.sessions[previous].binding
      && after.sessions[x.session].revokedAt.None?
      && previous in after.sessions && after.sessions[previous].revokedAt == Some(now)
  {
    hide Inv;
    SessionsAreOk(db, now);
    assert Existing(db, x, now).value in db.usedIds;
  }

  /** Login as another user closes exactly the old binding and starts on one no session ever had. */
  lemma AccountSwitchClosesOldBinding(db: Db, x: LoginInput, now: Time)
    requires Inv(db, now) && Login(db, x, now).1.Some?
    requires Existing(db, x, now).Some? && db.sessions[Existing(db, x, now).value].user != x.user
    ensures var (after, binding) := Login(db, x, now);
      var left := db.sessions[Existing(db, x, now).value].binding;
      && BindingClosed(after, left, now)
      && (forall b :: b != left ==> BindingUntouched(db, after, b))
      && binding == Some(x.session) && x.session in after.sessions && after.sessions[x.session].binding == x.session
      && (forall s :: s in db.sessions ==> db.sessions[s].binding != x.session)
  {
    hide Inv, Existing, CloseSessions, SelectsFamily, SelectsAccess;
    SessionsAreOk(db, now);
    var previous := Existing(db, x, now).value;
    var left := db.sessions[previous].binding;
    var closed := CloseSessions(db, {previous}, now);
    var after := Login(db, x, now).0;
    assert after == InsertSession(closed, x, x.session, now);
    ClosingCloses(db, {previous}, left, now);
    forall b | b != left
      ensures BindingUntouched(db, after, b)
    {
      ClosingSparesOthers(db, {previous}, b, now);
    }
  }
}
