/**
 Code issue, exactly: what it requires, the consent it records, the code it stores; and over whole
 runs, that a grant holds exactly the scopes consented to since it was last revoked.
 */
module ConsentExact {
  import opened Schema
  import opened Tokens
  import opened Authorization
  import opened Accounts
  import opened Invariants
  import opened Machine
  import Sessions
  import Logouts
  import Cleanup
  import Finality

  // ----- When a code is issued -----

  predicate WellTimed(x: IssueInput, now: Time) {
    && x.authenticatedAt != 0 && x.authenticatedAt <= now && now != 0
    && now < x.expiresAt <= now + 5 * MINUTE
    && NIL !in {x.user, x.session, x.binding, x.code, x.proposedGrant}
  }

  /** The authorization transaction is open, and the request decided on is the one it stores. */
  predicate OpenRequest(db: Db, x: IssueInput, now: Time) {
    && x.transaction in db.transactions
    && var row := db.transactions[x.transaction];
       && row.consumedAt.None? && now < row.expiresAt
       && row.request == x.expected && x.expected.isAuthorization && x.expected.client.Some?
  }

  /** User and client are active, and the client may be sent the request's scopes at its redirect URI. */
  predicate Admitted(db: Db, x: IssueInput) {
    && x.user in db.users && db.users[x.user].status == Active
    && x.expected.client.Some? && x.expected.client.value in db.clients
    && var client := db.clients[x.expected.client.value];
       && client.status == Active && (client.kind == Public <==> client.authMethod == NoAuth)
       && x.expected.redirectUri in client.redirectUris
       && OpenId in x.expected.scopes && x.expected.scopes <= client.scopes
  }

  function KeyOf(x: IssueInput): GrantKey
    requires x.expected.client.Some?
  {
    GrantKey(x.user, x.expected.client.value)
  }

  /** The user consents now, or an unrevoked consent already covers the request. */
  predicate Consents(db: Db, x: IssueInput)
    requires x.expected.client.Some?
  {
    var key := KeyOf(x);
    if key !in db.grants then x.interactive && x.proposedGrant !in db.usedIds
    else
      && OpenId in db.grants[key].scopes && db.grants[key].version >= 1
      && (x.interactive || (db.grants[key].revokedAt.None? && x.expected.scopes <= db.grants[key].scopes))
  }

  predicate Storable(db: Db, x: IssueInput)
    requires x.expected.client.Some?
  {
    && x.code !in db.usedIds && x.codeHash !in db.usedHashes && x.session in db.sessions
    && (forall c :: c in db.codes ==> db.codes[c].transaction != x.transaction)
    && (KeyOf(x) !in db.grants ==> x.code != x.proposedGrant)
  }

  /** A code is issued exactly then, in any state; otherwise nothing changes. */
  lemma IssuedExactly(db: Db, x: IssueInput, now: Time)
    ensures var (after, outcome) := Issue(db, x, now);
      && (outcome.CodeIssued? <==>
          WellTimed(x, now) && OpenRequest(db, x, now) && Admitted(db, x) && Consents(db, x) && Storable(db, x))
      && (!outcome.CodeIssued? ==> after == db)
  {
    hide StoreIssue;
    if WellTimed(x, now) && OpenRequest(db, x, now) && Admitted(db, x) {
      ConsentsExactly(db, x, now);
    }
  }

  lemma ConsentsExactly(db: Db, x: IssueInput, now: Time)
    requires Admitted(db, x)
    ensures var consent := ApplyConsent(db, KeyOf(x), x.expected.scopes, x, now);
      && (consent.Consent? <==> Consents(db, x))
      && (consent.Consent? ==> (CodeInsertable(db, x, consent) <==> Storable(db, x)))
  {
  }

  // ----- What is recorded -----

  /** The grant row an issued code leaves. */
  predicate Recorded(db: Db, x: IssueInput, now: Time, after: Grant)
    requires x.expected.client.Some?
  {
    var key, requested := KeyOf(x), x.expected.scopes;
    if key !in db.grants then
      x.interactive && after == Grant(x.proposedGrant, requested, now, now, None, 1)
    else
      var before := db.grants[key];
      if !x.interactive then after == before && before.revokedAt.None? && requested <= before.scopes
      else if before.revokedAt.Some? then
        after == Grant(before.id, requested, before.createdAt, now, None, before.version + 1)
      else if requested <= before.scopes then after == before
      else after == Grant(before.id, before.scopes + requested, before.createdAt, now, None, before.version + 1)
  }

  /**
   Consent is recorded exactly: a new or reactivated grant has the requested scopes and no others, an
   unrevoked one gains them, and without interaction the very same row is left, which already covered them.
   */
  lemma ConsentRecorded(db: Db, x: IssueInput, now: Time)
    requires Issue(db, x, now).1.CodeIssued?
    ensures x.expected.client.Some?
    ensures var (after, outcome) := Issue(db, x, now);
      && Recorded(db, x, now, outcome.grant)
      && after.grants == db.grants[KeyOf(x) := outcome.grant]
  {
    hide NewCode, ValidIssue, CodeInsertable, ApplyConsent, Recorded;
    IssuedExactly(db, x, now);
    AppliedIsRecorded(db, x, now);
  }

  lemma AppliedIsRecorded(db: Db, x: IssueInput, now: Time)
    requires Admitted(db, x)
    ensures var consent := ApplyConsent(db, KeyOf(x), x.expected.scopes, x, now);
      consent.Consent? ==> Recorded(db, x, now, consent.grant)
  {
    var key := KeyOf(x);
    if key in db.grants {
      var stored := db.grants[key].scopes;
      assert stored + x.expected.scopes == stored <==> x.expected.scopes <= stored;
    }
  }

  /** The code row repeats the request, names the grant at its version, and is good until the given instant. */
  lemma IssueWrites(db: Db, x: IssueInput, now: Time)
    requires Issue(db, x, now).1.CodeIssued?
    ensures x.expected.client.Some? && x.transaction in db.transactions
    ensures var (after, outcome) := Issue(db, x, now);
      && after.codes == db.codes[x.code :=
           Code(x.codeHash, x.transaction, outcome.grant.id, outcome.grant.version, x.user, x.expected.client.value,
                x.expected.redirectUri, x.expected.scopes, x.expected.challenge, x.expected.nonce, x.authenticatedAt,
                now, x.expiresAt, None, Some(x.session), Some(x.binding))]
      && after.transactions ==
         db.transactions[x.transaction := db.transactions[x.transaction].(consumedAt := Some(now))]
      && after.users == db.users && after.clients == db.clients && after.families == db.families
      && after.generations == db.generations && after.accesses == db.accesses && after.sessions == db.sessions
      && after.logouts == db.logouts
  {
    hide ValidIssue, CodeInsertable, ApplyConsent, ClientAdmits;
    IssuedExactly(db, x, now);
  }

  /** A denial closes the open transaction of an active user and an admitted request, and changes nothing else. */
  lemma DeniedExactly(db: Db, transaction: Id, expected: AuthRequest, user: Id, now: Time)
    ensures var (after, check) := Deny(db, transaction, expected, user, now);
      && (check.Pass? <==>
          && user != NIL && transaction != NIL && now != 0 && transaction in db.transactions
          && var row := db.transactions[transaction];
             && row.consumedAt.None? && now < row.expiresAt && row.request == expected && expected.isAuthorization
             && user in db.users && db.users[user].status == Active
             && expected.client.Some? && expected.client.value in db.clients
             && var client := db.clients[expected.client.value];
                && client.status == Active && (client.kind == Public <==> client.authMethod == NoAuth)
                && expected.redirectUri in client.redirectUris && expected.scopes <= client.scopes)
      && (check.Fail? ==> after == db)
      && (check.Pass? ==>
            after == db.(transactions := db.transactions[transaction :=
              AuthTransaction(expected, db.transactions[transaction].createdAt, db.transactions[transaction].expiresAt,
                              Some(now), AccessDenied)]))
  {
  }

  /** Beginning stores one open row under unused keys; ending retires one open row, as expired exactly once it is. */
  lemma BegunAndEnded(db: Db, id: Id, request: AuthRequest, failure: Failure, expiresAt: Time, now: Time)
    ensures var after := Begin(db, id, request, expiresAt, now);
      if id !in db.usedIds && request.tokenHash !in db.usedHashes && now < expiresAt then
        after == db.(transactions := db.transactions[id := AuthTransaction(request, now, expiresAt, None, NoFailure)],
                     usedIds := db.usedIds + {id}, usedHashes := db.usedHashes + {request.tokenHash})
      else after == db
    ensures var after := Terminate(db, id, failure, now);
      if id in db.transactions && db.transactions[id].consumedAt.None? &&
         (failure == Expired <==> db.transactions[id].expiresAt <= now)
      then
        var t := db.transactions[id];
        after == db.(transactions := db.transactions[id :=
          AuthTransaction(t.request, t.createdAt, t.expiresAt, Some(now), failure)])
      else after == db
  {
  }

  // ----- Consent over runs -----

  /** The scopes a user's consent to a client stands for now. */
  function Standing(grants: map<GrantKey, Grant>, key: GrantKey): set<Scope> {
    if key in grants && grants[key].revokedAt.None? then grants[key].scopes else {}
  }

  /** A revocation takes everything back; a code issued with interaction adds its request; nothing else counts. */
  ghost function HeldAfter(db: Db, e: Event, now: Time, key: GrantKey, held: set<Scope>): set<Scope> {
    if e.GrantRevoked? && GrantKey(e.user, e.client) == key then {}
    else if e.CodeRequested? && e.issue.interactive && Issue(db, e.issue, now).1.CodeIssued? &&
            e.issue.expected.client == Some(key.client) && e.issue.user == key.user
    then held + e.issue.expected.scopes
    else held
  }

  /** What the user has consented to along a run, since the last revocation. */
  ghost function ConsentedSince(s: Settings, at: State, ticks: seq<Tick>, key: GrantKey, held: set<Scope>): set<Scope>
    decreases |ticks|
  {
    if ticks == [] then held
    else
      var next := Step(s, at, ticks[0]);
      ConsentedSince(s, next, ticks[1..], key, HeldAfter(at.db, ticks[0].event, next.clock, key, held))
  }

  lemma OthersLeaveGrants(s: Settings, db: Db, e: Event, now: Time)
    requires !e.GrantRevoked? && !e.CodeRequested?
    ensures Apply(s, db, e, now).grants == db.grants
  {
    hide CreateUser, UpdateUser, CreateClient, UpdateClient, RevokeGrant, Begin, Terminate, Deny, Issue;
    hide Exchange, Refresh, RevokeToken, Sessions.Login, Sessions.Register, Sessions.Touch, Sessions.RevokeSession;
    hide Sessions.RevokeSessionByHash, Sessions.RevokeOthers, Sessions.RevokeAll, Logouts.Start, Logouts.Bind;
    hide Logouts.Complete, Clean;
    if e.Cleaned? { CleaningLeavesGrants(db, e.table, e.chosen, now - e.retention, now); }
  }

  lemma CleaningLeavesGrants(db: Db, table: Table, chosen: set<Id>, cutoff: Time, now: Time)
    ensures Clean(db, table, chosen, cutoff, now).grants == db.grants
  {
    hide Cleanup.DeleteCodes, Cleanup.DeleteAccesses, Cleanup.DeleteGenerations, Cleanup.DeleteFamilies;
    hide Cleanup.DeleteSessions, Cleanup.DeleteLogouts, Cleanup.DeleteTransactions;
  }

  lemma RevocationTakesAll(db: Db, user: Id, client: Id, key: GrantKey, now: Time)
    requires Inv(db, now)
    ensures Standing(RevokeGrant(db, user, client, now).grants, key) ==
            if GrantKey(user, client) == key then {} else Standing(db.grants, key)
  {
    hide Inv;
    if GrantKey(user, client) in db.grants { Finality.GrantOwnersExist(db, GrantKey(user, client), now); }
  }

  lemma IssueAdds(db: Db, x: IssueInput, key: GrantKey, now: Time)
    ensures var (after, outcome) := Issue(db, x, now);
      Standing(after.grants, key) ==
      if outcome.CodeIssued? && x.interactive && x.expected.client == Some(key.client) && x.user == key.user
      then Standing(db.grants, key) + x.expected.scopes else Standing(db.grants, key)
  {
    hide Issue, WellTimed, OpenRequest, Admitted, Consents, Storable;
    IssuedExactly(db, x, now);
    if Issue(db, x, now).1.CodeIssued? {
      ConsentRecorded(db, x, now);
      if KeyOf(x) == key && key in db.grants && db.grants[key].revokedAt.None? &&
         x.expected.scopes <= db.grants[key].scopes {
        assert db.grants[key].scopes + x.expected.scopes == db.grants[key].scopes;
      }
    }
  }

  lemma StandingStep(s: Settings, db: Db, e: Event, now: Time, key: GrantKey)
    requires Inv(db, now)
    ensures Standing(Apply(s, db, e, now).grants, key) == HeldAfter(db, e, now, key, Standing(db.grants, key))
  {
    hide Inv, RevokeGrant, Issue, Standing;
    if e.GrantRevoked? {
      RevocationTakesAll(db, e.user, e.client, key, now);
    } else if e.CodeRequested? {
      IssueAdds(db, e.issue, key, now);
    } else {
      hide Apply;
      OthersLeaveGrants(s, db, e, now);
    }
  }

  lemma {:induction false} StandingOverRuns(s: Settings, at: State, ticks: seq<Tick>, key: GrantKey)
    requires Good(at)
    ensures Standing(Run(s, at, ticks).db.grants, key) ==
            ConsentedSince(s, at, ticks, key, Standing(at.db.grants, key))
    decreases |ticks|
  {
    hide Inv, Stable, Apply, Standing, HeldAfter;
    if ticks != [] {
      var next := Step(s, at, ticks[0]);
      TimePasses(at.db, at.clock, next.clock);
      StandingStep(s, at.db, ticks[0].event, next.clock, key);
      TickKeeps(s, at, ticks[0]);
      StandingOverRuns(s, next, ticks[1..], key);
    }
  }

  /**
   In every reachable state a user's consent to a client stands for exactly the scopes of the requests the
   user agreed to since the last revocation: nothing is lost, added, or brought back by consenting again.
   */
  lemma ConsentIsWhatWasGiven(s: Settings, ticks: seq<Tick>, key: GrantKey)
    ensures Standing(Run(s, START, ticks).db.grants, key) == ConsentedSince(s, START, ticks, key, {})
  {
    hide Run, Inv, ConsentedSince;
    EmptyIsOk(1);
    StandingOverRuns(s, START, ticks, key);
  }
}
