/**
 Authorization transactions and code issue (storage/postgres/authorization.go and the guarded
 statements of authflow.sql and consent.sql).
 */
module Authorization {
  import opened Schema
  import opened Tokens

  datatype AuthError =
    | AuthInvalid
    | AuthNotFound
    | AuthExpired
    | AuthConsumed
    | ConsentRequired
    | AuthInactive
    | AuthStorage

  datatype IssueInput = IssueInput(
    transaction: Id, expected: AuthRequest, user: Id, session: Id, binding: Id, authenticatedAt: Time,
    interactive: bool, code: Id, codeHash: Digest, proposedGrant: Id, expiresAt: Time)

  datatype IssueOutcome = CodeIssued(grant: Grant) | NotIssued(error: AuthError)

  /** validateIssueCommit; `now` is the commit's creation time. */
  predicate ValidIssue(x: IssueInput, now: Time) {
    && x.user != NIL && x.session != NIL && x.binding != NIL && x.code != NIL && x.proposedGrant != NIL
    && now != 0 && x.authenticatedAt != 0 && x.authenticatedAt <= now
    && now < x.expiresAt <= now + 5 * MINUTE
  }

  datatype Check = Pass | Fail(error: AuthError)

  /** validateLockedAuthorizationTransaction. */
  function CheckTransaction(row: AuthTransaction, expected: AuthRequest, now: Time): Check {
    if row.consumedAt.None? && row.expiresAt <= now then Fail(AuthExpired)
    else if row.consumedAt.Some? then Fail(if row.failure == Expired then AuthExpired else AuthConsumed)
    else if !row.request.isAuthorization || row.request.client.None? || row.request != expected then Fail(AuthInvalid)
    else Pass
  }

  /** lockAndValidateAuthorizationClient. */
  predicate ClientAdmits(db: Db, request: AuthRequest) {
    && request.client.Some?
    && request.client.value in db.clients
    && var c := db.clients[request.client.value];
       c.status == Active && ValidProfile(c) && request.redirectUri in c.redirectUris && request.scopes <= c.scopes
  }

  datatype Consented = Consent(grant: Grant, created: bool) | NoConsent(error: AuthError)

  /** lockAndApplyConsent: create, reactivate, reuse or expand the grant of a user and client. */
  function ApplyConsent(db: Db, key: GrantKey, requested: set<Scope>, x: IssueInput, now: Time): Consented
    requires key.client in db.clients
  {
    if key !in db.grants then
      if !x.interactive then NoConsent(ConsentRequired)
      else if x.proposedGrant in db.usedIds then NoConsent(AuthStorage)
      else Consent(Grant(x.proposedGrant, requested, now, now, None, 1), true)
    else
      var grant := db.grants[key];
      if OpenId !in grant.scopes || grant.version < 1 then NoConsent(AuthInvalid)
      else if grant.revokedAt.Some? then
        if !x.interactive then NoConsent(ConsentRequired)
        else
          Consent(grant.(scopes := requested, revokedAt := None, updatedAt := now, version := grant.version + 1), false)
      else if !x.interactive then
        if requested <= grant.scopes * db.clients[key.client].scopes then Consent(grant, false)
        else NoConsent(ConsentRequired)
      else if grant.scopes + requested == grant.scopes then Consent(grant, false)
      else Consent(grant.(scopes := grant.scopes + requested, updatedAt := now, version := grant.version + 1), false)
  }

  function NewCode(x: IssueInput, row: AuthTransaction, client: Id, grant: Grant, now: Time): Code {
    Code(x.codeHash, x.transaction, grant.id, grant.version, x.user, client, row.request.redirectUri,
         row.request.scopes, row.request.challenge, row.request.nonce, x.authenticatedAt, now, x.expiresAt, None,
         Some(x.session), Some(x.binding))
  }

  /** UNIQUE (auth_transaction_id) on authorization_codes. */
  predicate TransactionHasCode(codes: map<Id, Code>, transaction: Id) {
    exists c :: c in codes && codes[c].transaction == transaction
  }

  predicate CodeInsertable(db: Db, x: IssueInput, consent: Consented)
    requires consent.Consent?
  {
    && x.code !in db.usedIds
    && x.codeHash !in db.usedHashes
    && !TransactionHasCode(db.codes, x.transaction)
    && x.session in db.sessions
    && (consent.created ==> x.code != x.proposedGrant)
  }

  function StoreIssue(db: Db, x: IssueInput, client: Id, consent: Consented, now: Time): (after: Db)
    requires consent.Consent? && x.transaction in db.transactions
    ensures after.logouts == db.logouts && after.generations == db.generations
    ensures after.users == db.users && after.sessions == db.sessions
  {
    var row := db.transactions[x.transaction];
    db.(
      grants := db.grants[GrantKey(x.user, client) := consent.grant],
      codes := db.codes[x.code := NewCode(x, row, client, consent.grant, now)],
      transactions := db.transactions[x.transaction := row.(consumedAt := Some(now))],
      usedIds := db.usedIds + {x.code} + (if consent.created then {x.proposedGrant} else {}),
      usedHashes := db.usedHashes + {x.codeHash})
  }

  /** IssueAuthorizationCode. */
  function Issue(db: Db, x: IssueInput, now: Time): (r: (Db, IssueOutcome))
    ensures r.0.logouts == db.logouts && r.0.generations == db.generations
    ensures r.0.users == db.users && r.0.sessions == db.sessions
  {
    if !ValidIssue(x, now) then (db, NotIssued(AuthInvalid))
    else if x.transaction !in db.transactions then (db, NotIssued(AuthNotFound))
    else
      var row := db.transactions[x.transaction];
      var check := CheckTransaction(row, x.expected, now);
      if check.Fail? then (db, NotIssued(check.error))
      else if !UserActive(db, x.user) then (db, NotIssued(AuthInactive))
      else if !ClientAdmits(db, row.request) then (db, NotIssued(AuthInactive))
      else if OpenId !in row.request.scopes then (db, NotIssued(AuthInvalid))
      else
        var client := row.request.client.value;
        var consent := ApplyConsent(db, GrantKey(x.user, client), row.request.scopes, x, now);
        if consent.NoConsent? then (db, NotIssued(consent.error))
        else if !CodeInsertable(db, x, consent) then (db, NotIssued(AuthStorage))
        else (StoreIssue(db, x, client, consent, now), CodeIssued(consent.grant))
  }

  /** DenyAuthorization. */
  function Deny(db: Db, transaction: Id, expected: AuthRequest, user: Id, now: Time): (r: (Db, Check))
    ensures r.0.logouts == db.logouts && r.0.generations == db.generations
    ensures r.0.users == db.users && r.0.sessions == db.sessions
    ensures r.0.grants == db.grants
  {
    if user == NIL || transaction == NIL || now == 0 then (db, Fail(AuthInvalid))
    else if transaction !in db.transactions then (db, Fail(AuthNotFound))
    else
      var row := db.transactions[transaction];
      var check := CheckTransaction(row, expected, now);
      if check.Fail? then (db, check)
      else if !UserActive(db, user) then (db, Fail(AuthInactive))
      else if !ClientAdmits(db, row.request) then (db, Fail(AuthInactive))
      else
        var denied := row.(consumedAt := Some(now), failure := AccessDenied);
        (db.(transactions := db.transactions[transaction := denied]), Pass)
  }

  /** CreateAuthTransaction: a fresh, unconsumed row. */
  function Begin(db: Db, transaction: Id, request: AuthRequest, expiresAt: Time, now: Time): (after: Db)
    ensures after.logouts == db.logouts && after.generations == db.generations
    ensures after.users == db.users && after.sessions == db.sessions
    ensures after.grants == db.grants
  {
    if transaction in db.usedIds || request.tokenHash in db.usedHashes || expiresAt <= now then db
    else
      db.(transactions := db.transactions[transaction := AuthTransaction(request, now, expiresAt, None, NoFailure)],
          usedIds := db.usedIds + {transaction},
          usedHashes := db.usedHashes + {request.tokenHash})
  }

  /** ConsumeAuthTransaction and RejectAuthTransaction outside code issue, and the expiry sweep. */
  function Terminate(db: Db, transaction: Id, failure: Failure, now: Time): (after: Db)
    ensures after.logouts == db.logouts && after.generations == db.generations
    ensures after.users == db.users && after.sessions == db.sessions
    ensures after.grants == db.grants
  {
    if transaction in db.transactions && db.transactions[transaction].consumedAt.None? &&
       (failure == Expired <==> db.transactions[transaction].expiresAt <= now)
    then
      db.(transactions :=
            db.transactions[transaction := db.transactions[transaction].(consumedAt := Some(now), failure := failure)])
    else db
  }
}
