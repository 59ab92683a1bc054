/**
 Authorization transactions and code issue keep the invariant; consent changes fence the
 codes of earlier versions.
 */
module IssueProofs {
  import opened Schema
  import opened Tokens
  import opened Authorization
  import opened Invariants
  import opened WithdrawalProofs

  // ----- Transactions -----

  lemma TransactionChangeKeeps(db: Db, id: Id, after: AuthTransaction, now: Time)
    requires Inv(db, now) && id in db.transactions && TransactionKept(db.transactions[id], after)
    ensures Inv(db.(transactions := db.transactions[id := after]), now)
    ensures Stable(db, db.(transactions := db.transactions[id := after]))
  {
    hide ClientsOk, GrantsOk, CodesOk, FamiliesOk, FamilyCodesOk, LiveFamiliesOk, GenerationsOk;
    hide ChainsOk, AccessesOk, AccessCodesOk, AccessFamiliesOk, AccessSourcesOk, LiveAccessesOk, SessionsOk, LogoutsOk;
    hide GrantIdsFresh, BindingsFresh, CodeHashesFresh, GenerationHashesFresh, AccessHashesFresh, SessionHashesFresh;
    hide LogoutHashesFresh, UsersStable, ClientsStable, GrantsStable, CodesStable, FamiliesStable, GenerationsStable;
    hide AccessesStable, SessionsStable, LogoutsStable;
    StableReflexive(db);
    assert db.transactions[id := after].Keys == db.transactions.Keys;
  }

  lemma DenyKeeps(db: Db, transaction: Id, expected: AuthRequest, user: Id, now: Time)
    requires Inv(db, now)
    ensures var after := Deny(db, transaction, expected, user, now).0; Inv(after, now) && Stable(db, after)
  {
    hide Inv, Stable;
    StableReflexive(db);
    if transaction in db.transactions && db.transactions[transaction].consumedAt.None? {
      TransactionChangeKeeps(
        db, transaction, db.transactions[transaction].(consumedAt := Some(now), failure := AccessDenied), now);
    }
  }

  lemma TerminateKeeps(db: Db, transaction: Id, failure: Failure, now: Time)
    requires Inv(db, now)
    ensures Inv(Terminate(db, transaction, failure, now), now) && Stable(db, Terminate(db, transaction, failure, now))
  {
    hide Inv, Stable;
    StableReflexive(db);
    if transaction in db.transactions && db.transactions[transaction].consumedAt.None? {
      TransactionChangeKeeps(
        db, transaction, db.transactions[transaction].(consumedAt := Some(now), failure := failure), now);
    }
  }

  lemma BeginFresh(db: Db, transaction: Id, request: AuthRequest, expiresAt: Time, now: Time)
    requires FreshOk(db)
    ensures FreshOk(Begin(db, transaction, request, expiresAt, now))
  {
    hide GrantIdsFresh, BindingsFresh, CodeHashesFresh, GenerationHashesFresh, AccessHashesFresh, SessionHashesFresh;
    hide LogoutHashesFresh;
    var ids, hashes := db.usedIds + {transaction}, db.usedHashes + {request.tokenHash};
    FreshGrows(db, ids, hashes);
    assert FreshOk(db.(usedIds := ids, usedHashes := hashes));
  }

  lemma BeginStable(db: Db, transaction: Id, request: AuthRequest, expiresAt: Time, now: Time)
    requires KeysFresh(db.transactions, db.usedIds)
    ensures Stable(db, Begin(db, transaction, request, expiresAt, now))
  {
    hide UsersStable, ClientsStable, GrantsStable, CodesStable, FamiliesStable, GenerationsStable;
    hide AccessesStable, SessionsStable, LogoutsStable;
    StableReflexive(db);
  }

  lemma BeginKeeps(db: Db, transaction: Id, request: AuthRequest, expiresAt: Time, now: Time)
    requires Inv(db, now)
    ensures var after := Begin(db, transaction, request, expiresAt, now); Inv(after, now) && Stable(db, after)
  {
    hide ClientsOk, GrantsOk, CodesOk, FamiliesOk, FamilyCodesOk, LiveFamiliesOk, GenerationsOk;
    hide ChainsOk, AccessesOk, AccessCodesOk, AccessFamiliesOk, AccessSourcesOk, LiveAccessesOk, SessionsOk, LogoutsOk;
    hide GrantIdsFresh, BindingsFresh, CodeHashesFresh, GenerationHashesFresh, AccessHashesFresh, SessionHashesFresh;
    hide LogoutHashesFresh, Stable;
    BeginFresh(db, transaction, request, expiresAt, now);
    BeginStable(db, transaction, request, expiresAt, now);
  }

  // ----- Grants -----

  lemma NewGrantFresh(db: Db, key: GrantKey, grant: Grant)
    requires FreshOk(db) && grant.id !in db.usedIds
    ensures FreshOk(db.(grants := db.grants[key := grant], usedIds := db.usedIds + {grant.id}))
  {
    hide BindingsFresh, CodeHashesFresh, GenerationHashesFresh, AccessHashesFresh, SessionHashesFresh,
         LogoutHashesFresh;
    FreshGrows(db, db.usedIds + {grant.id}, db.usedHashes);
    assert FreshOk(db.(usedIds := db.usedIds + {grant.id}));
  }

  ghost predicate NewGrantSafe(db: Db, key: GrantKey, grant: Grant) {
    && key !in db.grants && key.user in db.users && key.client in db.clients
    && grant.id !in db.usedIds && grant.version == 1 && OpenId in grant.scopes
  }

  lemma NewGrantCodes(db: Db, key: GrantKey, grant: Grant, now: Time)
    requires NewGrantSafe(db, key, grant) && FreshOk(db)
    requires GrantsOk(db.grants, db.users, db.clients) && CodesOk(db.codes, db.grants, now)
    ensures GrantsOk(db.grants[key := grant], db.users, db.clients) && CodesOk(db.codes, db.grants[key := grant], now)
  {
    hide KeysFresh, BindingsFresh, CodeHashesFresh, GenerationHashesFresh, AccessHashesFresh, SessionHashesFresh;
    hide LogoutHashesFresh;
    forall c | c in db.codes
      ensures Fenced(db.codes[c], db.grants[key := grant])
    {
      assert Fenced(db.codes[c], db.grants);
    }
  }

  lemma NewGrantFamilies(db: Db, key: GrantKey, grant: Grant, now: Time)
    requires key !in db.grants
    requires FamiliesOk(db.families, db.grants, now)
    requires LiveFamiliesOk(db.families, db.users, db.clients, db.grants)
    ensures FamiliesOk(db.families, db.grants[key := grant], now)
    ensures LiveFamiliesOk(db.families, db.users, db.clients, db.grants[key := grant])
  {
    forall f | f in db.families
      ensures FamilyOk(db.families[f], db.grants[key := grant], now)
    {
      assert FamilyOk(db.families[f], db.grants, now);
    }
  }

  lemma NewGrantAccesses(db: Db, key: GrantKey, grant: Grant, now: Time)
    requires key !in db.grants
    requires AccessesOk(db.accesses, db.grants, now)
    requires LiveAccessesOk(db.accesses, db.users, db.clients, db.grants, now)
    ensures AccessesOk(db.accesses, db.grants[key := grant], now)
    ensures LiveAccessesOk(db.accesses, db.users, db.clients, db.grants[key := grant], now)
  {
    forall a | a in db.accesses
      ensures AccessOk(db.accesses[a], db.grants[key := grant], now)
    {
      assert AccessOk(db.accesses[a], db.grants, now);
    }
  }

  lemma NewGrantStable(db: Db, key: GrantKey, grant: Grant)
    requires key !in db.grants
    ensures Stable(db, db.(grants := db.grants[key := grant], usedIds := db.usedIds + {grant.id}))
  {
    hide UsersStable, ClientsStable, TransactionsStable, CodesStable, FamiliesStable, GenerationsStable;
    hide AccessesStable, SessionsStable, LogoutsStable;
    StableReflexive(db);
  }

  lemma NewGrantKeeps(db: Db, key: GrantKey, grant: Grant, now: Time)
    requires Inv(db, now) && NewGrantSafe(db, key, grant)
    ensures var after := db.(grants := db.grants[key := grant], usedIds := db.usedIds + {grant.id});
      Inv(after, now) && Stable(db, after)
  {
    hide FreshOk, ClientsOk, GrantsOk, CodesOk, TransactionsOk, FamiliesOk, FamilyCodesOk, LiveFamiliesOk,
         GenerationsOk;
    hide ChainsOk, AccessesOk, AccessCodesOk, AccessFamiliesOk, AccessSourcesOk, LiveAccessesOk, SessionsOk, LogoutsOk;
    hide Stable;
    NewGrantFresh(db, key, grant);
    NewGrantCodes(db, key, grant, now);
    NewGrantFamilies(db, key, grant, now);
    NewGrantAccesses(db, key, grant, now);
    NewGrantStable(db, key, grant);
  }

  // ----- Codes -----

  ghost predicate NewCodeSafe(db: Db, id: Id, code: Code, now: Time) {
    && id !in db.usedIds && code.hash !in db.usedHashes
    && CodeOk(code, now) && Fenced(code, db.grants)
    && code.transaction in db.transactions && db.transactions[code.transaction].consumedAt.Some?
    && !TransactionHasCode(db.codes, code.transaction)
  }

  function InsertCode(db: Db, id: Id, code: Code): Db {
    db.(codes := db.codes[id := code], usedIds := db.usedIds + {id}, usedHashes := db.usedHashes + {code.hash})
  }

  lemma InsertCodeFresh(db: Db, id: Id, code: Code)
    requires FreshOk(db) && id != NIL
    ensures FreshOk(InsertCode(db, id, code))
  {
    hide GrantIdsFresh, BindingsFresh, GenerationHashesFresh, AccessHashesFresh, SessionHashesFresh, LogoutHashesFresh;
    FreshGrows(db, db.usedIds + {id}, db.usedHashes + {code.hash});
    assert FreshOk(db.(usedIds := db.usedIds + {id}, usedHashes := db.usedHashes + {code.hash}));
  }

  lemma InsertCodeOk(db: Db, id: Id, code: Code, now: Time)
    requires FreshOk(db) && NewCodeSafe(db, id, code, now)
    requires CodesOk(db.codes, db.grants, now) && TransactionsOk(db.codes, db.transactions)
    ensures CodesOk(db.codes[id := code], db.grants, now) && TransactionsOk(db.codes[id := code], db.transactions)
  {
    hide CodeOk, Fenced, GrantIdsFresh, BindingsFresh, GenerationHashesFresh, AccessHashesFresh, SessionHashesFresh;
    hide LogoutHashesFresh;
    assert id !in db.codes;
  }

  lemma InsertCodeLinks(db: Db, id: Id, code: Code)
    requires id !in db.codes
    requires FamilyCodesOk(db.families, db.codes) && AccessCodesOk(db.accesses, db.codes)
    ensures FamilyCodesOk(db.families, db.codes[id := code]) && AccessCodesOk(db.accesses, db.codes[id := code])
  {
  }

  lemma InsertCodeStable(db: Db, id: Id, code: Code)
    requires id !in db.usedIds && code.hash !in db.usedHashes && id !in db.codes
    ensures Stable(db, InsertCode(db, id, code))
  {
    hide UsersStable, ClientsStable, GrantsStable, TransactionsStable, FamiliesStable, GenerationsStable;
    hide AccessesStable, SessionsStable, LogoutsStable;
    StableReflexive(db);
  }

  lemma UnusedIsNoCode(db: Db, id: Id)
    requires FreshOk(db) && id !in db.usedIds
    ensures id !in db.codes && id != NIL
  {
  }

  lemma InsertCodeKeeps(db: Db, id: Id, code: Code, now: Time)
    requires Inv(db, now) && NewCodeSafe(db, id, code, now)
    ensures Inv(InsertCode(db, id, code), now) && Stable(db, InsertCode(db, id, code))
  {
    hide FreshOk, ClientsOk, GrantsOk, CodesOk, TransactionsOk, FamiliesOk, FamilyCodesOk, LiveFamiliesOk,
         GenerationsOk;
    hide ChainsOk, AccessesOk, AccessCodesOk, AccessFamiliesOk, AccessSourcesOk, LiveAccessesOk, SessionsOk, LogoutsOk;
    hide Stable, CodeOk, Fenced;
    UnusedIsNoCode(db, id);
    InsertCodeFresh(db, id, code);
    InsertCodeOk(db, id, code, now);
    InsertCodeLinks(db, id, code);
    InsertCodeStable(db, id, code);
  }

  // ----- Issue -----

  /** The state once consent is recorded. */
  function WithConsent(db: Db, key: GrantKey, x: IssueInput, consent: Consented): Db
    requires consent.Consent?
  {
    db.(grants := db.grants[key := consent.grant],
        usedIds := db.usedIds + (if consent.created then {x.proposedGrant} else {}))
  }

  /** Recording consent keeps the invariant, and the resulting grant admits the requested scopes. */
  lemma ConsentKeeps(db: Db, key: GrantKey, requested: set<Scope>, x: IssueInput, now: Time)
    requires Inv(db, now) && key.user in db.users && key.client in db.clients && OpenId in requested
    requires ApplyConsent(db, key, requested, x, now).Consent?
    ensures var consent := ApplyConsent(db, key, requested, x, now);
      && Inv(WithConsent(db, key, x, consent), now)
      && Stable(db, WithConsent(db, key, x, consent))
      && requested <= consent.grant.scopes && consent.grant.revokedAt.None? && consent.grant.version >= 1
  {
    hide Inv, Stable;
    var consent := ApplyConsent(db, key, requested, x, now);
    var after := WithConsent(db, key, x, consent);
    if consent.created {
      NewGrantKeeps(db, key, consent.grant, now);
    } else if consent.grant == db.grants[key] {
      assert after == db;
      StableReflexive(db);
    } else {
      if db.grants[key].revokedAt.Some? { RevokedGrantIsEmpty(db, key, now); }
      GrantChangeKeeps(db, key, consent.grant, now);
      assert after == db.(grants := db.grants[key := consent.grant]);
    }
  }

  lemma IssueKeeps(db: Db, x: IssueInput, now: Time)
    requires Inv(db, now)
    ensures Inv(Issue(db, x, now).0, now) && Stable(db, Issue(db, x, now).0)
  {
    hide Inv, Stable, ApplyConsent, ClientAdmits, VerifyS256;
    StableReflexive(db);
    if Issue(db, x, now).1.CodeIssued? {
      IssuedKeeps(db, x, now);
    }
  }

  lemma IssuedKeeps(db: Db, x: IssueInput, now: Time)
    requires Inv(db, now) && Issue(db, x, now).1.CodeIssued?
    ensures Inv(Issue(db, x, now).0, now) && Stable(db, Issue(db, x, now).0)
  {
    hide Inv, Stable, ApplyConsent;
    var row := db.transactions[x.transaction];
    var client := row.request.client.value;
    var key := GrantKey(x.user, client);
    var consent := ApplyConsent(db, key, row.request.scopes, x, now);
    ConsentKeeps(db, key, row.request.scopes, x, now);
    var agreed := WithConsent(db, key, x, consent);
    var consumed := agreed.(transactions := agreed.transactions[x.transaction := row.(consumedAt := Some(now))]);
    TransactionChangeKeeps(agreed, x.transaction, row.(consumedAt := Some(now)), now);
    StableTransitive(db, agreed, consumed, now);
    var code := NewCode(x, row, client, consent.grant, now);
    InsertCodeKeeps(consumed, x.code, code, now);
    assert InsertCode(consumed, x.code, code) == Issue(db, x, now).0;
    StableTransitive(db, consumed, Issue(db, x, now).0, now);
  }
}
