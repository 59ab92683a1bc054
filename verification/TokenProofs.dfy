/**
 Code exchange, rotation and token revocation keep the invariant.
 */
module TokenProofs {
  import opened Schema
  import opened TokenPolicy
  import opened Revocation
  import opened Tokens
  import opened Invariants
  import opened WithdrawalProofs

  // ----- Consuming a code -----

  function ConsumeCode(db: Db, id: Id, now: Time): Db
    requires id in db.codes
  {
    db.(codes := db.codes[id := db.codes[id].(consumedAt := Some(now))])
  }

  lemma ConsumeCodeFresh(db: Db, id: Id, now: Time)
    requires FreshOk(db) && id in db.codes
    ensures FreshOk(ConsumeCode(db, id, now))
  {
    hide GrantIdsFresh, BindingsFresh, GenerationHashesFresh, AccessHashesFresh, SessionHashesFresh, LogoutHashesFresh;
    assert ConsumeCode(db, id, now).codes.Keys == db.codes.Keys;
  }

  lemma ConsumeCodeOk(db: Db, id: Id, now: Time)
    requires id in db.codes
    requires CodesOk(db.codes, db.grants, now) && TransactionsOk(db.codes, db.transactions)
    ensures var codes := ConsumeCode(db, id, now).codes;
      CodesOk(codes, db.grants, now) && TransactionsOk(codes, db.transactions)
  {
    assert CodeOk(db.codes[id], now) && Fenced(db.codes[id], db.grants);
  }

  lemma ConsumeCodeLinks(db: Db, id: Id, now: Time)
    requires id in db.codes
    requires FamilyCodesOk(db.families, db.codes) && AccessCodesOk(db.accesses, db.codes)
    ensures var codes := ConsumeCode(db, id, now).codes;
      FamilyCodesOk(db.families, codes) && AccessCodesOk(db.accesses, codes)
  {
  }

  lemma ConsumeCodeStable(db: Db, id: Id, now: Time)
    requires id in db.codes && db.codes[id].consumedAt.None?
    ensures Stable(db, ConsumeCode(db, id, now))
  {
    hide UsersStable, ClientsStable, GrantsStable, TransactionsStable, FamiliesStable, GenerationsStable;
    hide AccessesStable, SessionsStable, LogoutsStable;
    StableReflexive(db);
  }

  lemma ConsumeCodeKeeps(db: Db, id: Id, now: Time)
    requires Inv(db, now) && id in db.codes && db.codes[id].consumedAt.None?
    ensures Inv(ConsumeCode(db, id, now), now) && Stable(db, ConsumeCode(db, id, now))
  {
    hide FreshOk, ClientsOk, GrantsOk, CodesOk, TransactionsOk, FamiliesOk, FamilyCodesOk, LiveFamiliesOk,
         GenerationsOk;
    hide ChainsOk, AccessesOk, AccessCodesOk, AccessFamiliesOk, AccessSourcesOk, LiveAccessesOk, SessionsOk, LogoutsOk;
    hide Stable;
    ConsumeCodeFresh(db, id, now);
    ConsumeCodeOk(db, id, now);
    ConsumeCodeLinks(db, id, now);
    ConsumeCodeStable(db, id, now);
  }

  /** No row descends from a code that is not consumed. */
  ghost predicate CodeUnused(db: Db, code: Id) {
    && (forall f :: f in db.families ==> db.families[f].originCode != Some(code))
    && (forall a :: a in db.accesses ==> db.accesses[a].code != Some(code))
  }

  lemma UnconsumedIsUnused(db: Db, id: Id, now: Time)
    requires Inv(db, now) && id in db.codes && db.codes[id].consumedAt.None?
    ensures CodeUnused(db, id)
  {
    hide FreshOk, ClientsOk, GrantsOk, CodesOk, TransactionsOk, FamiliesOk, LiveFamiliesOk, GenerationsOk;
    hide ChainsOk, AccessesOk, AccessFamiliesOk, AccessSourcesOk, LiveAccessesOk, SessionsOk, LogoutsOk;
  }

  // ----- A new family with its first generation -----

  function InsertFamily(db: Db, f: Id, family: Family, g: Id, first: Generation): Db {
    db.(families := db.families[f := family],
        generations := db.generations[g := first],
        usedIds := db.usedIds + {f, g},
        usedHashes := db.usedHashes + {first.hash})
  }

  ghost predicate NewFamilySafe(db: Db, f: Id, family: Family, g: Id, first: Generation, now: Time) {
    && f !in db.usedIds && g !in db.usedIds && f != g && first.hash !in db.usedHashes
    && FamilyOk(family, db.grants, now) && family.revokedAt.None?
    && FamilyAlive(family, db.users, db.clients, db.grants)
    && OfCode(family.originCode, family.grant, family.user, family.client, family.scopes, family.originSession,
              Some(family.binding), db.codes)
    && (family.originCode.Some? ==> CodeUnused(db, family.originCode.value))
    && first.family == f && first.number == 0 && first.consumedAt.None?
    && family.createdAt <= first.issuedAt <= now
    && first.issuedAt < first.expiresAt <= family.absoluteExpiresAt && first.expiresAt <= first.issuedAt + 30 * DAY
  }

  lemma InsertFamilyFresh(db: Db, f: Id, family: Family, g: Id, first: Generation)
    requires FreshOk(db) && f != NIL && g != NIL
    ensures FreshOk(InsertFamily(db, f, family, g, first))
  {
    hide GrantIdsFresh, BindingsFresh, CodeHashesFresh, AccessHashesFresh, SessionHashesFresh, LogoutHashesFresh;
    FreshGrows(db, db.usedIds + {f, g}, db.usedHashes + {first.hash});
    assert FreshOk(db.(usedIds := db.usedIds + {f, g}, usedHashes := db.usedHashes + {first.hash}));
  }

  lemma InsertFamilyOk(db: Db, f: Id, family: Family, now: Time)
    requires FamiliesOk(db.families, db.grants, now) && FamilyOk(family, db.grants, now)
    requires LiveFamiliesOk(db.families, db.users, db.clients, db.grants)
    requires FamilyAlive(family, db.users, db.clients, db.grants)
    ensures FamiliesOk(db.families[f := family], db.grants, now)
    ensures LiveFamiliesOk(db.families[f := family], db.users, db.clients, db.grants)
  {
    hide FamilyOk, FamilyAlive;
  }

  lemma InsertFamilyCodes(db: Db, f: Id, family: Family)
    requires FamilyCodesOk(db.families, db.codes) && f !in db.families
    requires OfCode(family.originCode, family.grant, family.user, family.client, family.scopes, family.originSession,
                    Some(family.binding), db.codes)
    requires forall h :: h in db.families && family.originCode.Some? ==> db.families[h].originCode != family.originCode
    ensures FamilyCodesOk(db.families[f := family], db.codes)
  {
    hide OfCode;
  }

  lemma InsertFamilyGenerations(db: Db, f: Id, family: Family, g: Id, first: Generation, now: Time)
    requires NewFamilySafe(db, f, family, g, first, now) && f !in db.families && g !in db.generations
    requires GenerationsOk(db.generations, db.families, now) && GenerationHashesFresh(db.generations, db.usedHashes)
    ensures GenerationsOk(db.generations[g := first], db.families[f := family], now)
  {
    hide FamilyOk, FamilyAlive, OfCode, CodeUnused;
    var generations, families := db.generations[g := first], db.families[f := family];
    forall h | h in generations
      ensures GenerationOk(generations[h], families, now)
      ensures h != g ==> generations[h].family != f
    {
      if h != g { assert GenerationOk(db.generations[h], db.families, now); }
    }
    forall h, k | h in generations && k in generations
      ensures Ordered(generations, h, k)
    {
      if h != g && k != g { assert Ordered(db.generations, h, k); }
    }
  }

  /** Adding a generation of a new family leaves every other family's head in place. */
  lemma HeadSurvives(generations: map<Id, Generation>, family: Id, g: Id, first: Generation)
    requires HasHead(generations, family) && g !in generations && first.family != family
    ensures HasHead(generations[g := first], family)
  {
    var head :| IsHead(generations, family, head);
    var after := generations[g := first];
    forall k | 0 <= k < generations[head].number
      ensures HasNumber(after, family, k)
    {
      assert HasNumber(generations, family, k);
      var h :| h in generations && generations[h].family == family && generations[h].number == k;
      assert after[h] == generations[h];
    }
    assert IsHead(after, family, head);
  }

  lemma InsertFamilyChains(db: Db, f: Id, family: Family, g: Id, first: Generation, now: Time)
    requires f !in db.families && g !in db.generations
    requires first.family == f && first.number == 0 && first.consumedAt.None?
    requires GenerationsOk(db.generations, db.families, now) && ChainsOk(db.families, db.generations, now)
    ensures ChainsOk(db.families[f := family], db.generations[g := first], now)
  {
    var generations := db.generations[g := first];
    assert forall h :: h in db.generations ==> GenerationOk(db.generations[h], db.families, now);
    assert IsHead(generations, f, g);
    forall h | h in db.families && db.families[h].absoluteExpiresAt > now && h != f
      ensures HasHead(generations, h)
    {
      HeadSurvives(db.generations, h, g, first);
    }
  }

  lemma InsertFamilyAccesses(db: Db, f: Id, family: Family, g: Id, first: Generation)
    requires f !in db.families && g !in db.generations
    requires AccessFamiliesOk(db.accesses, db.families) && AccessSourcesOk(db.accesses, db.generations)
    ensures AccessFamiliesOk(db.accesses, db.families[f := family])
    ensures AccessSourcesOk(db.accesses, db.generations[g := first])
  {
  }

  lemma InsertFamilyStable(db: Db, f: Id, family: Family, g: Id, first: Generation)
    requires f !in db.usedIds && g !in db.usedIds && first.hash !in db.usedHashes
    requires f !in db.families && g !in db.generations
    ensures Stable(db, InsertFamily(db, f, family, g, first))
  {
    hide UsersStable, ClientsStable, GrantsStable, TransactionsStable, CodesStable;
    hide AccessesStable, SessionsStable, LogoutsStable;
    StableReflexive(db);
  }

  lemma UnusedIsNew(db: Db, id: Id)
    requires FreshOk(db) && id !in db.usedIds
    ensures id != NIL && id !in db.families && id !in db.generations && id !in db.accesses
  {
  }

  lemma InsertFamilyKeeps(db: Db, f: Id, family: Family, g: Id, first: Generation, now: Time)
    requires Inv(db, now) && NewFamilySafe(db, f, family, g, first, now)
    ensures Inv(InsertFamily(db, f, family, g, first), now) && Stable(db, InsertFamily(db, f, family, g, first))
  {
    hide ClientsOk, GrantsOk, CodesOk, TransactionsOk, FamiliesOk, FamilyCodesOk, LiveFamiliesOk, GenerationsOk;
    hide ChainsOk, AccessesOk, AccessCodesOk, AccessFamiliesOk, AccessSourcesOk, LiveAccessesOk, SessionsOk, LogoutsOk;
    hide KeysFresh, GrantIdsFresh, BindingsFresh, CodeHashesFresh, GenerationHashesFresh, AccessHashesFresh;
    hide SessionHashesFresh, LogoutHashesFresh, Stable, FamilyOk, FamilyAlive, OfCode;
    UnusedIsNew(db, f);
    UnusedIsNew(db, g);
    InsertFamilyFresh(db, f, family, g, first);
    InsertFamilyOk(db, f, family, now);
    InsertFamilyCodes(db, f, family);
    InsertFamilyGenerations(db, f, family, g, first, now);
    InsertFamilyChains(db, f, family, g, first, now);
    InsertFamilyAccesses(db, f, family, g, first);
    InsertFamilyStable(db, f, family, g, first);
  }

  // ----- A new access row -----

  function InsertAccess(db: Db, id: Id, a: Access): Db {
    db.(accesses := db.accesses[id := a], usedIds := db.usedIds + {id}, usedHashes := db.usedHashes + {a.jtiHash})
  }

  ghost predicate NewAccessSafe(db: Db, id: Id, a: Access, now: Time) {
    && id !in db.usedIds && a.jtiHash !in db.usedHashes
    && AccessOk(a, db.grants, now)
    && AccessAlive(a, db.users, db.clients, db.grants)
    && OfItsFamily(a, db.families)
    && OfCode(a.code, a.grant, a.user, a.client, a.scopes, a.originSession, a.binding, db.codes)
    && (a.code.Some? ==> forall b :: b in db.accesses ==> db.accesses[b].code != a.code)
    && (a.sourceGeneration.Some? ==>
          && !SourceTaken(db.accesses, a.sourceGeneration.value)
          && a.sourceGeneration.value in db.generations
          && db.generations[a.sourceGeneration.value].consumedAt.Some?
          && a.family == Some(db.generations[a.sourceGeneration.value].family))
  }

  lemma InsertAccessFresh(db: Db, id: Id, a: Access)
    requires FreshOk(db) && id != NIL
    ensures FreshOk(InsertAccess(db, id, a))
  {
    hide GrantIdsFresh, BindingsFresh, CodeHashesFresh, GenerationHashesFresh, SessionHashesFresh, LogoutHashesFresh;
    FreshGrows(db, db.usedIds + {id}, db.usedHashes + {a.jtiHash});
    assert FreshOk(db.(usedIds := db.usedIds + {id}, usedHashes := db.usedHashes + {a.jtiHash}));
  }

  lemma InsertAccessOk(db: Db, id: Id, a: Access, now: Time)
    requires NewAccessSafe(db, id, a, now) && AccessHashesFresh(db.accesses, db.usedHashes)
    requires AccessesOk(db.accesses, db.grants, now) && AccessFamiliesOk(db.accesses, db.families)
    requires LiveAccessesOk(db.accesses, db.users, db.clients, db.grants, now)
    ensures AccessesOk(db.accesses[id := a], db.grants, now)
    ensures AccessFamiliesOk(db.accesses[id := a], db.families)
    ensures LiveAccessesOk(db.accesses[id := a], db.users, db.clients, db.grants, now)
  {
    hide AccessOk, AccessAlive, OfItsFamily, OfCode;
  }

  lemma InsertAccessLinks(db: Db, id: Id, a: Access, now: Time)
    requires NewAccessSafe(db, id, a, now)
    requires AccessCodesOk(db.accesses, db.codes) && AccessSourcesOk(db.accesses, db.generations)
    ensures AccessCodesOk(db.accesses[id := a], db.codes)
    ensures AccessSourcesOk(db.accesses[id := a], db.generations)
  {
    hide AccessOk, AccessAlive, OfItsFamily, OfCode;
  }

  lemma InsertAccessStable(db: Db, id: Id, a: Access)
    requires id !in db.usedIds && a.jtiHash !in db.usedHashes && id !in db.accesses
    ensures Stable(db, InsertAccess(db, id, a))
  {
    hide UsersStable, ClientsStable, GrantsStable, TransactionsStable, CodesStable, FamiliesStable, GenerationsStable;
    hide SessionsStable, LogoutsStable;
    StableReflexive(db);
  }

  lemma InsertAccessKeeps(db: Db, id: Id, a: Access, now: Time)
    requires Inv(db, now) && NewAccessSafe(db, id, a, now)
    ensures Inv(InsertAccess(db, id, a), now) && Stable(db, InsertAccess(db, id, a))
  {
    hide ClientsOk, GrantsOk, CodesOk, TransactionsOk, FamiliesOk, FamilyCodesOk, LiveFamiliesOk, GenerationsOk;
    hide ChainsOk, AccessesOk, AccessCodesOk, AccessFamiliesOk, AccessSourcesOk, LiveAccessesOk, SessionsOk, LogoutsOk;
    hide KeysFresh, GrantIdsFresh, BindingsFresh, CodeHashesFresh, GenerationHashesFresh, AccessHashesFresh;
    hide SessionHashesFresh, LogoutHashesFresh, Stable, AccessOk, AccessAlive, OfItsFamily, OfCode;
    UnusedIsNew(db, id);
    InsertAccessFresh(db, id, a);
    InsertAccessOk(db, id, a, now);
    InsertAccessLinks(db, id, a, now);
    InsertAccessStable(db, id, a);
  }

  // ----- Exchange -----

  lemma ExchangedFamilySafe(db: Db, id: Id, code: Code, m: Minted, x: ExchangeInput, now: Time)
    requires id in db.codes && db.codes[id] == code.(consumedAt := Some(now)) && CodeOk(code, now)
    requires CodeAuthorized(db, code, x, now) && ValidMinted(m, now, OfflineAccess in code.scopes) && MintedFresh(db, m)
    requires m.initial.Some? && CodeUnused(db, id)
    ensures code.binding.Some?
    ensures NewFamilySafe(db, m.initial.value.family, FamilyFromCode(id, code, m), m.initial.value.token,
                          FirstGeneration(m), now)
  {
    hide VerifyS256, DigestPresented;
  }

  lemma ExchangedAccessSafe(db: Db, id: Id, code: Code, m: Minted, x: ExchangeInput, now: Time)
    requires now > 0 && id in db.codes && db.codes[id] == code.(consumedAt := Some(now)) && CodeOk(code, now)
    requires CodeAuthorized(db, code, x, now) && ValidMinted(m, now, OfflineAccess in code.scopes)
    requires m.accessId !in db.usedIds && m.jtiHash !in db.usedHashes
    requires forall b :: b in db.accesses ==> db.accesses[b].code != Some(id)
    requires m.initial.Some? ==> code.binding.Some? && m.initial.value.family in db.families &&
                                 db.families[m.initial.value.family] == FamilyFromCode(id, code, m)
    ensures NewAccessSafe(db, m.accessId, AccessFromCode(id, code, m), now)
  {
    hide VerifyS256, DigestPresented;
  }

  lemma CodeRowOk(db: Db, id: Id, now: Time)
    requires Inv(db, now) && id in db.codes
    ensures CodeOk(db.codes[id], now)
  {
  }

  lemma ClockIsPositive(db: Db, now: Time)
    requires Inv(db, now)
    ensures now > 0
  {
  }

  lemma StoreExchangeKeeps(db: Db, id: Id, m: Minted, x: ExchangeInput, now: Time)
    requires Inv(db, now) && id in db.codes && db.codes[id].consumedAt.None? && CodeOk(db.codes[id], now)
    requires CodeAuthorized(db, db.codes[id], x, now)
    requires ValidMinted(m, now, OfflineAccess in db.codes[id].scopes) && MintedFresh(db, m)
    ensures Inv(StoreExchange(db, id, m, now), now) && Stable(db, StoreExchange(db, id, m, now))
  {
    hide Inv, Stable, VerifyS256, DigestPresented, NewFamilySafe, NewAccessSafe;
    var code := db.codes[id];
    var consumed := ConsumeCode(db, id, now);
    ClockIsPositive(db, now);
    ConsumeCodeKeeps(db, id, now);
    UnconsumedIsUnused(db, id, now);
    assert CodeUnused(consumed, id);
    assert CodeAuthorized(consumed, code, x, now);
    var access := AccessFromCode(id, code, m);
    if m.initial.None? {
      ExchangedAccessSafe(consumed, id, code, m, x, now);
      InsertAccessKeeps(consumed, m.accessId, access, now);
      assert InsertAccess(consumed, m.accessId, access) == StoreExchange(db, id, m, now);
      StableTransitive(db, consumed, StoreExchange(db, id, m, now), now);
    } else {
      var i := m.initial.value;
      ExchangedFamilySafe(consumed, id, code, m, x, now);
      var founded := InsertFamily(consumed, i.family, FamilyFromCode(id, code, m), i.token, FirstGeneration(m));
      InsertFamilyKeeps(consumed, i.family, FamilyFromCode(id, code, m), i.token, FirstGeneration(m), now);
      StableTransitive(db, consumed, founded, now);
      assert CodeAuthorized(founded, code, x, now);
      ExchangedAccessSafe(founded, id, code, m, x, now);
      InsertAccessKeeps(founded, m.accessId, access, now);
      assert InsertAccess(founded, m.accessId, access) == StoreExchange(db, id, m, now);
      StableTransitive(db, founded, StoreExchange(db, id, m, now), now);
    }
  }

  lemma ExchangeKeeps(db: Db, c: Config, x: ExchangeInput, d: CodeDraws, now: Time)
    requires Inv(db, now)
    ensures var after := Exchange(db, c, x, d, now).0; Inv(after, now) && Stable(db, after)
  {
    hide Inv, Stable, CodeAuthorized, Mint, ValidMinted, MintedFresh, StoreExchange;
    StableReflexive(db);
    var found := FindCode(db.codes, x.codeHash);
    if Exchange(db, c, x, d, now).1.Issued? {
      var id := found.value;
      CodeRowOk(db, id, now);
      var m := MintedFor(db, c, x, d, now);
      StoreExchangeKeeps(db, id, m, x, now);
    }
  }

  /** What a successful exchange minted. */
  lemma MintedFor(db: Db, c: Config, x: ExchangeInput, d: CodeDraws, now: Time) returns (m: Minted)
    requires Exchange(db, c, x, d, now).1.Issued?
    ensures var id := FindCode(db.codes, x.codeHash).value;
      && FindCode(db.codes, x.codeHash).Some? && db.codes[id].consumedAt.None?
      && CodeAuthorized(db, db.codes[id], x, now)
      && Mint(c, AuthorityOfCode(db, id, db.codes[id], now), d) == Ok(m)
      && ValidMinted(m, now, OfflineAccess in db.codes[id].scopes) && MintedFresh(db, m)
      && (m.initial.Some? ==> db.codes[id].binding.Some?)
      && Exchange(db, c, x, d, now) == (StoreExchange(db, id, m, now), Issued(CodeResponse(m, db.codes[id])))
  {
    hide VerifyS256, DigestPresented;
    var id := FindCode(db.codes, x.codeHash).value;
    m := Mint(c, AuthorityOfCode(db, id, db.codes[id], now), d).value;
  }

  // ----- Rotation -----

  function RotateGenerations(generations: map<Id, Generation>, g: Id, r: Id, next: Generation, now: Time)
    : map<Id, Generation>
    requires g in generations
  {
    generations[g := generations[g].(consumedAt := Some(now))][r := next]
  }

  ghost predicate RotationSafe(db: Db, g: Id, r: Id, next: Generation, now: Time) {
    && g in db.generations
    && var presented := db.generations[g];
       && presented.consumedAt.None? && presented.issuedAt <= now < presented.expiresAt
       && r !in db.usedIds && r != g && next.hash !in db.usedHashes
       && next.family == presented.family && next.number == presented.number + 1 && next.consumedAt.None?
       && presented.family in db.families
       && db.families[presented.family].createdAt <= next.issuedAt <= now
       && next.issuedAt < next.expiresAt <= db.families[presented.family].absoluteExpiresAt
       && next.expiresAt <= next.issuedAt + 30 * DAY
  }

  /** An unconsumed generation is the highest of its family. */
  lemma UnconsumedIsHighest(generations: map<Id, Generation>, families: map<Id, Family>, g: Id, h: Id, now: Time)
    requires GenerationsOk(generations, families, now)
    requires g in generations && generations[g].consumedAt.None?
    requires h in generations && generations[h].family == generations[g].family && h != g
    ensures generations[h].number < generations[g].number && generations[h].consumedAt.Some?
  {
    assert Ordered(generations, g, h) && Ordered(generations, h, g);
  }

  lemma RotateOrdered(db: Db, g: Id, r: Id, next: Generation, now: Time)
    requires RotationSafe(db, g, r, next, now) && r !in db.generations
    requires GenerationsOk(db.generations, db.families, now)
    ensures var after := RotateGenerations(db.generations, g, r, next, now);
      forall h, k :: h in after && k in after ==> Ordered(after, h, k)
  {
    var after := RotateGenerations(db.generations, g, r, next, now);
    forall h, k | h in after && k in after
      ensures Ordered(after, h, k)
    {
      if h in db.generations && k in db.generations {
        assert Ordered(db.generations, h, k);
      } else {
        if h in db.generations && h != g && db.generations[h].family == next.family {
          UnconsumedIsHighest(db.generations, db.families, g, h, now);
        }
        if k in db.generations && k != g && db.generations[k].family == next.family {
          UnconsumedIsHighest(db.generations, db.families, g, k, now);
        }
      }
    }
  }

  lemma RotateGenerationsOk(db: Db, g: Id, r: Id, next: Generation, now: Time)
    requires RotationSafe(db, g, r, next, now) && r !in db.generations
    requires GenerationsOk(db.generations, db.families, now) && GenerationHashesFresh(db.generations, db.usedHashes)
    ensures GenerationsOk(RotateGenerations(db.generations, g, r, next, now), db.families, now)
  {
    RotateOrdered(db, g, r, next, now);
    hide Ordered;
    var after := RotateGenerations(db.generations, g, r, next, now);
    forall h | h in after
      ensures GenerationOk(after[h], db.families, now)
    {
      if h in db.generations { assert GenerationOk(db.generations[h], db.families, now); }
    }
  }

  lemma RotateHead(db: Db, g: Id, r: Id, next: Generation, now: Time)
    requires RotationSafe(db, g, r, next, now) && r !in db.generations
    requires GenerationsOk(db.generations, db.families, now) && HasHead(db.generations, next.family)
    ensures IsHead(RotateGenerations(db.generations, g, r, next, now), next.family, r)
  {
    var after := RotateGenerations(db.generations, g, r, next, now);
    var f := next.family;
    var head :| IsHead(db.generations, f, head);
    if head != g { UnconsumedIsHighest(db.generations, db.families, head, g, now); }
    forall h | h in after && after[h].family == f && h != r
      ensures after[h].number < next.number
    {
      if h != g { UnconsumedIsHighest(db.generations, db.families, g, h, now); }
    }
    forall k | 0 <= k < next.number
      ensures HasNumber(after, f, k)
    {
      if k == next.number - 1 {
        assert after[g].family == f && after[g].number == k;
      } else {
        assert HasNumber(db.generations, f, k);
        var h :| h in db.generations && db.generations[h].family == f && db.generations[h].number == k;
        assert after[h].family == f && after[h].number == k;
      }
    }
  }

  lemma OtherHeads(generations: map<Id, Generation>, g: Id, r: Id, next: Generation, now: Time, family: Id)
    requires g in generations && r !in generations && generations[g].family != family && next.family != family
    requires HasHead(generations, family)
    ensures HasHead(RotateGenerations(generations, g, r, next, now), family)
  {
    var after := RotateGenerations(generations, g, r, next, now);
    var head :| IsHead(generations, family, head);
    forall k | 0 <= k < generations[head].number
      ensures HasNumber(after, family, k)
    {
      assert HasNumber(generations, family, k);
      var h :| h in generations && generations[h].family == family && generations[h].number == k;
      assert after[h].family == family && after[h].number == k;
    }
    assert IsHead(after, family, head);
  }

  lemma RotateChains(db: Db, g: Id, r: Id, next: Generation, now: Time)
    requires RotationSafe(db, g, r, next, now) && r !in db.generations
    requires GenerationsOk(db.generations, db.families, now) && ChainsOk(db.families, db.generations, now)
    ensures ChainsOk(db.families, RotateGenerations(db.generations, g, r, next, now), now)
  {
    var after := RotateGenerations(db.generations, g, r, next, now);
    forall f | f in db.families && db.families[f].absoluteExpiresAt > now
      ensures HasHead(after, f)
    {
      if f == next.family { RotateHead(db, g, r, next, now); } else { OtherHeads(db.generations, g, r, next, now, f); }
    }
  }

  function StoreSuccessor(db: Db, g: Id, r: Id, next: Generation, now: Time): Db
    requires g in db.generations
  {
    db.(generations := RotateGenerations(db.generations, g, r, next, now),
        usedIds := db.usedIds + {r}, usedHashes := db.usedHashes + {next.hash})
  }

  lemma StoreSuccessorFresh(db: Db, g: Id, r: Id, next: Generation, now: Time)
    requires FreshOk(db) && g in db.generations && r != NIL
    ensures FreshOk(StoreSuccessor(db, g, r, next, now))
  {
    hide GrantIdsFresh, BindingsFresh, CodeHashesFresh, AccessHashesFresh, SessionHashesFresh, LogoutHashesFresh;
    FreshGrows(db, db.usedIds + {r}, db.usedHashes + {next.hash});
    assert FreshOk(db.(usedIds := db.usedIds + {r}, usedHashes := db.usedHashes + {next.hash}));
  }

  lemma StoreSuccessorStable(db: Db, g: Id, r: Id, next: Generation, now: Time)
    requires RotationSafe(db, g, r, next, now) && r !in db.generations
    ensures Stable(db, StoreSuccessor(db, g, r, next, now))
  {
    hide UsersStable, ClientsStable, GrantsStable, TransactionsStable, CodesStable, FamiliesStable;
    hide AccessesStable, SessionsStable, LogoutsStable;
    StableReflexive(db);
  }

  lemma RotateSources(db: Db, g: Id, r: Id, next: Generation, now: Time)
    requires g in db.generations && r !in db.generations && AccessSourcesOk(db.accesses, db.generations)
    ensures AccessSourcesOk(db.accesses, RotateGenerations(db.generations, g, r, next, now))
  {
  }

  lemma StoreSuccessorKeeps(db: Db, g: Id, r: Id, next: Generation, now: Time)
    requires Inv(db, now) && RotationSafe(db, g, r, next, now)
    ensures Inv(StoreSuccessor(db, g, r, next, now), now) && Stable(db, StoreSuccessor(db, g, r, next, now))
  {
    hide ClientsOk, GrantsOk, CodesOk, TransactionsOk, FamiliesOk, FamilyCodesOk, LiveFamiliesOk, GenerationsOk;
    hide ChainsOk, AccessesOk, AccessCodesOk, AccessFamiliesOk, AccessSourcesOk, LiveAccessesOk, SessionsOk, LogoutsOk;
    hide KeysFresh, GrantIdsFresh, BindingsFresh, CodeHashesFresh, GenerationHashesFresh, AccessHashesFresh;
    hide SessionHashesFresh, LogoutHashesFresh, Stable, RotateGenerations;
    UnusedIsNew(db, r);
    StoreSuccessorFresh(db, g, r, next, now);
    RotateGenerationsOk(db, g, r, next, now);
    RotateChains(db, g, r, next, now);
    RotateSources(db, g, r, next, now);
    StoreSuccessorStable(db, g, r, next, now);
  }

  function Successor(db: Db, g: Id, m: RefreshMinted): Generation
    requires g in db.generations
  {
    Generation(db.generations[g].family, m.replacementHash, db.generations[g].number + 1, m.issuedAt,
               m.replacementExpiresAt, None)
  }

  /** What a successful refresh selected and minted. */
  lemma RotationOf(db: Db, c: Config, x: RefreshInput, d: RefreshDraws, now: Time)
    returns (g: Id, scopes: set<Scope>, m: RefreshMinted)
    requires Refresh(db, c, x, d, now).1.Rotated?
    ensures FindGeneration(db.generations, x.hash) == Some(g)
    ensures g in db.generations && db.generations[g].family in db.families
    ensures var presented := db.generations[g];
      var family := db.families[presented.family];
      && FamilyAuthorized(db, family, x.caller, now)
      && presented.consumedAt.None? && now < presented.expiresAt
      && SelectScopes(x.requested, family.scopes, db.grants[GrantKey(family.user, family.client)].scopes,
                      db.clients[family.client].scopes) == Ok(scopes)
      && MintRefresh(c, AuthorityOfRefresh(db, g, scopes, now), d) == Ok(m)
      && ValidRefreshMinted(m, g, presented, family, now)
      && RefreshMintedFresh(db, m, presented.family, g, presented.number + 1)
      && Refresh(db, c, x, d, now) == (StoreRotation(db, g, scopes, m, now), Rotated(RefreshResponse(m, scopes)))
  {
    g := FindGeneration(db.generations, x.hash).value;
    var family := db.families[db.generations[g].family];
    scopes := SelectScopes(x.requested, family.scopes, db.grants[GrantKey(family.user, family.client)].scopes,
                           db.clients[family.client].scopes).value;
    m := MintRefresh(c, AuthorityOfRefresh(db, g, scopes, now), d).value;
  }

  lemma GenerationRowOk(db: Db, g: Id, now: Time)
    requires Inv(db, now) && g in db.generations
    ensures GenerationOk(db.generations[g], db.families, now)
    ensures FamilyOk(db.families[db.generations[g].family], db.grants, now)
  {
    hide FreshOk, ClientsOk, GrantsOk, CodesOk, TransactionsOk, FamilyCodesOk, LiveFamiliesOk;
    hide ChainsOk, AccessesOk, AccessCodesOk, AccessFamiliesOk, AccessSourcesOk, LiveAccessesOk, SessionsOk, LogoutsOk;
    hide FamilyOk;
    assert GenerationOk(db.generations[g], db.families, now);
  }

  lemma RotatedAccessSafe(db: Db, g: Id, scopes: set<Scope>, m: RefreshMinted, caller: Caller, now: Time)
    requires g in db.generations && db.generations[g].consumedAt.Some? && db.generations[g].family in db.families
    requires var family := db.families[db.generations[g].family];
      && FamilyAuthorized(db, family, caller, now) && FamilyOk(family, db.grants, now)
      && OpenId in scopes && scopes <= family.scopes * db.grants[GrantKey(family.user, family.client)].scopes
    requires m.issuedAt == now && 0 < now < m.accessExpiresAt <= now + 30 * MINUTE
    requires m.accessId !in db.usedIds && m.jtiHash !in db.usedHashes && !SourceTaken(db.accesses, g)
    ensures var f := db.generations[g].family;
      NewAccessSafe(db, m.accessId, AccessFromRefresh(g, f, db.families[f], scopes, m), now)
  {
  }

  lemma StoreRotationKeeps(db: Db, g: Id, scopes: set<Scope>, m: RefreshMinted, caller: Caller, now: Time)
    requires Inv(db, now)
    requires g in db.generations && db.generations[g].family in db.families
    requires var presented := db.generations[g];
      var family := db.families[presented.family];
      && GenerationOk(presented, db.families, now) && FamilyOk(family, db.grants, now)
      && FamilyAuthorized(db, family, caller, now)
      && presented.consumedAt.None? && now < presented.expiresAt
      && OpenId in scopes && scopes <= family.scopes * db.grants[GrantKey(family.user, family.client)].scopes
      && ValidRefreshMinted(m, g, presented, family, now)
      && RefreshMintedFresh(db, m, presented.family, g, presented.number + 1)
    ensures Inv(StoreRotation(db, g, scopes, m, now), now) && Stable(db, StoreRotation(db, g, scopes, m, now))
  {
    hide Inv, Stable, DigestPresented, NewAccessSafe, NumberTaken, SourceTaken;
    ClockIsPositive(db, now);
    var next := Successor(db, g, m);
    var f := next.family;
    StoreSuccessorKeeps(db, g, m.replacement, next, now);
    var rotated := StoreSuccessor(db, g, m.replacement, next, now);
    assert FamilyAuthorized(rotated, db.families[f], caller, now);
    RotatedAccessSafe(rotated, g, scopes, m, caller, now);
    var access := AccessFromRefresh(g, f, db.families[f], scopes, m);
    InsertAccessKeeps(rotated, m.accessId, access, now);
    assert InsertAccess(rotated, m.accessId, access) == StoreRotation(db, g, scopes, m, now);
    StableTransitive(db, rotated, StoreRotation(db, g, scopes, m, now), now);
  }

  lemma RefreshKeeps(db: Db, c: Config, x: RefreshInput, d: RefreshDraws, now: Time)
    requires Inv(db, now)
    ensures var after := Refresh(db, c, x, d, now).0; Inv(after, now) && Stable(db, after)
  {
    hide Inv, Stable, FamilyAuthorized, SelectScopes, MintRefresh, ValidRefreshMinted, RefreshMintedFresh;
    hide StoreRotation, Cascade;
    StableReflexive(db);
    var result := Refresh(db, c, x, d, now);
    if result.1.Rotated? {
      var g, scopes, m := RotationOf(db, c, x, d, now);
      GenerationRowOk(db, g, now);
      StoreRotationKeeps(db, g, scopes, m, x.caller, now);
    } else if result.1.Reused? {
      CascadeKeeps(db, OfFamily(db.generations[FindGeneration(db.generations, x.hash).value].family), now);
    }
  }

  // ----- Client-requested revocation -----

  lemma RevokeOneAccess(db: Db, id: Id, now: Time)
    requires Inv(db, now) && id in db.accesses && db.accesses[id].revokedAt.None? && now < db.accesses[id].expiresAt
    ensures var after := db.(accesses := db.accesses[id := db.accesses[id].(revokedAt := Some(now))]);
      Inv(after, now) && Stable(db, after)
  {
    hide FreshOk, ClientsOk, GrantsOk, CodesOk, TransactionsOk, FamiliesOk, FamilyCodesOk, LiveFamiliesOk,
         GenerationsOk;
    hide ChainsOk, AccessesOk, AccessCodesOk, AccessFamiliesOk, AccessSourcesOk, LiveAccessesOk, SessionsOk, LogoutsOk;
    hide Stable;
    RevokeOneFresh(db, id, now);
    RevokeOneOk(db, id, now);
    RevokeOneLinks(db, id, now);
    RevokeOneStable(db, id, now);
  }

  lemma RevokeOneFresh(db: Db, id: Id, now: Time)
    requires FreshOk(db) && id in db.accesses
    ensures FreshOk(db.(accesses := db.accesses[id := db.accesses[id].(revokedAt := Some(now))]))
  {
    hide GrantIdsFresh, BindingsFresh, CodeHashesFresh, GenerationHashesFresh, SessionHashesFresh, LogoutHashesFresh;
  }

  lemma RevokeOneOk(db: Db, id: Id, now: Time)
    requires id in db.accesses && AccessesOk(db.accesses, db.grants, now) && AccessFamiliesOk(db.accesses, db.families)
    requires LiveAccessesOk(db.accesses, db.users, db.clients, db.grants, now)
    ensures var after := db.accesses[id := db.accesses[id].(revokedAt := Some(now))];
      && AccessesOk(after, db.grants, now) && AccessFamiliesOk(after, db.families)
      && LiveAccessesOk(after, db.users, db.clients, db.grants, now)
  {
    hide AccessAlive;
    assert AccessOk(db.accesses[id], db.grants, now) && OfItsFamily(db.accesses[id], db.families);
  }

  lemma RevokeOneLinks(db: Db, id: Id, now: Time)
    requires id in db.accesses && AccessCodesOk(db.accesses, db.codes) && AccessSourcesOk(db.accesses, db.generations)
    ensures var after := db.accesses[id := db.accesses[id].(revokedAt := Some(now))];
      AccessCodesOk(after, db.codes) && AccessSourcesOk(after, db.generations)
  {
    hide OfCode;
  }

  lemma RevokeOneStable(db: Db, id: Id, now: Time)
    requires id in db.accesses && db.accesses[id].revokedAt.None?
    ensures Stable(db, db.(accesses := db.accesses[id := db.accesses[id].(revokedAt := Some(now))]))
  {
    hide UsersStable, ClientsStable, GrantsStable, TransactionsStable, CodesStable, FamiliesStable, GenerationsStable;
    hide SessionsStable, LogoutsStable;
    StableReflexive(db);
  }

  lemma RevocationsKeep(db: Db, caller: Caller, hash: Digest, now: Time)
    requires Inv(db, now)
    ensures Inv(RevokeAccessToken(db, caller, hash, now), now) && Stable(db, RevokeAccessToken(db, caller, hash, now))
    ensures Inv(RevokeRefreshToken(db, caller, hash, now), now) && Stable(db, RevokeRefreshToken(db, caller, hash, now))
  {
    hide Inv, Stable, Cascade, RefreshRevocable;
    StableReflexive(db);
    var access := FindAccess(db.accesses, hash);
    if access.Some? && AccessRevocable(db, db.accesses[access.value], caller, now) {
      RevokeOneAccess(db, access.value, now);
    }
    var g := FindGeneration(db.generations, hash);
    if g.Some? {
      CascadeKeeps(db, OfFamily(db.generations[g.value].family), now);
    }
  }

  lemma RevokeTokenKeeps(db: Db, caller: Caller, jti: Option<Digest>, refresh: Option<Digest>, now: Time)
    requires Inv(db, now)
    ensures var after := RevokeToken(db, caller, jti, refresh, now); Inv(after, now) && Stable(db, after)
  {
    hide Inv, Stable, RevokeAccessToken, RevokeRefreshToken;
    StableReflexive(db);
    if jti.Some? { RevocationsKeep(db, caller, jti.value, now); }
    if refresh.Some? { RevocationsKeep(db, caller, refresh.value, now); }
  }
}
