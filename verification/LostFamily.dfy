/**
 One run from the empty database in which a live refresh family is lost to the session its user
 had already replaced by logging in again.
 */
module LostFamily {
  import opened Schema
  import opened TokenPolicy
  import opened Tokens
  import opened Sessions
  import opened Accounts
  import opened Authorization
  import opened Invariants
  import opened Machine
  import opened Finality
  import RoundTrips
  import TokenProofs
  import BindingFinality

  const OWNER: Id := 1
  const APP: Id := 2
  const FIRST: Id := 3
  const REQUESTED: Id := 4
  const CODE: Id := 5
  const CONSENT: Id := 6
  const ACCESS: Id := 7
  const FAMILY: Id := 8
  const TOKEN: Id := 9
  const SECOND_SESSION: Id := 10

  const URI: string := "https://app.example/callback"
  const OFFLINE: set<Scope> := {OpenId, OfflineAccess}
  const APP_ROW: Client := Client("app", Public, NoAuth, Active, {URI}, OFFLINE, 1)
  const OWNER_ROW: User := User("owner", Active, Member, 1)
  const VERIFIER: string := "0123456789012345678901234567890123456789012"
  const REQUEST: AuthRequest :=
    AuthRequest(true, Some(APP), Sha256("request"), URI, OFFLINE, Sha256(VERIFIER), "", "", "")
  const LOGIN: LoginInput := LoginInput(OWNER, FIRST, Sha256("first"), DAY, DAY, None)
  const RELOGIN: LoginInput := LoginInput(OWNER, SECOND_SESSION, Sha256("second"), DAY, DAY, Some(Sha256("first")))
  const ISSUE: IssueInput :=
    IssueInput(REQUESTED, REQUEST, OWNER, FIRST, FIRST, 1, true, CODE, Sha256("code"), CONSENT, MINUTE)
  const REDEEM: ExchangeInput := ExchangeInput(Sha256("code"), Caller(APP, APP_ROW), URI, VERIFIER)
  const DRAWS: CodeDraws := CodeDraws("jti", ACCESS, seq(32, i => 0), FAMILY, TOKEN)

  /** A user registers an app, logs in and authorizes it for offline access. */
  const SETUP: seq<Tick> := [
    Tick(0, UserCreated(OWNER, OWNER_ROW)), Tick(0, ClientCreated(APP, APP_ROW)), Tick(0, LoggedIn(LOGIN)),
    Tick(0, AuthorizationBegun(REQUESTED, REQUEST, MINUTE)), Tick(0, CodeRequested(ISSUE)),
    Tick(0, CodeExchanged(REDEEM, DRAWS))]

  lemma RunOfSix(s: Settings, at: State, t: seq<Tick>)
    requires |t| == 6
    ensures Run(s, at, t) ==
            Step(s, Step(s, Step(s, Step(s, Step(s, Step(s, at, t[0]), t[1]), t[2]), t[3]), t[4]), t[5])
  {
    hide Step;
    assert t == [t[0]] + ([t[1]] + ([t[2]] + ([t[3]] + ([t[4]] + ([t[5]] + [])))));
    var a := Step(s, at, t[0]);
    RunHead(s, at, t[0], [t[1]] + ([t[2]] + ([t[3]] + ([t[4]] + ([t[5]] + [])))));
    RunHead(s, a, t[1], [t[2]] + ([t[3]] + ([t[4]] + ([t[5]] + []))));
    var b := Step(s, a, t[1]);
    RunHead(s, b, t[2], [t[3]] + ([t[4]] + ([t[5]] + [])));
    var c := Step(s, b, t[2]);
    RunHead(s, c, t[3], [t[4]] + ([t[5]] + []));
    RunHead(s, Step(s, c, t[3]), t[4], [t[5]] + []);
    RunHead(s, Step(s, Step(s, c, t[3]), t[4]), t[5], []);
  }

  // ----- Up to the authorization request -----

  const CREATED: Db := EMPTY.(users := map[OWNER := OWNER_ROW], usedIds := {NIL, OWNER})
  const EQUIPPED: Db := CREATED.(clients := map[APP := APP_ROW], usedIds := {NIL, OWNER, APP})
  const LOGGED_IN: Db := EQUIPPED.(
    sessions := map[FIRST := Session(OWNER, FIRST, Sha256("first"), 1, DAY, DAY, None)],
    usedIds := {NIL, OWNER, APP, FIRST}, usedHashes := {Sha256("first")})
  const READY: Db := LOGGED_IN.(
    transactions := map[REQUESTED := AuthTransaction(REQUEST, 1, MINUTE, None, NoFailure)],
    usedIds := {NIL, OWNER, APP, FIRST, REQUESTED}, usedHashes := {Sha256("first"), Sha256("request")})

  lemma FirstSteps()
    ensures CreateUser(EMPTY, OWNER, OWNER_ROW) == CREATED
    ensures CreateClient(CREATED, APP, APP_ROW) == EQUIPPED
  {
  }

  lemma FirstLogin()
    ensures Login(EQUIPPED, LOGIN, 1).0 == LOGGED_IN
  {
    hide CloseSessions;
  }

  lemma RequestBegins()
    ensures Begin(LOGGED_IN, REQUESTED, REQUEST, MINUTE, 1) == READY
  {
  }

  // ----- Code and tokens -----

  const GRANT: Grant := Grant(CONSENT, OFFLINE, 1, 1, None, 1)
  const ISSUED: Db := READY.(
    grants := map[GrantKey(OWNER, APP) := GRANT],
    codes := map[CODE := Code(Sha256("code"), REQUESTED, CONSENT, 1, OWNER, APP, URI, OFFLINE, Sha256(VERIFIER), "",
                              1, 1, MINUTE, None, Some(FIRST), Some(FIRST))],
    transactions := map[REQUESTED := AuthTransaction(REQUEST, 1, MINUTE, Some(1), NoFailure)],
    usedIds := {NIL, OWNER, APP, FIRST, REQUESTED, CODE, CONSENT},
    usedHashes := {Sha256("first"), Sha256("request"), Sha256("code")})

  lemma ConsentGiven()
    ensures ApplyConsent(READY, GrantKey(OWNER, APP), OFFLINE, ISSUE, 1) == Consent(GRANT, true)
  {
  }

  lemma CodeIsIssued()
    ensures Issue(READY, ISSUE, 1) == (ISSUED, CodeIssued(GRANT))
  {
    hide ApplyConsent;
    ConsentGiven();
    assert CodeInsertable(READY, ISSUE, Consent(GRANT, true));
    assert StoreIssue(READY, ISSUE, APP, Consent(GRANT, true), 1) == ISSUED;
  }

  lemma DrawsAreFresh()
    ensures RoundTrips.FreshCodeDraws(ISSUED, DRAWS)
  {
    hide RefreshToken;
    var clear := RefreshToken(DRAWS.raw);
    assert |"oneissuer:refresh-token:v1:" + clear| > 7 && |"oneissuer:access-token-jti:v1:jti"| > 7;
  }

  lemma MintedRows(c: Config, a: CodeAuthority, d: CodeDraws)
    requires Mint(c, a, d).Ok? && OfflineAccess in a.scopes
    ensures var m := Mint(c, a, d).value;
      && m.accessId == d.accessId && m.jtiHash == HashJti(d.jti) && m.initial.Some?
      && m.initial.value.family == d.family && m.initial.value.token == d.token
      && m.initial.value.hash == HashRefresh(RefreshToken(d.raw))
  {
    hide HashJti, HashRefresh, RefreshToken, ClaimsFor;
  }

  lemma StoredRows(m: Minted)
    requires m.accessId == ACCESS && m.jtiHash == HashJti("jti") && m.initial.Some?
    requires m.initial.value.family == FAMILY && m.initial.value.token == TOKEN
    requires m.initial.value.hash == HashRefresh(RefreshToken(DRAWS.raw))
    ensures var after := StoreExchange(ISSUED, CODE, m, 1);
      && after.sessions == READY.sessions && after.users == READY.users
      && SECOND_SESSION !in after.usedIds && Sha256("second") !in after.usedHashes
      && FAMILY in after.families && after.families[FAMILY].revokedAt.None? && after.families[FAMILY].binding == FIRST
      && after.families[FAMILY].absoluteExpiresAt == m.initial.value.absoluteExpiresAt
  {
    hide RefreshToken;
    var clear := RefreshToken(DRAWS.raw);
    assert |"oneissuer:refresh-token:v1:" + clear| > 7 && |"oneissuer:access-token-jti:v1:jti"| > 7;
  }

  /** The state SETUP ends in. */
  ghost predicate Authorized(db: Db) {
    && db.sessions == READY.sessions && db.users == READY.users
    && SECOND_SESSION !in db.usedIds && Sha256("second") !in db.usedHashes
    && FAMILY in db.families && db.families[FAMILY].revokedAt.None? && db.families[FAMILY].binding == FIRST
    && 1 < db.families[FAMILY].absoluteExpiresAt
  }

  lemma CodeIsExchanged(c: Config)
    requires ValidConfig(c) && Inv(READY, 1)
    ensures Authorized(Exchange(ISSUED, c, REDEEM, DRAWS, 1).0)
  {
    hide Inv, Exchange, VerifyS256, Mint, StoreExchange, MintedFresh, ValidConfig, Issue, HashJti, RefreshToken;
    CodeIsIssued();
    DrawsAreFresh();
    VerifierAccepted();
    RoundTrips.IssuedCodeExchanges(READY, c, ISSUE, REDEEM, DRAWS, 1);
    var m := TokenProofs.MintedFor(ISSUED, c, REDEEM, DRAWS, 1);
    MintedRows(c, AuthorityOfCode(ISSUED, CODE, ISSUED.codes[CODE], 1), DRAWS);
    StoredRows(m);
  }

  lemma VerifierAccepted()
    ensures VerifyS256(VERIFIER, Sha256(VERIFIER))
  {
    assert |VERIFIER| == 43;
  }

  lemma SetUp(s: Settings)
    requires ValidConfig(s.config)
    ensures Run(s, START, SETUP).clock == 1 && Authorized(Run(s, START, SETUP).db)
  {
    hide Exchange, Issue, Login, Begin, CreateUser, CreateClient, Run, Inv, ValidConfig, Authorized;
    RunOfSix(s, START, SETUP);
    FirstSteps();
    FirstLogin();
    RequestBegins();
    CodeIsIssued();
    ReachesReady(s);
    CodeIsExchanged(s.config);
  }

  lemma ReachesReady(s: Settings)
    ensures Inv(READY, 1)
  {
    hide Login, Begin, CreateUser, CreateClient, Inv, Stable, Exchange, Issue;
    FirstSteps();
    FirstLogin();
    RequestBegins();
    EmptyIsOk(1);
    StepKeeps(s, EMPTY, UserCreated(OWNER, OWNER_ROW), 1);
    StepKeeps(s, CREATED, ClientCreated(APP, APP_ROW), 1);
    StepKeeps(s, EQUIPPED, LoggedIn(LOGIN), 1);
    StepKeeps(s, LOGGED_IN, AuthorizationBegun(REQUESTED, REQUEST, MINUTE), 1);
  }

  // ----- The loss -----

  lemma ReloginRotates(db: Db)
    requires Authorized(db)
    ensures Login(db, RELOGIN, 1).1.Some? && Existing(db, RELOGIN, 1) == Some(FIRST)
  {
    hide CloseSessions;
    assert FIRST in db.sessions && db.sessions[FIRST].tokenHash == Sha256("first");
    var found := FindSession(db.sessions, Sha256("first"));
    assert found.Some? && found.value == FIRST;
  }

  lemma NewSessionOpen(db: Db)
    requires Authorized(db)
    ensures var after := Login(db, RELOGIN, 1).0;
      SECOND_SESSION in after.sessions && after.sessions[SECOND_SESSION].revokedAt.None?
  {
    hide CloseSessions, Existing;
    ReloginRotates(db);
  }

  lemma RunNothing(s: Settings, at: State)
    ensures Run(s, at, []) == at
  {
  }

  /**
   The family is live until its user has logged in again; when the replaced session then revokes the
   others, at whatever later time, the family is revoked.
   */
  lemma LiveFamilyIsLost(s: Settings, wait: nat)
    requires ValidConfig(s.config)
    ensures var relogged := Run(s, START, SETUP + [Tick(0, LoggedIn(RELOGIN))]);
      var lost := Step(s, relogged, Tick(wait, OtherSessionsRevoked(OWNER, FIRST)));
      && FAMILY in relogged.db.families && relogged.db.families[FAMILY].revokedAt.None?
      && relogged.clock < relogged.db.families[FAMILY].absoluteExpiresAt
      && FAMILY in lost.db.families && lost.db.families[FAMILY].revokedAt.Some?
  {
    hide Run, Inv, ValidConfig, Login, RevokeOthers, NoneAccepted, Existing;
    var at := Run(s, START, SETUP);
    var relogged := Step(s, at, Tick(0, LoggedIn(RELOGIN)));
    SetUp(s);
    ReachableIsGood(s, SETUP);
    RunAppend(s, START, SETUP, Tick(0, LoggedIn(RELOGIN)));
    ReloginRotates(at.db);
    RunNothing(s, relogged);
    NewSessionOpen(at.db);
    BindingFinality.ReplacedSessionEndsFamilies(s, at, RELOGIN, FIRST, [], wait, []);
    var lost := Step(s, relogged, Tick(wait, OtherSessionsRevoked(OWNER, FIRST)));
    SameBinding(relogged.db, lost.db, OWNER, FIRST, 1 + wait);
  }

  lemma SameBinding(db: Db, after: Db, user: Id, current: Id, now: Time)
    requires after == RevokeOthers(db, user, current, now) && FAMILY in db.families
    ensures FAMILY in after.families && after.families[FAMILY].binding == db.families[FAMILY].binding
  {
  }

  lemma {:induction false} RunAppend(s: Settings, at: State, ticks: seq<Tick>, tick: Tick)
    ensures Run(s, at, ticks + [tick]) == Step(s, Run(s, at, ticks), tick)
    decreases |ticks|
  {
    hide Step;
    if ticks == [] {
      assert [] + [tick] == [tick] + [];
      RunHead(s, at, tick, []);
    } else {
      assert (ticks + [tick])[1..] == ticks[1..] + [tick];
      RunAppend(s, Step(s, at, ticks[0]), ticks[1..], tick);
    }
  }
}
