/**
 The authority state machine: every transaction of the store as an event, runs over a clock
 that never goes back, and the invariant and stability of whole runs.
 */
module Machine {
  import opened Schema
  import opened TokenPolicy
  import opened Tokens
  import opened Authorization
  import opened Sessions
  import opened Accounts
  import opened Logouts
  import opened Cleanup
  import opened Invariants
  import WithdrawalProofs
  import SessionProofs
  import IssueProofs
  import TokenProofs
  import CleanupProofs

  /** What the deployment configures. */
  datatype Settings = Settings(config: Config, maxActive: int, maxAttempts: int)

  datatype Event =
    | UserCreated(user: Id, userRow: User)
    | UserUpdated(user: Id, userUpdate: UserUpdate)
    | ClientCreated(client: Id, clientRow: Client)
    | ClientUpdated(client: Id, clientUpdate: ClientUpdate)
    | GrantRevoked(user: Id, client: Id)
    | AuthorizationBegun(transaction: Id, request: AuthRequest, expiresAt: Time)
    | AuthorizationEnded(transaction: Id, failure: Failure)
    | AuthorizationDenied(transaction: Id, request: AuthRequest, user: Id)
    | CodeRequested(issue: IssueInput)
    | CodeExchanged(exchange: ExchangeInput, codeDraws: CodeDraws)
    | TokenRefreshed(refresh: RefreshInput, refreshDraws: RefreshDraws)
    | TokenRevoked(caller: Caller, jti: Option<Digest>, hash: Option<Digest>)
    | LoggedIn(login: LoginInput)
    | Registered(login: LoginInput, userRow: User)
    | SessionTouched(session: Id, idleExpiresAt: Time)
    | SessionRevoked(session: Id, owner: Option<Id>)
    | SessionRevokedByHash(sessionHash: Digest)
    | OtherSessionsRevoked(user: Id, session: Id)
    | AllSessionsRevoked(user: Id)
    | LogoutStarted(logout: Id, lookupHash: Digest, expiresAt: Time)
    | LogoutBound(lookupHash: Digest, csrfHash: Digest, principal: Principal)
    | LogoutCompleted(lookupHash: Digest, csrfHash: Digest, decision: Decision, principal: Principal)
    | Cleaned(table: Table, chosen: set<Id>, retention: nat)

  datatype Table = Codes | Accesses | Generations | Families | BrowserSessions | LogoutTransactions | AuthTransactions

  ghost function Clean(db: Db, table: Table, chosen: set<Id>, cutoff: Time, now: Time): Db {
    match table
    case Codes => DeleteCodes(db, chosen, cutoff)
    case Accesses => DeleteAccesses(db, chosen, cutoff)
    case Generations => DeleteGenerations(db, chosen, cutoff)
    case Families => DeleteFamilies(db, chosen, cutoff)
    case BrowserSessions => DeleteSessions(db, chosen, cutoff)
    case LogoutTransactions => DeleteLogouts(db, chosen, now, cutoff)
    case AuthTransactions => DeleteTransactions(db, chosen, cutoff)
  }

  ghost function Apply(s: Settings, db: Db, e: Event, now: Time): Db {
    match e
    case UserCreated(id, row) => CreateUser(db, id, row)
    case UserUpdated(id, u) => UpdateUser(db, id, u, now)
    case ClientCreated(id, row) => CreateClient(db, id, row)
    case ClientUpdated(id, u) => UpdateClient(db, id, u, now)
    case GrantRevoked(user, client) => RevokeGrant(db, user, client, now)
    case AuthorizationBegun(id, request, expiresAt) => Begin(db, id, request, expiresAt, now)
    case AuthorizationEnded(id, failure) => Terminate(db, id, failure, now)
    case AuthorizationDenied(id, request, user) => Deny(db, id, request, user, now).0
    case CodeRequested(x) => Issue(db, x, now).0
    case CodeExchanged(x, d) => Exchange(db, s.config, x, d, now).0
    case TokenRefreshed(x, d) => Refresh(db, s.config, x, d, now).0
    case TokenRevoked(caller, jti, hash) => RevokeToken(db, caller, jti, hash, now)
    case LoggedIn(x) => Login(db, x, now).0
    case Registered(x, row) => Register(db, x, row, now)
    case SessionTouched(id, idle) => Touch(db, id, idle, now)
    case SessionRevoked(id, owner) => RevokeSession(db, id, owner, now)
    case SessionRevokedByHash(hash) => RevokeSessionByHash(db, hash, now)
    case OtherSessionsRevoked(user, id) => RevokeOthers(db, user, id, now)
    case AllSessionsRevoked(user) => RevokeAll(db, user, now)
    case LogoutStarted(id, hash, expiresAt) => Start(db, id, hash, expiresAt, now)
    case LogoutBound(hash, csrf, p) => Bind(db, hash, csrf, p, s.maxActive, s.maxAttempts, now).0
    case LogoutCompleted(hash, csrf, decision, p) => Complete(db, hash, csrf, decision, p, s.maxAttempts, now).0
    case Cleaned(table, chosen, retention) => Clean(db, table, chosen, now - retention, now)
  }

  lemma CleanKeeps(db: Db, table: Table, chosen: set<Id>, cutoff: Time, now: Time)
    requires Inv(db, now) && cutoff <= now
    ensures var after := Clean(db, table, chosen, cutoff, now); Inv(after, now) && Stable(db, after)
  {
    hide Inv, Stable, DeleteCodes, DeleteAccesses, DeleteGenerations, DeleteFamilies, DeleteSessions, DeleteLogouts;
    hide DeleteTransactions;
    match table
    case Codes => CleanupProofs.DeleteCodesKeeps(db, chosen, cutoff, now);
    case Accesses => CleanupProofs.DeleteAccessesKeeps(db, chosen, cutoff, now);
    case Generations => CleanupProofs.DeleteGenerationsKeeps(db, chosen, cutoff, now);
    case Families => CleanupProofs.DeleteFamiliesKeeps(db, chosen, cutoff, now);
    case BrowserSessions => CleanupProofs.DeleteSessionsKeeps(db, chosen, cutoff, now);
    case LogoutTransactions => CleanupProofs.DeleteLogoutsKeeps(db, chosen, now, cutoff);
    case AuthTransactions => CleanupProofs.DeleteTransactionsKeeps(db, chosen, cutoff, now);
  }

  predicate AboutSessions(e: Event) {
    e.LoggedIn? || e.Registered? || e.SessionTouched? || e.SessionRevoked? || e.SessionRevokedByHash? ||
    e.OtherSessionsRevoked? || e.AllSessionsRevoked?
  }

  predicate AboutLogouts(e: Event) {
    e.LogoutStarted? || e.LogoutBound? || e.LogoutCompleted? || e.Cleaned?
  }

  lemma TokenStepKeeps(s: Settings, db: Db, e: Event, now: Time)
    requires Inv(db, now) && !AboutSessions(e) && !AboutLogouts(e)
    ensures Inv(Apply(s, db, e, now), now) && Stable(db, Apply(s, db, e, now))
  {
    hide Inv, Stable, CreateUser, UpdateUser, CreateClient, UpdateClient, RevokeGrant, Begin, Terminate, Deny, Issue;
    hide Exchange, Refresh, RevokeToken, Login, Register, Touch, RevokeSession;
    hide RevokeSessionByHash, RevokeOthers, RevokeAll, Start, Bind, Complete, Clean;
    match e {
      case UserCreated(id, row) => SessionProofs.CreateUserKeeps(db, id, row, now);
      case UserUpdated(id, u) => SessionProofs.UpdateUserKeeps(db, id, u, now);
      case ClientCreated(id, row) => SessionProofs.CreateClientKeeps(db, id, row, now);
      case ClientUpdated(id, u) => WithdrawalProofs.UpdateClientKeeps(db, id, u, now);
      case GrantRevoked(user, client) => WithdrawalProofs.RevokeGrantKeeps(db, user, client, now);
      case AuthorizationBegun(id, request, expiresAt) => IssueProofs.BeginKeeps(db, id, request, expiresAt, now);
      case AuthorizationEnded(id, failure) => IssueProofs.TerminateKeeps(db, id, failure, now);
      case AuthorizationDenied(id, request, user) => IssueProofs.DenyKeeps(db, id, request, user, now);
      case CodeRequested(x) => IssueProofs.IssueKeeps(db, x, now);
      case CodeExchanged(x, d) => TokenProofs.ExchangeKeeps(db, s.config, x, d, now);
      case TokenRefreshed(x, d) => TokenProofs.RefreshKeeps(db, s.config, x, d, now);
      case TokenRevoked(caller, jti, hash) => TokenProofs.RevokeTokenKeeps(db, caller, jti, hash, now);
    }
  }

  lemma SessionEntryKeeps(s: Settings, db: Db, e: Event, now: Time)
    requires Inv(db, now) && (e.LoggedIn? || e.Registered? || e.SessionTouched?)
    ensures Inv(Apply(s, db, e, now), now) && Stable(db, Apply(s, db, e, now))
  {
    hide Inv, Stable, CreateUser, UpdateUser, CreateClient, UpdateClient, RevokeGrant, Begin, Terminate, Deny, Issue;
    hide Exchange, Refresh, RevokeToken, Login, Register, Touch, RevokeSession;
    hide RevokeSessionByHash, RevokeOthers, RevokeAll, Start, Bind, Complete, Clean;
    match e {
      case LoggedIn(x) => SessionProofs.LoginKeeps(db, x, now);
      case Registered(x, row) => SessionProofs.RegisterKeeps(db, x, row, now);
      case SessionTouched(id, idle) => SessionProofs.TouchKeeps(db, id, idle, now);
    }
  }

  lemma SessionEndKeeps(s: Settings, db: Db, e: Event, now: Time)
    requires Inv(db, now)
    requires e.SessionRevoked? || e.SessionRevokedByHash? || e.OtherSessionsRevoked? || e.AllSessionsRevoked?
    ensures Inv(Apply(s, db, e, now), now) && Stable(db, Apply(s, db, e, now))
  {
    hide Inv, Stable, CreateUser, UpdateUser, CreateClient, UpdateClient, RevokeGrant, Begin, Terminate, Deny, Issue;
    hide Exchange, Refresh, RevokeToken, Login, Register, Touch, RevokeSession;
    hide RevokeSessionByHash, RevokeOthers, RevokeAll, Start, Bind, Complete, Clean;
    match e {
      case SessionRevoked(id, owner) => SessionProofs.SessionRevocationsKeep(db, id, owner, Sha256(""), NIL, now);
      case SessionRevokedByHash(hash) => SessionProofs.SessionRevocationsKeep(db, NIL, None, hash, NIL, now);
      case OtherSessionsRevoked(user, id) => SessionProofs.SessionRevocationsKeep(db, id, None, Sha256(""), user, now);
      case AllSessionsRevoked(user) => SessionProofs.SessionRevocationsKeep(db, NIL, None, Sha256(""), user, now);
    }
  }

  lemma SessionStepKeeps(s: Settings, db: Db, e: Event, now: Time)
    requires Inv(db, now) && AboutSessions(e)
    ensures Inv(Apply(s, db, e, now), now) && Stable(db, Apply(s, db, e, now))
  {
    hide Inv, Stable, Apply;
    if e.LoggedIn? || e.Registered? || e.SessionTouched? {
      SessionEntryKeeps(s, db, e, now);
    } else {
      SessionEndKeeps(s, db, e, now);
    }
  }

  lemma LogoutStepKeeps(s: Settings, db: Db, e: Event, now: Time)
    requires Inv(db, now) && AboutLogouts(e)
    ensures Inv(Apply(s, db, e, now), now) && Stable(db, Apply(s, db, e, now))
  {
    hide Inv, Stable, CreateUser, UpdateUser, CreateClient, UpdateClient, RevokeGrant, Begin, Terminate, Deny, Issue;
    hide Exchange, Refresh, RevokeToken, Login, Register, Touch, RevokeSession;
    hide RevokeSessionByHash, RevokeOthers, RevokeAll, Start, Bind, Complete, Clean;
    match e {
      case LogoutStarted(id, hash, expiresAt) => SessionProofs.StartKeeps(db, id, hash, expiresAt, now);
      case LogoutBound(hash, csrf, p) => SessionProofs.BindKeeps(db, hash, csrf, p, s.maxActive, s.maxAttempts, now);
      case LogoutCompleted(hash, csrf, decision, p) =>
        SessionProofs.CompleteKeeps(db, hash, csrf, decision, p, s.maxAttempts, now);
      case Cleaned(table, chosen, retention) => CleanKeeps(db, table, chosen, now - retention, now);
    }
  }

  /** Every transaction keeps the invariant and changes rows only in the permitted ways. */
  lemma StepKeeps(s: Settings, db: Db, e: Event, now: Time)
    requires Inv(db, now)
    ensures Inv(Apply(s, db, e, now), now) && Stable(db, Apply(s, db, e, now))
  {
    hide Inv, Stable, Apply;
    if AboutSessions(e) {
      SessionStepKeeps(s, db, e, now);
    } else if AboutLogouts(e) {
      LogoutStepKeeps(s, db, e, now);
    } else {
      TokenStepKeeps(s, db, e, now);
    }
  }

  // ----- Runs -----

  /** An event after some time has passed. */
  datatype Tick = Tick(elapsed: nat, event: Event)

  datatype State = State(db: Db, clock: Time)

  ghost function Step(s: Settings, at: State, tick: Tick): State {
    var now := at.clock + tick.elapsed;
    State(Apply(s, at.db, tick.event, now), now)
  }

  ghost function Run(s: Settings, at: State, ticks: seq<Tick>): State
    decreases |ticks|
  {
    if ticks == [] then at else Run(s, Step(s, at, ticks[0]), ticks[1..])
  }

  lemma RunHead(s: Settings, at: State, tick: Tick, more: seq<Tick>)
    ensures Run(s, at, [tick] + more) == Run(s, Step(s, at, tick), more)
  {
    hide Step;
    assert ([tick] + more)[1..] == more;
  }

  ghost predicate Good(at: State) {
    Inv(at.db, at.clock)
  }

  lemma TickKeeps(s: Settings, at: State, tick: Tick)
    requires Good(at)
    ensures var next := Step(s, at, tick);
      Good(next) && at.clock <= next.clock && Stable(at.db, next.db)
  {
    hide Inv, Stable, Apply;
    var now := at.clock + tick.elapsed;
    TimePasses(at.db, at.clock, now);
    StepKeeps(s, at.db, tick.event, now);
  }

  /** Over a whole run the invariant is kept, the clock only advances, and rows change only as permitted. */
  lemma {:induction false} RunKeeps(s: Settings, at: State, ticks: seq<Tick>)
    requires Good(at)
    ensures var end := Run(s, at, ticks);
      Good(end) && at.clock <= end.clock && Stable(at.db, end.db)
    decreases |ticks|
  {
    hide Inv, Stable, Step;
    if ticks == [] {
      StableReflexive(at.db);
    } else {
      var next := Step(s, at, ticks[0]);
      TickKeeps(s, at, ticks[0]);
      RunKeeps(s, next, ticks[1..]);
      StableTransitive(at.db, next.db, Run(s, at, ticks).db, at.clock);
    }
  }

  const START: State := State(EMPTY, 1)

  /** Every reachable state satisfies the invariant. */
  lemma ReachableIsGood(s: Settings, ticks: seq<Tick>)
    ensures Good(Run(s, START, ticks))
  {
    EmptyIsOk(1);
    RunKeeps(s, START, ticks);
  }
}
