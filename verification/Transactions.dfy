/**
 The transaction wrapper inTx (domain_helpers.go): one retry after a serialization failure or
 deadlock, captured outputs reset before every attempt and on every error, and a commit whose
 failure may be ambiguous and is never retried.
 */
module Transactions {
  import opened Schema
  import opened TokenPolicy
  import opened Tokens
  import opened Sessions
  import TokenProofs

  datatype Fault =
    | Retryable
    | Declined
    | BeginFailed
    | CommitFailed

  /** What one execution of the operation leaves: its private writes, the caller's variables, its error. */
  datatype Attempt<D, C> = Attempt(writes: D, captured: C, error: Option<Fault>)

  datatype Commit = Committed | CommitLost | CommitUnacknowledged

  /**
   One attempt: other transactions commit, then ours begins or not, then the operation runs, then its
   commit is decided. Each attempt has an operation of its own: the closure is called afresh, draws
   afresh, and may fail where the other attempt did not.
   */
  datatype Turn<!D, !C> = Turn(others: D -> D, begins: bool, operation: (D, C) -> Attempt<D, C>, commit: Commit)

  const MAX_ATTEMPTS: nat := 2

  /** What a call leaves behind, and how many of its attempts became durable. */
  datatype Ending<D, C> = Ending(durable: D, captured: C, error: Option<Fault>, durableAttempts: nat)

  /** The wrapper from its attempt number `n` on. */
  function Outcome<D, C>(turns: seq<Turn<D, C>>, initial: C, durable: D, n: nat): Ending<D, C>
    requires |turns| == MAX_ATTEMPTS && n < MAX_ATTEMPTS
    decreases MAX_ATTEMPTS - n
  {
    var before := turns[n].others(durable);
    if !turns[n].begins then Ending(before, initial, Some(BeginFailed), 0)
    else
      var attempt := turns[n].operation(before, initial);
      if attempt.error == Some(Retryable) && n == 0 then Outcome(turns, initial, before, 1)
      else if attempt.error.Some? then Ending(before, initial, attempt.error, 0)
      else
        match turns[n].commit
        case Committed => Ending(attempt.writes, attempt.captured, None, 1)
        case CommitLost => Ending(before, initial, Some(CommitFailed), 0)
        case CommitUnacknowledged => Ending(attempt.writes, initial, Some(CommitFailed), 1)
  }

  /** The database, and the variables a caller's closure captures. */
  class Wrapper<D(0), C(0)> {
    var durable: D
    var captured: C

    /** inTx. The loop always returns, so the source's error after it is unreachable. */
    method InTx(turns: seq<Turn<D, C>>, initial: C) returns (error: Option<Fault>)
      requires |turns| == MAX_ATTEMPTS
      modifies this
      ensures var ending := Outcome(turns, initial, old(durable), 0);
        durable == ending.durable && captured == ending.captured && error == ending.error
    {
      var n := 0;
      while true
        invariant n < MAX_ATTEMPTS
        invariant Outcome(turns, initial, old(durable), 0) == Outcome(turns, initial, durable, n)
        decreases MAX_ATTEMPTS - n
      {
        captured := initial;
        durable := turns[n].others(durable);
        if !turns[n].begins { return Some(BeginFailed); }
        var attempt := turns[n].operation(durable, captured);
        captured := attempt.captured;
        if attempt.error.Some? {
          if n == 0 && attempt.error.value == Retryable {
            n := n + 1;
            continue;
          }
          captured := initial;
          return attempt.error;
        }
        match turns[n].commit {
          case Committed =>
            durable := attempt.writes;
            return None;
          case CommitLost =>
            captured := initial;
            return Some(CommitFailed);
          case CommitUnacknowledged =>
            durable := attempt.writes;
            captured := initial;
            return Some(CommitFailed);
        }
      }
    }
  }

  /** The state the operation saw in its n-th attempt. */
  function Seen<D, C>(turns: seq<Turn<D, C>>, durable: D, n: nat): D
    requires |turns| == MAX_ATTEMPTS && n < MAX_ATTEMPTS
  {
    if n == 0 then turns[0].others(durable) else turns[1].others(turns[0].others(durable))
  }

  /** What the n-th attempt did, run from reset variables. */
  function Tried<D, C>(turns: seq<Turn<D, C>>, initial: C, durable: D, n: nat): Attempt<D, C>
    requires |turns| == MAX_ATTEMPTS && n < MAX_ATTEMPTS
  {
    turns[n].operation(Seen(turns, durable, n), initial)
  }

  /** The ending is exactly that of attempt n, committed. */
  ghost predicate CommittedAt<D, C>(turns: seq<Turn<D, C>>, initial: C, durable: D, n: nat, ending: Ending<D, C>)
    requires |turns| == MAX_ATTEMPTS && n < MAX_ATTEMPTS
  {
    var attempt := Tried(turns, initial, durable, n);
    && attempt.error.None? && turns[n].commit == Committed && turns[n].begins
    && ending == Ending(attempt.writes, attempt.captured, None, 1)
    && (n == 1 ==> turns[0].begins && Tried(turns, initial, durable, 0).error == Some(Retryable))
  }

  /**
   Over every pattern of operation errors, one retry and ambiguous commits, each attempt behaving as it
   likes: what the caller keeps is the output of the one attempt that committed, run from reset
   variables, or the reset value.
   */
  lemma OutputsOfTheCommittedAttempt<D, C>(turns: seq<Turn<D, C>>, initial: C, durable: D)
    requires |turns| == MAX_ATTEMPTS
    ensures var ending := Outcome(turns, initial, durable, 0);
      && ending.durableAttempts <= 1
      && (ending.error.Some? ==> ending.captured == initial)
      && (ending.error.None? ==>
            exists n: nat :: n < MAX_ATTEMPTS && CommittedAt(turns, initial, durable, n, ending))
      && (ending.durableAttempts == 0 ==>
            ending.error.Some? && exists n: nat :: n < MAX_ATTEMPTS && ending.durable == Seen(turns, durable, n))
  {
    var ending := Outcome(turns, initial, durable, 0);
    var n := if turns[0].begins && Tried(turns, initial, durable, 0).error == Some(Retryable) then 1 else 0;
    assert ending == Outcome(turns, initial, if n == 0 then durable else Seen(turns, durable, 0), n);
    if ending.error.None? { assert CommittedAt(turns, initial, durable, n, ending); }
    if ending.durableAttempts == 0 { assert ending.durable == Seen(turns, durable, n); }
  }

  /** Only a serialization failure or deadlock of the first attempt is retried. */
  predicate Retried<D, C>(turns: seq<Turn<D, C>>, initial: C, durable: D)
    requires |turns| == MAX_ATTEMPTS
  {
    turns[0].begins && Tried(turns, initial, durable, 0).error == Some(Retryable)
  }

  /**
   What the caller learns and what is durable, case by case. The last attempt decides: it fails to begin, its
   operation fails with an error passed on as it is, or it reaches its commit, which is never retried. An
   unacknowledged commit is durable and reported as failed.
   */
  lemma LastAttemptDecides<D, C>(turns: seq<Turn<D, C>>, initial: C, durable: D)
    requires |turns| == 2
    ensures var n := if Retried(turns, initial, durable) then 1 else 0;
      var (last, before) := (Tried(turns, initial, durable, n), Seen(turns, durable, n));
      var ending := Outcome(turns, initial, durable, 0);
      && (!turns[n].begins ==> ending == Ending(before, initial, Some(BeginFailed), 0))
      && (turns[n].begins && last.error.Some? ==> ending == Ending(before, initial, last.error, 0))
      && (turns[n].begins && last.error.None? ==>
            && (ending.error.None? <==> turns[n].commit == Committed)
            && (ending.error.Some? ==> ending.error == Some(CommitFailed))
            && ending.captured == (if turns[n].commit == Committed then last.captured else initial)
            && ending.durable == (if turns[n].commit == CommitLost then before else last.writes))
  {
    if Retried(turns, initial, durable) {
      assert Outcome(turns, initial, durable, 0) == Outcome(turns, initial, Seen(turns, durable, 0), 1);
    }
  }

  // ----- Operations that hand out clear tokens -----

  /** A fault of one attempt: none, or one that strikes before or after the closure sets its captured variables. */
  datatype Trouble = Smooth | Struck(fault: Fault, afterCapture: bool)

  /** One attempt of a token operation, with draws of its own. */
  datatype Try<!R> = Try(others: Db -> Db, begins: bool, draws: R, trouble: Trouble, commit: Commit)

  /** What the closure leaves: its result when nothing strikes, otherwise the fault and nothing written. */
  function Finished(db: Db, captured: Option<Response>, result: Attempt<Db, Option<Response>>, trouble: Trouble)
    : Attempt<Db, Option<Response>>
  {
    match trouble
    case Smooth => result
    case Struck(fault, afterCapture) => Attempt(db, if afterCapture then result.captured else captured, Some(fault))
  }

  ghost function RefreshTurn(c: Config, x: RefreshInput, now: Time, t: Try<RefreshDraws>): Turn<Db, Option<Response>> {
    Turn(t.others, t.begins,
         (db, captured) =>
           var (after, outcome) := Refresh(db, c, x, t.draws, now);
           var result := match outcome
             case Rotated(response) => Attempt(after, Some(response), None)
             case Reused => Attempt(after, captured, None)
             case Refused(_) => Attempt(db, captured, Some(Declined));
           Finished(db, captured, result, t.trouble),
         t.commit)
  }

  ghost function ExchangeTurn(c: Config, x: ExchangeInput, now: Time, t: Try<CodeDraws>): Turn<Db, Option<Response>> {
    Turn(t.others, t.begins,
         (db, captured) =>
           var (after, outcome) := Exchange(db, c, x, t.draws, now);
           var result := match outcome
             case Issued(response) => Attempt(after, Some(response), None)
             case Replayed => Attempt(after, captured, None)
             case Rejected(_) => Attempt(db, captured, Some(Declined));
           Finished(db, captured, result, t.trouble),
         t.commit)
  }

  /** The digests of the response's access token and, if it has one, of its refresh token are stored. */
  ghost predicate DigestsStored(db: Db, r: Response) {
    && (exists a :: a in db.accesses && db.accesses[a].jtiHash == HashJti(r.access.jti))
    && (r.refresh.Some? ==>
          exists g :: g in db.generations && db.generations[g].hash == HashRefresh(r.refresh.value))
  }

  lemma MintDigests(c: Config, a: CodeAuthority, d: CodeDraws)
    requires Mint(c, a, d).Ok?
    ensures var m := Mint(c, a, d).value;
      && m.jtiHash == HashJti(m.access.jti)
      && (m.initial.Some? ==> m.initial.value.hash == HashRefresh(m.initial.value.clear))
  {
    hide HashRefresh, HashJti;
  }

  lemma MintRefreshDigests(c: Config, a: RefreshAuthority, d: RefreshDraws)
    requires MintRefresh(c, a, d).Ok?
    ensures var m := MintRefresh(c, a, d).value;
      m.jtiHash == HashJti(m.access.jti) && m.replacementHash == HashRefresh(m.replacementClear)
  {
    hide HashRefresh, HashJti;
  }

  lemma StoredRotationDigests(db: Db, g: Id, scopes: set<Scope>, m: RefreshMinted, now: Time)
    requires g in db.generations && db.generations[g].family in db.families
    requires m.jtiHash == HashJti(m.access.jti) && m.replacementHash == HashRefresh(m.replacementClear)
    ensures DigestsStored(StoreRotation(db, g, scopes, m, now), RefreshResponse(m, scopes))
  {
    hide HashRefresh, HashJti;
    var after := StoreRotation(db, g, scopes, m, now);
    assert m.replacement in after.generations && after.generations[m.replacement].hash == m.replacementHash;
    assert m.accessId in after.accesses && after.accesses[m.accessId].jtiHash == m.jtiHash;
  }

  lemma StoredExchangeDigests(db: Db, id: Id, m: Minted, now: Time)
    requires id in db.codes && (m.initial.Some? ==> db.codes[id].binding.Some?)
    requires m.jtiHash == HashJti(m.access.jti)
    requires m.initial.Some? ==> m.initial.value.hash == HashRefresh(m.initial.value.clear)
    ensures DigestsStored(StoreExchange(db, id, m, now), CodeResponse(m, db.codes[id]))
  {
    hide HashRefresh, HashJti;
    var after := StoreExchange(db, id, m, now);
    assert m.accessId in after.accesses && after.accesses[m.accessId].jtiHash == m.jtiHash;
    if m.initial.Some? {
      assert after.generations[m.initial.value.token].hash == m.initial.value.hash;
    }
  }

  lemma RotationStoresDigests(db: Db, c: Config, x: RefreshInput, d: RefreshDraws, now: Time)
    requires Refresh(db, c, x, d, now).1.Rotated?
    ensures var (after, outcome) := Refresh(db, c, x, d, now);
      outcome.response.refresh.Some? && DigestsStored(after, outcome.response)
  {
    hide Refresh, SelectScopes, RefreshMintedFresh, MintRefresh, StoreRotation, DigestsStored, SameClient,
         ValidRefreshMinted, AuthorityOfRefresh;
    var g, scopes, m := TokenProofs.RotationOf(db, c, x, d, now);
    MintRefreshDigests(c, AuthorityOfRefresh(db, g, scopes, now), d);
    StoredRotationDigests(db, g, scopes, m, now);
  }

  lemma ExchangeStoresDigests(db: Db, c: Config, x: ExchangeInput, d: CodeDraws, now: Time)
    requires Exchange(db, c, x, d, now).1.Issued?
    ensures var (after, outcome) := Exchange(db, c, x, d, now); DigestsStored(after, outcome.response)
  {
    hide Exchange, VerifyS256, SameClient, MintedFresh, Mint, StoreExchange, DigestsStored, ValidMinted,
         AuthorityOfCode,
         CodeResponse;
    var m := TokenProofs.MintedFor(db, c, x, d, now);
    var id := FindCode(db.codes, x.codeHash).value;
    MintDigests(c, AuthorityOfCode(db, id, db.codes[id], now), d);
    StoredExchangeDigests(db, id, m, now);
  }

  /**
   Refresh: a response leaves the process only if it is the one the committed attempt minted, with that
   attempt's own draws, and the digests of both its clear tokens are stored. Nothing a rolled-back or
   unacknowledged attempt minted leaves.
   */
  lemma RefreshTokensOnlyIfStored(tries: seq<Try<RefreshDraws>>, c: Config, x: RefreshInput, now: Time, durable: Db)
    requires |tries| == MAX_ATTEMPTS
    ensures var turns := [RefreshTurn(c, x, now, tries[0]), RefreshTurn(c, x, now, tries[1])];
      var ending := Outcome(turns, None, durable, 0);
      ending.captured.Some? ==>
        && ending.error.None? && DigestsStored(ending.durable, ending.captured.value)
        && exists n: nat :: n < MAX_ATTEMPTS && tries[n].commit == Committed &&
             Refresh(Seen(turns, durable, n), c, x, tries[n].draws, now) ==
             (ending.durable, Rotated(ending.captured.value))
  {
    hide Refresh, DigestsStored, Outcome;
    var turns := [RefreshTurn(c, x, now, tries[0]), RefreshTurn(c, x, now, tries[1])];
    var ending := Outcome(turns, None, durable, 0);
    OutputsOfTheCommittedAttempt(turns, None, durable);
    if ending.captured.Some? {
      var n: nat :| n < MAX_ATTEMPTS && CommittedAt(turns, None, durable, n, ending);
      var seen := Seen(turns, durable, n);
      assert turns[n] == RefreshTurn(c, x, now, tries[n]);
      assert Refresh(seen, c, x, tries[n].draws, now).1.Rotated?;
      RotationStoresDigests(seen, c, x, tries[n].draws, now);
    }
  }

  /** Exchange: the same for the response to a code. */
  lemma ExchangeTokensOnlyIfStored(tries: seq<Try<CodeDraws>>, c: Config, x: ExchangeInput, now: Time, durable: Db)
    requires |tries| == MAX_ATTEMPTS
    ensures var turns := [ExchangeTurn(c, x, now, tries[0]), ExchangeTurn(c, x, now, tries[1])];
      var ending := Outcome(turns, None, durable, 0);
      ending.captured.Some? ==>
        && ending.error.None? && DigestsStored(ending.durable, ending.captured.value)
        && exists n: nat :: n < MAX_ATTEMPTS && tries[n].commit == Committed &&
             Exchange(Seen(turns, durable, n), c, x, tries[n].draws, now) ==
             (ending.durable, Issued(ending.captured.value))
  {
    hide Exchange, DigestsStored, Outcome;
    var turns := [ExchangeTurn(c, x, now, tries[0]), ExchangeTurn(c, x, now, tries[1])];
    var ending := Outcome(turns, None, durable, 0);
    OutputsOfTheCommittedAttempt(turns, None, durable);
    if ending.captured.Some? {
      var n: nat :| n < MAX_ATTEMPTS && CommittedAt(turns, None, durable, n, ending);
      var seen := Seen(turns, durable, n);
      assert turns[n] == ExchangeTurn(c, x, now, tries[n]);
      assert Exchange(seen, c, x, tries[n].draws, now).1.Issued?;
      ExchangeStoresDigests(seen, c, x, tries[n].draws, now);
    }
  }

  /**
   The case the reset exists for: the first attempt rotates, sets its response and is rolled back by a
   retryable fault; nothing else commits; the retry rotates with other draws. The caller gets the second
   response, and the database holds the second rotation only.
   */
  lemma RetryKeepsOnlyTheSecond(first: Try<RefreshDraws>, second: Try<RefreshDraws>, c: Config, x: RefreshInput,
                                now: Time, db: Db)
    requires first.begins && first.trouble == Struck(Retryable, true) && first.others(db) == db
    requires second.begins && second.trouble == Smooth && second.others(db) == db && second.commit == Committed
    requires Refresh(db, c, x, first.draws, now).1.Rotated? && Refresh(db, c, x, second.draws, now).1.Rotated?
    ensures var turns := [RefreshTurn(c, x, now, first), RefreshTurn(c, x, now, second)];
      var (after, outcome) := Refresh(db, c, x, second.draws, now);
      && Tried(turns, None, db, 0).captured == Some(Refresh(db, c, x, first.draws, now).1.response)
      && Outcome(turns, None, db, 0) == Ending(after, Some(outcome.response), None, 1)
  {
    hide Refresh;
    var turns := [RefreshTurn(c, x, now, first), RefreshTurn(c, x, now, second)];
    assert Tried(turns, None, db, 0).error == Some(Retryable);
    assert Outcome(turns, None, db, 0) == Outcome(turns, None, db, 1);
  }

  // ----- Inherited session bindings -----

  /** CommitLogin's closure: it overwrites the captured binding only when it inherits one. */
  ghost function LoginAttempt(x: LoginInput, now: Time, trouble: Trouble, db: Db, captured: Id): Attempt<Db, Id> {
    var existing := Existing(db, x, now);
    var inherits := existing.Some? && db.sessions[existing.value].user == x.user;
    var (after, stored) := Login(db, x, now);
    var binding := if inherits then db.sessions[existing.value].binding else captured;
    match trouble
    case Smooth => if stored.None? then Attempt(db, captured, Some(Declined)) else Attempt(after, binding, None)
    case Struck(fault, afterCapture) => Attempt(db, if afterCapture then binding else captured, Some(fault))
  }

  ghost function LoginTurn(x: LoginInput, now: Time, t: Try<()>): Turn<Db, Id> {
    Turn(t.others, t.begins, (db, captured) => LoginAttempt(x, now, t.trouble, db, captured), t.commit)
  }

  /**
   A successful login returns the binding of the session it stored. In particular a binding inherited
   by an attempt that was rolled back does not survive into the retry.
   */
  lemma LoginReturnsStoredBinding(tries: seq<Try<()>>, x: LoginInput, now: Time, durable: Db)
    requires |tries| == MAX_ATTEMPTS
    ensures var turns := [LoginTurn(x, now, tries[0]), LoginTurn(x, now, tries[1])];
      var ending := Outcome(turns, x.session, durable, 0);
      ending.error.None? ==>
        x.session in ending.durable.sessions && ending.durable.sessions[x.session].binding == ending.captured
  {
    hide Outcome, LoginAttempt;
    var turns := [LoginTurn(x, now, tries[0]), LoginTurn(x, now, tries[1])];
    var ending := Outcome(turns, x.session, durable, 0);
    OutputsOfTheCommittedAttempt(turns, x.session, durable);
    if ending.error.None? {
      var n: nat :| n < MAX_ATTEMPTS && CommittedAt(turns, x.session, durable, n, ending);
      assert turns[n] == LoginTurn(x, now, tries[n]);
      LoginStoresBinding(Seen(turns, durable, n), x, now, tries[n].trouble);
    }
  }

  lemma LoginStoresBinding(db: Db, x: LoginInput, now: Time, trouble: Trouble)
    requires LoginAttempt(x, now, trouble, db, x.session).error.None?
    ensures var attempt := LoginAttempt(x, now, trouble, db, x.session);
      x.session in attempt.writes.sessions && attempt.writes.sessions[x.session].binding == attempt.captured
  {
    hide CloseSessions, RevokeSessions, Existing, SessionInsertable;
    var existing := Existing(db, x, now);
    if existing.Some? && db.sessions[existing.value].user != x.user {
      assert Login(db, x, now).0 == InsertSession(CloseSessions(db, {existing.value}, now), x, x.session, now);
    }
  }
}
