/**
 Explicit row locks. Every interleaving of code issue, denial, exchange, refresh, token
 revocation, grant revocation and client update is free of deadlock: locks follow one global
 order, and the multi-row locks at its end are serialized by the client row.
 */
module LockOrder {
  import opened Schema

  /** Rows that are locked explicitly. Token rows carry the client they belong to, which never changes. */
  datatype Row =
    | TransactionRow(id: Id)
    | CodeRow(id: Id)
    | UserRow(id: Id)
    | ClientRow(id: Id)
    | GrantRow(user: Id, grantClient: Id)
    | FamilyRow(owner: Id, id: Id)
    | GenerationRow(owner: Id, id: Id)
    | AccessRow(owner: Id, id: Id)

  function Level(r: Row): nat {
    match r
    case TransactionRow(_) => 0
    case CodeRow(_) => 0
    case UserRow(_) => 1
    case ClientRow(_) => 2
    case GrantRow(_, _) => 3
    case FamilyRow(_, _) => 4
    case GenerationRow(_, _) => 5
    case AccessRow(_, _) => 6
  }

  predicate IsToken(r: Row) {
    r.FamilyRow? || r.GenerationRow? || r.AccessRow?
  }

  // ----- The lock sequences of the operations -----

  function FamilyRows(client: Id, ids: seq<Id>): (rows: seq<Row>)
    ensures |rows| == |ids| && forall i :: 0 <= i < |ids| ==> rows[i] == FamilyRow(client, ids[i])
  {
    seq(|ids|, i requires 0 <= i < |ids| => FamilyRow(client, ids[i]))
  }

  function AccessRows(client: Id, ids: seq<Id>): (rows: seq<Row>)
    ensures |rows| == |ids| && forall i :: 0 <= i < |ids| ==> rows[i] == AccessRow(client, ids[i])
  {
    seq(|ids|, i requires 0 <= i < |ids| => AccessRow(client, ids[i]))
  }

  datatype Operation =
    | Issue(transaction: Id, user: Id, client: Id, grantExists: bool)
    | Deny(transaction: Id, user: Id, client: Id)
    | Exchange(code: Id, user: Id, client: Id)
    | Refresh(user: Id, client: Id, family: Id, generation: Id, accesses: seq<Id>)
    | RevokeAccess(user: Id, client: Id, onFamily: Option<Id>, access: Id)
    | RevokeRefresh(user: Id, client: Id, family: Id, generation: Id, accesses: seq<Id>)
    | RevokeGrant(user: Id, client: Id, families: seq<Id>, accesses: seq<Id>)
    | UpdateClient(client: Id, families: seq<Id>, accesses: seq<Id>)

  /** The single-row locks every operation starts with, up to the grant. */
  function Accounts(op: Operation): seq<Row> {
    match op
    case Issue(t, u, c, exists_) =>
      [TransactionRow(t), UserRow(u), ClientRow(c)] + (if exists_ then [GrantRow(u, c)] else [])
    case Deny(t, u, c) => [TransactionRow(t), UserRow(u), ClientRow(c)]
    case Exchange(code, u, c) => [CodeRow(code), UserRow(u), ClientRow(c), GrantRow(u, c)]
    case Refresh(u, c, _, _, _) => [UserRow(u), ClientRow(c), GrantRow(u, c)]
    case RevokeAccess(u, c, _, _) => [UserRow(u), ClientRow(c), GrantRow(u, c)]
    case RevokeRefresh(u, c, _, _, _) => [UserRow(u), ClientRow(c), GrantRow(u, c)]
    case RevokeGrant(u, c, _, _) => [UserRow(u), ClientRow(c), GrantRow(u, c)]
    case UpdateClient(c, _, _) => [ClientRow(c)]
  }

  /** The token rows it locks after that. Multi-row statements lock in any order. */
  function Tokens(op: Operation): seq<Row> {
    match op
    case Issue(_, _, _, _) => []
    case Deny(_, _, _) => []
    case Exchange(_, _, _) => []
    case Refresh(_, c, f, g, accesses) => [FamilyRow(c, f), GenerationRow(c, g)] + AccessRows(c, accesses)
    case RevokeAccess(_, c, f, a) => (if f.Some? then [FamilyRow(c, f.value)] else []) + [AccessRow(c, a)]
    case RevokeRefresh(_, c, f, g, accesses) => [FamilyRow(c, f), GenerationRow(c, g)] + AccessRows(c, accesses)
    case RevokeGrant(_, c, families, accesses) => FamilyRows(c, families) + AccessRows(c, accesses)
    case UpdateClient(c, families, accesses) => FamilyRows(c, families) + AccessRows(c, accesses)
  }

  function Program(op: Operation): seq<Row> {
    Accounts(op) + Tokens(op)
  }

  /**
   The discipline: before the token rows, levels strictly increase; every token row comes after the
   row of the client it belongs to.
   */
  ghost predicate Disciplined(program: seq<Row>) {
    && (forall i, j :: 0 <= i < j < |program| && !IsToken(program[j]) ==> Level(program[i]) < Level(program[j]))
    && (forall j :: 0 <= j < |program| && IsToken(program[j]) ==>
          exists i :: 0 <= i < j && program[i] == ClientRow(program[j].owner))
  }

  lemma AccountsShape(op: Operation)
    ensures var a := Accounts(op);
      && |a| >= 1
      && (forall i :: 0 <= i < |a| ==> !IsToken(a[i]))
      && (forall i, j :: 0 <= i < j < |a| ==> Level(a[i]) < Level(a[j]))
      && exists i :: 0 <= i < |a| && a[i] == ClientRow(op.client)
  {
    var a := Accounts(op);
    match op {
      case UpdateClient(c, _, _) => assert a[0] == ClientRow(c);
      case Refresh(_, c, _, _, _) => assert a[1] == ClientRow(c);
      case RevokeAccess(_, c, _, _) => assert a[1] == ClientRow(c);
      case RevokeRefresh(_, c, _, _, _) => assert a[1] == ClientRow(c);
      case RevokeGrant(_, c, _, _) => assert a[1] == ClientRow(c);
      case Issue(_, _, c, _) => assert a[2] == ClientRow(c);
      case Deny(_, _, c) => assert a[2] == ClientRow(c);
      case Exchange(_, _, c) => assert a[2] == ClientRow(c);
    }
  }

  lemma TokensShape(op: Operation)
    ensures forall i :: 0 <= i < |Tokens(op)| ==> IsToken(Tokens(op)[i]) && Tokens(op)[i].owner == op.client
  {
  }

  /** Every operation keeps the discipline. */
  lemma ProgramsAreDisciplined(op: Operation)
    ensures Disciplined(Program(op))
  {
    hide Level, Accounts, Tokens;
    AccountsShape(op);
    TokensShape(op);
    var a, t, program := Accounts(op), Tokens(op), Program(op);
    assert forall j :: 0 <= j < |program| ==> program[j] == if j < |a| then a[j] else t[j - |a|];
    var i :| 0 <= i < |a| && a[i] == ClientRow(op.client);
    forall j | 0 <= j < |program| && IsToken(program[j])
      ensures exists k :: 0 <= k < j && program[k] == ClientRow(program[j].owner)
    {
      assert program[i] == ClientRow(program[j].owner);
    }
  }

  // ----- Configurations -----

  /** A running transaction has taken the first `taken` locks of its program. */
  datatype Running = Running(program: seq<Row>, taken: nat)

  type Config = map<nat, Running>

  predicate Holds(r: Running, row: Row) {
    exists i :: 0 <= i < r.taken && i < |r.program| && r.program[i] == row
  }

  /** It waits for its next lock, when some other transaction holds that row. */
  ghost predicate Blocked(c: Config, t: nat, holder: nat) {
    && t in c && holder in c && t != holder
    && c[t].taken < |c[t].program|
    && Holds(c[holder], c[t].program[c[t].taken])
  }

  ghost predicate Free(c: Config, t: nat)
    requires t in c && c[t].taken < |c[t].program|
  {
    forall holder :: holder in c && holder != t ==> !Holds(c[holder], c[t].program[c[t].taken])
  }

  datatype Move = Begin(id: nat, op: Operation) | Take(id: nat) | End(id: nat)

  /** One move: begin an operation, take the next lock if nobody else holds it, or commit or roll back. */
  ghost function Step(c: Config, m: Move): Config {
    match m
    case Begin(t, op) => if t in c then c else c[t := Running(Program(op), 0)]
    case Take(t) =>
      if t in c && c[t].taken < |c[t].program| && Free(c, t) then c[t := c[t].(taken := c[t].taken + 1)] else c
    case End(t) => c - {t}
  }

  ghost function Run(c: Config, moves: seq<Move>): Config
    decreases |moves|
  {
    if moves == [] then c else Run(Step(c, moves[0]), moves[1..])
  }

  /** Locks are exclusive and programs disciplined. */
  ghost predicate Sound(c: Config) {
    && (forall t :: t in c ==> c[t].taken <= |c[t].program| && Disciplined(c[t].program))
    && (forall t, u, row :: t in c && u in c && Holds(c[t], row) && Holds(c[u], row) ==> t == u)
  }

  lemma StepSound(c: Config, m: Move)
    requires Sound(c)
    ensures Sound(Step(c, m))
  {
    hide Disciplined, Program;
    match m
    case Begin(t, op) => ProgramsAreDisciplined(op);
    case End(_) =>
    case Take(t) =>
      if t in c && c[t].taken < |c[t].program| && Free(c, t) {
        forall row | Holds(Step(c, m)[t], row) && !Holds(c[t], row)
          ensures row == c[t].program[c[t].taken]
        {
        }
      }
  }

  lemma {:induction false} RunSound(c: Config, moves: seq<Move>)
    requires Sound(c)
    ensures Sound(Run(c, moves))
    decreases |moves|
  {
    hide Sound, Step;
    if moves != [] {
      StepSound(c, moves[0]);
      RunSound(Step(c, moves[0]), moves[1..]);
    }
  }

  // ----- No deadlock -----

  /** The level of the row a transaction wants next; above all levels when it wants none. */
  function Awaited(c: Config, t: nat): nat {
    if t in c && c[t].taken < |c[t].program| then Level(c[t].program[c[t].taken]) else 7
  }

  ghost predicate CanMove(c: Config, t: nat) {
    t in c && (c[t].taken >= |c[t].program| || Free(c, t))
  }

  /** Nobody ever waits for a token row: its holder and the waiter would share a client row. */
  lemma NoWaitForTokens(c: Config, t: nat, holder: nat)
    requires Sound(c) && Blocked(c, t, holder)
    ensures !IsToken(c[t].program[c[t].taken])
  {
    hide Level;
    assert forall row :: Holds(c[holder], row) && IsToken(row) ==> Holds(c[holder], ClientRow(row.owner));
  }

  /** Along the wait-for relation the awaited level strictly rises. */
  lemma WaitsRise(c: Config, t: nat, holder: nat, further: nat)
    requires Sound(c) && Blocked(c, t, holder) && Blocked(c, holder, further)
    ensures Awaited(c, t) < Awaited(c, holder)
  {
    hide Level;
    NoWaitForTokens(c, holder, further);
    var k :| 0 <= k < c[holder].taken && k < |c[holder].program| && c[holder].program[k] == c[t].program[c[t].taken];
  }

  /** A chain of transactions, each blocked by the next. */
  ghost predicate Chain(c: Config, ts: seq<nat>) {
    |ts| >= 1 && (forall i :: 0 <= i < |ts| - 1 ==> Blocked(c, ts[i], ts[i + 1]))
  }

  lemma {:induction false} ChainRises(c: Config, ts: seq<nat>, last: nat)
    requires Sound(c) && Chain(c, ts) && |ts| >= 2 && Blocked(c, ts[|ts| - 1], last)
    ensures Awaited(c, ts[0]) < Awaited(c, ts[|ts| - 1])
    decreases |ts|
  {
    hide Awaited, Sound, Blocked;
    var rest := ts[1..];
    assert Blocked(c, ts[0], ts[1]);
    assert forall i :: 0 <= i < |rest| ==> rest[i] == ts[i + 1];
    assert Chain(c, rest) by {
      forall i | 0 <= i < |rest| - 1 ensures Blocked(c, rest[i], rest[i + 1]) {
        assert Blocked(c, ts[i + 1], ts[i + 2]);
      }
    }
    if |ts| == 2 {
      WaitsRise(c, ts[0], ts[1], last);
    } else {
      assert Blocked(c, ts[1], ts[2]);
      WaitsRise(c, ts[0], ts[1], ts[2]);
      ChainRises(c, rest, last);
    }
  }

  /** In every reachable configuration the wait-for graph has no cycle. */
  lemma NoDeadlock(moves: seq<Move>, ts: seq<nat>)
    ensures var c := Run(map[], moves);
      !(|ts| >= 2 && Chain(c, ts) && Blocked(c, ts[|ts| - 1], ts[0]))
  {
    RunSound(map[], moves);
    hide Run, Sound, Awaited;
    var c := Run(map[], moves);
    if |ts| >= 2 && Chain(c, ts) && Blocked(c, ts[|ts| - 1], ts[0]) {
      assert Blocked(c, ts[0], ts[1]);
      ChainRises(c, ts, ts[0]);
      WaitsRise(c, ts[|ts| - 1], ts[0], ts[1]);
    }
  }

  /** Consequently some open transaction can always take its next lock or finish. */
  lemma SomeoneCanMove(moves: seq<Move>, t: nat)
    requires t in Run(map[], moves)
    ensures exists u :: CanMove(Run(map[], moves), u)
  {
    RunSound(map[], moves);
    FindMover(Run(map[], moves), t);
  }

  lemma {:induction false} FindMover(c: Config, t: nat)
    requires Sound(c) && t in c
    ensures exists u :: CanMove(c, u)
    decreases 7 - Awaited(c, t)
  {
    if CanMove(c, t) {
    } else {
      var holder :| holder in c && holder != t && Holds(c[holder], c[t].program[c[t].taken]);
      assert Blocked(c, t, holder);
      if !CanMove(c, holder) {
        var further :| further in c && further != holder && Holds(c[further], c[holder].program[c[holder].taken]);
        assert Blocked(c, holder, further);
        WaitsRise(c, t, holder, further);
        FindMover(c, holder);
      }
    }
  }
}
