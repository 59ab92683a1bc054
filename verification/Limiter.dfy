/**
 The whole limiter: the global bucket in front of the per-address table, as the source's object,
 and the bounds and the equivalence that hold for it.
 */
module Limiter {
  import opened Schema
  import opened RateLimiter
  import opened WindowBounds

  // An address with any IPv4 mapping removed.
  type Address = nat

  datatype State = State(global: Bucket, table: Table<Address>)

  function PerSecond(perSecond: nat, burst: nat): Policy {
    Policy(perSecond as real / 1_000_000_000.0, burst)
  }

  /** authenticationRateLimiter.allow; with `evicting` false, the reference limiter. */
  function Decide(s: State, g: Policy, p: Policy, address: Address, now: Time, evicting: bool): (State, bool) {
    var global := Refill(s.global, g.rate, g.burst, now);
    if global.tokens < 1.0 then (s.(global := global), false)
    else
      var (table, ok) := Charge(s.table, p, address, now, evicting);
      (State(if ok then Charged(global, now) else global, table), ok)
  }

  function Answers(s: State, g: Policy, p: Policy, clock: Time, rs: seq<Request<Address>>, evicting: bool)
    : (ds: seq<bool>)
    ensures |ds| == |rs|
    decreases |rs|
  {
    if rs == [] then []
    else
      var now := clock + rs[0].elapsed;
      var (next, ok) := Decide(s, g, p, rs[0].key, now, evicting);
      [ok] + Answers(next, g, p, now, rs[1..], evicting)
  }

  ghost predicate RoomAlong(s: State, g: Policy, p: Policy, clock: Time, rs: seq<Request<Address>>)
    decreases |rs|
  {
    rs == [] ||
    var now := clock + rs[0].elapsed;
    Room(s.table, rs[0].key, now) && RoomAlong(Decide(s, g, p, rs[0].key, now, true).0, g, p, now, rs[1..])
  }

  /** With the global bucket in front, the limiter still answers as one that never evicts. */
  lemma {:induction false} SameAnswers(s: State, ideal: State, g: Policy, perMinute: nat, burst: nat, clock: Time,
                                       rs: seq<Request<Address>>)
    requires 1 <= burst <= 10 * perMinute && 0 < clock && s.global == ideal.global
    requires Agrees(s.table, ideal.table, PerMinute(perMinute, burst), clock)
    requires RoomAlong(s, g, PerMinute(perMinute, burst), clock, rs)
    ensures var p := PerMinute(perMinute, burst);
      Answers(s, g, p, clock, rs, true) == Answers(ideal, g, p, clock, rs, false)
    decreases |rs|
  {
    hide Agrees, Charge, PerMinute, Refill, Charged;
    if rs != [] {
      var p, now := PerMinute(perMinute, burst), clock + rs[0].elapsed;
      RateNonNegative(perMinute, burst);
      ChargeAgrees(s.table, ideal.table, perMinute, burst, rs[0].key, clock, now);
      AgreesLater(s.table, ideal.table, p, clock, now);
      SameAnswers(Decide(s, g, p, rs[0].key, now, true).0, Decide(ideal, g, p, rs[0].key, now, false).0,
                  g, perMinute, burst, now, rs[1..]);
    }
  }

  function Passed(ds: seq<bool>): nat {
    if ds == [] then 0 else (if ds[0] then 1 else 0) + Passed(ds[1..])
  }

  lemma DecideGlobal(s: State, g: Policy, p: Policy, address: Address, clock: Time, now: Time)
    requires g.rate >= 0.0 && Kept(s.global, g, clock) && 0 < clock <= now
    ensures var (next, ok) := Decide(s, g, p, address, now, true);
      && Kept(next.global, g, now)
      && TokensAt(next.global, g, now) + (if ok then 1.0 else 0.0) <=
         TokensAt(s.global, g, clock) + Earned(g.rate, now - clock)
  {
    hide Earned, Charge;
    RefillKeeps(s.global, g, clock, now);
    TokensGrow(s.global, g, clock, now);
    var global := Refill(s.global, g.rate, g.burst, now);
    if global.tokens >= 1.0 { ChargedKept(global, g, now); }
  }

  /** Over any window the limiter passes at most globalBurst + rate * elapsed requests in all. */
  lemma {:induction false} GlobalBound(s: State, g: Policy, p: Policy, clock: Time, rs: seq<Request<Address>>)
    requires g.rate >= 0.0 && Kept(s.global, g, clock) && 0 < clock
    ensures Passed(Answers(s, g, p, clock, rs, true)) as real <=
      TokensAt(s.global, g, clock) + Earned(g.rate, ClockAfter(clock, rs) - clock)
    ensures TokensAt(s.global, g, clock) <= g.burst as real
    decreases |rs|
  {
    hide Earned, Decide, Kept, TokensAt;
    TokensGrow(s.global, g, clock, clock);
    if rs == [] {
      EarnedZero(g.rate);
    } else {
      var now := clock + rs[0].elapsed;
      var next := Decide(s, g, p, rs[0].key, now, true).0;
      DecideGlobal(s, g, p, rs[0].key, clock, now);
      GlobalBound(next, g, p, now, rs[1..]);
      EarnedAdds(g.rate, now - clock, ClockAfter(now, rs[1..]) - now);
      var ds := Answers(s, g, p, clock, rs, true);
      assert ds[1..] == Answers(next, g, p, now, rs[1..], true);
    }
  }

  lemma DecideTable(s: State, g: Policy, p: Policy, steep: real, asked: Address, key: Address, clock: Time, now: Time)
    requires Steep(p, steep) && 0 < clock <= now && TableKept(s.table, p, clock)
    ensures var (next, ok) := Decide(s, g, p, asked, now, true);
      && TableKept(next.table, p, now)
      && Potential(next.table, p, steep, key, now) + (if asked == key && ok then 1.0 else 0.0) <=
         Potential(s.table, p, steep, key, clock) + Earned(steep, now - clock)
  {
    hide Earned, Charge, Kept, BucketPotential, Refill, Steep;
    SteepFacts(p, steep);
    ChargeKeeps(s.table, p, asked, clock, now, true);
    ChargeSpends(s.table, p, steep, asked, key, clock, now);
    EarnedGrows(steep, 0, now - clock);
    EarnedZero(steep);
    TableLater(s.table, p, clock, now);
    if key in s.table.buckets { PotentialGrows(s.table.buckets[key], p, steep, clock, now); }
  }

  /**
   Over any window it passes at most an address's potential and what a steep rate earns; the potential is at
   most the burst.
   */
  lemma {:induction false} AddressBound(s: State, g: Policy, p: Policy, steep: real, clock: Time,
                                        rs: seq<Request<Address>>, key: Address)
    requires Steep(p, steep) && 0 < clock && TableKept(s.table, p, clock)
    ensures AllowedFor(rs, Answers(s, g, p, clock, rs, true), key) as real <=
            Potential(s.table, p, steep, key, clock) + Earned(steep, ClockAfter(clock, rs) - clock)
    ensures 0.0 <= Potential(s.table, p, steep, key, clock) <= p.burst as real
    decreases |rs|
  {
    hide Earned, Decide, Kept, BucketPotential, Steep;
    SteepFacts(p, steep);
    if key in s.table.buckets { PotentialGrows(s.table.buckets[key], p, steep, clock, clock); }
    if rs == [] {
      EarnedZero(steep);
    } else {
      var now := clock + rs[0].elapsed;
      var next := Decide(s, g, p, rs[0].key, now, true).0;
      DecideTable(s, g, p, steep, rs[0].key, key, clock, now);
      AddressBound(next, g, p, steep, now, rs[1..], key);
      EarnedAdds(steep, now - clock, ClockAfter(now, rs[1..]) - now);
      var ds := Answers(s, g, p, clock, rs, true);
      assert ds[1..] == Answers(next, g, p, now, rs[1..], true);
    }
  }

  /** Without any condition on the policies: at most the burst and what the steeper of the two rates earns. */
  lemma AddressBoundAlways(s: State, g: Policy, p: Policy, clock: Time, rs: seq<Request<Address>>, key: Address)
    requires p.rate >= 0.0 && 0 < clock && TableKept(s.table, p, clock)
    ensures AllowedFor(rs, Answers(s, g, p, clock, rs, true), key) as real <=
            p.burst as real + Earned(SteepRate(p), ClockAfter(clock, rs) - clock)
  {
    hide Answers, Earned, Steep, Potential, SteepRate;
    SteepRateIsSteep(p);
    AddressBound(s, g, p, SteepRate(p), clock, rs, key);
  }

  // ----- Exactly when burst and rate bound an address -----

  /** A limiter made at instant 1. */
  function New(g: Policy): State {
    State(Bucket(g.burst as real, 1, 1), FRESH)
  }

  function Reached(s: State, g: Policy, p: Policy, clock: Time, rs: seq<Request<Address>>): State
    decreases |rs|
  {
    if rs == [] then s
    else
      var now := clock + rs[0].elapsed;
      Reached(Decide(s, g, p, rs[0].key, now, true).0, g, p, now, rs[1..])
  }

  ghost predicate AddressWithin(g: Policy, p: Policy, before: seq<Request<Address>>, window: seq<Request<Address>>,
                                key: Address)
  {
    var s, clock := Reached(New(g), g, p, 1, before), ClockAfter(1, before);
    AllowedFor(window, Answers(s, g, p, clock, window, true), key) as real <=
    p.burst as real + Earned(p.rate, ClockAfter(clock, window) - clock)
  }

  /** In every window of every run at most burst + rate * elapsed requests of each address pass. */
  ghost predicate AddressBoundHolds(g: Policy, p: Policy) {
    forall before: seq<Request<Address>>, window: seq<Request<Address>>, key: Address ::
      AddressWithin(g, p, before, window, key)
  }

  lemma {:induction false} ReachedKept(s: State, g: Policy, p: Policy, clock: Time, rs: seq<Request<Address>>)
    requires p.rate >= 0.0 && 0 < clock && TableKept(s.table, p, clock)
    ensures clock <= ClockAfter(clock, rs) && TableKept(Reached(s, g, p, clock, rs).table, p, ClockAfter(clock, rs))
    decreases |rs|
  {
    hide Charge, Kept, Refill;
    if rs != [] {
      var now := clock + rs[0].elapsed;
      ChargeKeeps(s.table, p, rs[0].key, clock, now, true);
      TableLater(s.table, p, clock, now);
      ReachedKept(Decide(s, g, p, rs[0].key, now, true).0, g, p, now, rs[1..]);
    }
  }

  /** A global bucket that holds a token for every request changes no answer. */
  lemma {:induction false} AmpleGlobal(s: State, g: Policy, p: Policy, clock: Time, rs: seq<Request<Address>>)
    requires g.rate >= 0.0 && 0 < clock && Kept(s.global, g, clock) && TokensAt(s.global, g, clock) >= |rs| as real
    ensures Answers(s, g, p, clock, rs, true) == Decisions(s.table, p, clock, rs, true)
    decreases |rs|
  {
    hide Charge, Kept, Earned, TokensAt;
    if rs != [] {
      var now := clock + rs[0].elapsed;
      GlobalServes(s.global, g, clock, now);
      var next := Decide(s, g, p, rs[0].key, now, true).0;
      AmpleGlobal(next, g, p, now, rs[1..]);
    }
  }

  /** Waiting takes nothing from the bucket, and serving takes one. */
  lemma GlobalServes(b: Bucket, g: Policy, clock: Time, now: Time)
    requires g.rate >= 0.0 && 0 < clock <= now && Kept(b, g, clock) && TokensAt(b, g, clock) >= 1.0
    ensures var refilled := Refill(b, g.rate, g.burst, now);
      && refilled.tokens >= TokensAt(b, g, clock)
      && Kept(refilled, g, now) && TokensAt(refilled, g, now) == refilled.tokens
      && Kept(Charged(refilled, now), g, now) && TokensAt(Charged(refilled, now), g, now) == refilled.tokens - 1.0
  {
    hide Earned;
    RefillKeeps(b, g, clock, now);
    RefillKeeps(b, g, clock, clock);
    EarnedGrows(g.rate, clock - b.last, now - b.last);
    ChargedKept(Refill(b, g.rate, g.burst, now), g, now);
  }

  lemma GlobalRate(perSecond: nat, burst: nat)
    ensures PerSecond(perSecond, burst).rate >= 0.0
  {
  }

  /** The global bucket pays exactly for what passes. */
  lemma GlobalPaysExactly(s: State, g: Policy, p: Policy, address: Address, clock: Time, now: Time)
    requires g.rate >= 0.0 && Kept(s.global, g, clock) && 0 < clock <= now
    ensures var (next, ok) := Decide(s, g, p, address, now, true);
      && Kept(next.global, g, now)
      && TokensAt(next.global, g, now) == TokensAt(s.global, g, now) - (if ok then 1.0 else 0.0)
  {
    hide Charge, Earned;
    RefillKeeps(s.global, g, clock, now);
    RefillTwice(s.global, g, clock, now, now);
    var refilled := Refill(s.global, g.rate, g.burst, now);
    if refilled.tokens >= 1.0 { GlobalServes(refilled, g, now, now); }
  }

  lemma TwoBurstsAnswered(g: Policy, p: Policy)
    requires g.rate >= 0.0 && p.burst >= 1 && g.burst >= 2 * p.burst + 1
    ensures var rs := TwoBursts(p.burst);
      && AllowedFor(rs, Answers(New(g), g, p, 1, rs, true), 0) == 2 * p.burst
      && ClockAfter(1, rs) == 1 + ENTRY_TTL + 1
  {
    hide Decisions, Answers, TwoBursts;
    TwoBurstsPass(p);
    NewBucketKept(g, 1);
    AmpleGlobal(New(g), g, p, 1, TwoBursts(p.burst));
  }

  /**
   Behind a global bucket that has room for two bursts, an address is bound by burst and rate in every window
   of every run if and only if the burst is earned back before an idle entry can be evicted.
   */
  lemma AddressBoundHoldsExactly(g: Policy, p: Policy)
    requires g.rate >= 0.0 && p.rate >= 0.0 && p.burst >= 1 && g.burst >= 2 * p.burst + 1
    ensures AddressBoundHolds(g, p) <==> p.burst as real <= Earned(p.rate, ENTRY_TTL + 1)
  {
    hide Earned, Answers, Reached, TokensAt, ClockAfter;
    if p.burst as real <= Earned(p.rate, ENTRY_TTL + 1) {
      AddressBoundIfEarned(g, p);
    } else {
      TwoBurstsAnswered(g, p);
      NoneAsked(g, p);
      assert !AddressWithin(g, p, [], TwoBursts(p.burst), 0);
    }
  }

  lemma NoneAsked(g: Policy, p: Policy)
    ensures Reached(New(g), g, p, 1, []) == New(g) && ClockAfter<Address>(1, []) == 1
  {
  }

  /** The forward half needs nothing of the global bucket. */
  lemma AddressBoundIfEarned(g: Policy, p: Policy)
    requires p.rate >= 0.0 && p.burst as real <= Earned(p.rate, ENTRY_TTL + 1)
    ensures AddressBoundHolds(g, p)
  {
    hide Earned, Answers, Reached, TokensAt, ClockAfter;
    forall before: seq<Request<Address>>, window: seq<Request<Address>>, key: Address
      ensures AddressWithin(g, p, before, window, key)
    {
      ReachedKept(New(g), g, p, 1, before);
      AddressBound(Reached(New(g), g, p, 1, before), g, p, p.rate, ClockAfter(1, before), window, key);
    }
  }

  /**
   With the default global policy, one request per minute and a burst of 11, which the configuration admits,
   22 requests of one address pass within ten minutes and a nanosecond, where burst and rate allow 21.
   */
  lemma TwentyTwoPass()
    ensures var g, p, rs := PerSecond(50, 100), PerMinute(1, 11), TwoBursts(11);
      && AllowedFor(rs, Answers(New(g), g, p, 1, rs, true), 0) == 22
      && 11.0 + Earned(p.rate, ClockAfter(1, rs) - 1) < 22.0
  {
    hide Earned, Answers, TwoBursts;
    TwoBurstsAnswered(PerSecond(50, 100), PerMinute(1, 11));
    JustPastTtl(1, 11);
  }

  lemma TableLater<K(!new)>(t: Table<K>, p: Policy, clock: Time, now: Time)
    requires TableKept(t, p, clock) && clock <= now
    ensures TableKept(t, p, now)
  {
    hide Kept;
    forall k | k in t.buckets ensures Kept(t.buckets[k], p, now) { KeptLater(t.buckets[k], p, clock, now); }
  }

  /** One request keeps both buckets' bounds and the capacity of the table. */
  lemma DecideKeeps(s: State, perSecond: nat, globalBurst: nat, perMinute: nat, burst: nat, address: Address,
                    clock: Time, now: Time)
    requires 0 < clock <= now && Kept(s.global, PerSecond(perSecond, globalBurst), clock)
    requires TableKept(s.table, PerMinute(perMinute, burst), clock) && |s.table.buckets| <= MAX_ENTRIES
    ensures var g, p := PerSecond(perSecond, globalBurst), PerMinute(perMinute, burst);
      var next := Decide(s, g, p, address, now, true).0;
      Kept(next.global, g, now) && TableKept(next.table, p, now) && |next.table.buckets| <= MAX_ENTRIES
  {
    hide Charge, Kept, Refill;
    var g, p := PerSecond(perSecond, globalBurst), PerMinute(perMinute, burst);
    RateNonNegative(perMinute, burst);
    DecideGlobal(s, g, p, address, clock, now);
    TableLater(s.table, p, clock, now);
    ChargeKeeps(s.table, p, address, clock, now, true);
    ChargeBounded(s.table, p, address, now);
  }

  // ----- The object -----

  function OrDefault(configured: int, default: nat): nat {
    if configured <= 0 then default else configured
  }

  class AuthenticationRateLimiter {
    const perMinute: nat
    const burst: nat
    const globalPerSecond: nat
    const globalBurst: nat
    var global: Bucket
    var clients: map<Address, Bucket>
    var authenticated: map<Id, Bucket>
    var nextSweep: Time
    var nextAuthSweep: Time

    constructor (ratePerMinute: int, rateBurst: int, globalRate: int, globalSize: int, now: Time)
      requires now > 0
      ensures Valid(now)
      ensures perMinute == if ratePerMinute <= 0 then 20 else ratePerMinute
      ensures burst == if rateBurst <= 0 then 10 else rateBurst
      ensures globalPerSecond == if globalRate <= 0 then 50 else globalRate
      ensures globalBurst == if globalSize <= 0 then 100 else globalSize
      ensures Value() == State(Bucket(globalBurst as real, now, now), Table(map[], now + SWEEP_INTERVAL))
      ensures AuthTable() == Table(map[], now + SWEEP_INTERVAL)
    {
      perMinute, burst := OrDefault(ratePerMinute, 20), OrDefault(rateBurst, 10);
      globalPerSecond, globalBurst := OrDefault(globalRate, 50), OrDefault(globalSize, 100);
      global := Bucket(OrDefault(globalSize, 100) as real, now, now);
      clients, authenticated := map[], map[];
      nextSweep, nextAuthSweep := now + SWEEP_INTERVAL, now + SWEEP_INTERVAL;
    }

    function Value(): State
      reads this
    {
      State(global, Table(clients, nextSweep))
    }

    function AuthTable(): Table<Id>
      reads this
    {
      Table(authenticated, nextAuthSweep)
    }

    ghost predicate Valid(clock: Time)
      reads this
    {
      && Kept(global, PerSecond(globalPerSecond, globalBurst), clock)
      && TableKept(Table(clients, nextSweep), PerMinute(perMinute, burst), clock) && |clients| <= MAX_ENTRIES
      && TableKept(AuthTable(), PerMinute(perMinute, burst), clock) && |authenticated| <= MAX_ENTRIES
    }

    /** sweepLocked: visit every entry and delete the stale ones, at most once per interval. */
    method SweepLocked(now: Time)
      modifies this`clients, this`nextSweep
      ensures Table(clients, nextSweep) == Swept(old(Table(clients, nextSweep)), now)
    {
      if now < nextSweep { return; }
      var before, rest := clients, clients.Keys;
      while rest != {}
        invariant rest <= before.Keys
        invariant clients == map a | a in before && (a in rest || !Stale(before[a], now)) :: before[a]
        decreases |rest|
      {
        var a :| a in rest;
        rest := rest - {a};
        if Stale(clients[a], now) { clients := clients - {a}; }
      }
      nextSweep := now + SWEEP_INTERVAL;
    }

    /** allow. */
    method Allow(address: Address, now: Time, ghost clock: Time) returns (ok: bool)
      requires Valid(clock) && 0 < clock <= now
      modifies this`global, this`clients, this`nextSweep
      ensures Valid(now)
      ensures (Value(), ok) ==
        Decide(old(Value()), PerSecond(globalPerSecond, globalBurst), PerMinute(perMinute, burst), address, now, true)
      ensures TokensAt(global, PerSecond(globalPerSecond, globalBurst), now) ==
              TokensAt(old(global), PerSecond(globalPerSecond, globalBurst), now) - (if ok then 1.0 else 0.0)
    {
      hide Swept, Refill, Kept, PerMinute, PerSecond;
      var g, p := PerSecond(globalPerSecond, globalBurst), PerMinute(perMinute, burst);
      DecideKeeps(Value(), globalPerSecond, globalBurst, perMinute, burst, address, clock, now);
      TableLater(AuthTable(), p, clock, now);
      PolicyBurst(perMinute, burst);
      GlobalRate(globalPerSecond, globalBurst);
      GlobalPaysExactly(Value(), g, p, address, clock, now);
      global := Refill(global, g.rate, g.burst, now);
      if global.tokens < 1.0 { return false; }
      var bucket;
      if address in clients {
        bucket := clients[address];
      } else {
        SweepLocked(now);
        if |clients| >= MAX_ENTRIES { return false; }
        bucket := Bucket(burst as real, now, now);
      }
      bucket := Refill(bucket, p.rate, p.burst, now);
      if bucket.tokens < 1.0 {
        clients := clients[address := bucket];
        return false;
      }
      global := global.(tokens := global.tokens - 1.0, lastSeen := now);
      bucket := bucket.(tokens := bucket.tokens - 1.0, lastSeen := now);
      clients := clients[address := bucket];
      return true;
    }

    method SweepAuthenticatedLocked(now: Time)
      modifies this`authenticated, this`nextAuthSweep
      ensures AuthTable() == Swept(old(AuthTable()), now)
    {
      if now < nextAuthSweep { return; }
      var before, rest := authenticated, authenticated.Keys;
      while rest != {}
        invariant rest <= before.Keys
        invariant authenticated == map a | a in before && (a in rest || !Stale(before[a], now)) :: before[a]
        decreases |rest|
      {
        var a :| a in rest;
        rest := rest - {a};
        if Stale(authenticated[a], now) { authenticated := authenticated - {a}; }
      }
      nextAuthSweep := now + SWEEP_INTERVAL;
    }

    /** allowClient: the bucket of an authenticated client, without charging the global one again. */
    method AllowClient(client: Id, now: Time, ghost clock: Time) returns (ok: bool)
      requires Valid(clock) && 0 < clock <= now
      modifies this`authenticated, this`nextAuthSweep
      ensures Valid(now)
      ensures client == NIL ==> ok && AuthTable() == old(AuthTable())
      ensures client != NIL ==>
              (AuthTable(), ok) == Charge(old(AuthTable()), PerMinute(perMinute, burst), client, now, true)
    {
      hide Swept, Refill, Kept, PerMinute, PerSecond;
      var p := PerMinute(perMinute, burst);
      RateNonNegative(perMinute, burst);
      PolicyBurst(perMinute, burst);
      TableLater(AuthTable(), p, clock, now);
      TableLater(Table(clients, nextSweep), p, clock, now);
      KeptLater(global, PerSecond(globalPerSecond, globalBurst), clock, now);
      ChargeKeeps(AuthTable(), p, client, clock, now, true);
      ChargeBounded(AuthTable(), p, client, now);
      if client == NIL { return true; }
      var bucket;
      if client in authenticated {
        bucket := authenticated[client];
      } else {
        SweepAuthenticatedLocked(now);
        if |authenticated| >= MAX_ENTRIES { return false; }
        bucket := Bucket(burst as real, now, now);
      }
      bucket := Refill(bucket, p.rate, p.burst, now);
      if bucket.tokens < 1.0 {
        authenticated := authenticated[client := bucket];
        return false;
      }
      bucket := bucket.(tokens := bucket.tokens - 1.0, lastSeen := now);
      authenticated := authenticated[client := bucket];
      return true;
    }
  }
}
