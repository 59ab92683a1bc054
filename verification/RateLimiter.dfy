/**
 The authentication rate limiter (auth_rate_limit.go): a global token bucket, one bucket per
 address or client, and lazy eviction of entries not charged for ten minutes. Token counts are
 real numbers; the clock never goes back.
 */
module RateLimiter {
  import opened Schema

  const MAX_ENTRIES: nat := 4096
  const ENTRY_TTL: Time := 10 * MINUTE
  const SWEEP_INTERVAL: Time := MINUTE

  datatype Bucket = Bucket(tokens: real, last: Time, lastSeen: Time)

  // ----- Refilling -----

  /** Tokens earned over an interval at a rate per nanosecond. */
  function Earned(rate: real, elapsed: int): real {
    elapsed as real * rate
  }

  lemma EarnedAdds(rate: real, a: int, b: int)
    ensures Earned(rate, a + b) == Earned(rate, a) + Earned(rate, b)
  {
  }

  lemma EarnedGrows(rate: real, a: int, b: int)
    requires rate >= 0.0 && a <= b
    ensures Earned(rate, a) <= Earned(rate, b)
    ensures a >= 0 ==> Earned(rate, a) >= 0.0
  {
    EarnedAdds(rate, a, b - a);
    ProductNonNegative((b - a) as real, rate);
    if a >= 0 { ProductNonNegative(a as real, rate); }
  }

  lemma ProductNonNegative(x: real, y: real)
    requires x >= 0.0 && y >= 0.0
    ensures x * y >= 0.0
  {
  }

  function Capped(tokens: real, burst: nat): real {
    if tokens > burst as real then burst as real else tokens
  }

  /** refillBucket. */
  function Refill(b: Bucket, rate: real, burst: nat, now: Time): Bucket {
    if b.last == 0 then Bucket(burst as real, now, now)
    else if now > b.last then Bucket(Capped(b.tokens + Earned(rate, now - b.last), burst), now, b.lastSeen)
    else b
  }

  /** A rate and burst as one of the limiter's tables uses them. */
  datatype Policy = Policy(rate: real, burst: nat)

  function PerMinute(perMinute: nat, burst: nat): Policy {
    Policy(perMinute as real / 60_000_000_000.0, burst)
  }

  /** Ten minutes earn ten times the per-minute rate. */
  lemma TenMinutes(perMinute: nat, burst: nat)
    ensures Earned(PerMinute(perMinute, burst).rate, ENTRY_TTL) == 10.0 * perMinute as real
  {
    assert ENTRY_TTL as real == 600_000_000_000.0;
  }

  /**
   A bucket as the limiter keeps it at `clock`: within bounds, and at least as full as refilling from
   empty since it last served would make it.
   */
  ghost predicate Kept(b: Bucket, p: Policy, clock: Time) {
    && 0 < b.lastSeen <= b.last <= clock
    && 0.0 <= b.tokens <= p.burst as real
    && (b.tokens >= p.burst as real || b.tokens >= Earned(p.rate, b.last - b.lastSeen))
  }

  /** What the bucket would hold at `now`. */
  function TokensAt(b: Bucket, p: Policy, now: Time): real {
    Refill(b, p.rate, p.burst, now).tokens
  }

  lemma RefillKeeps(b: Bucket, p: Policy, clock: Time, now: Time)
    requires p.rate >= 0.0 && Kept(b, p, clock) && clock <= now
    ensures Kept(Refill(b, p.rate, p.burst, now), p, now)
    ensures Refill(b, p.rate, p.burst, now).last == now || Refill(b, p.rate, p.burst, now) == b
    ensures Refill(b, p.rate, p.burst, now).lastSeen == b.lastSeen
  {
    hide Earned;
    EarnedGrows(p.rate, 0, now - b.last);
    EarnedAdds(p.rate, b.last - b.lastSeen, now - b.last);
  }

  /** Refilling in two steps is refilling in one. */
  lemma RefillTwice(b: Bucket, p: Policy, clock: Time, mid: Time, now: Time)
    requires p.rate >= 0.0 && Kept(b, p, clock) && clock <= mid <= now
    ensures TokensAt(Refill(b, p.rate, p.burst, mid), p, now) == TokensAt(b, p, now)
  {
    hide Earned;
    RefillKeeps(b, p, clock, mid);
    EarnedAdds(p.rate, mid - b.last, now - mid);
    EarnedGrows(p.rate, 0, now - mid);
    EarnedGrows(p.rate, 0, mid - b.last);
  }

  /** An entry that has not served for the whole TTL is full, when ten minutes earn at least the burst. */
  lemma IdleIsFull(b: Bucket, perMinute: nat, burst: nat, clock: Time, now: Time)
    requires burst <= 10 * perMinute
    requires Kept(b, PerMinute(perMinute, burst), clock) && clock <= now && b.lastSeen < now - ENTRY_TTL
    ensures TokensAt(b, PerMinute(perMinute, burst), now) == burst as real
  {
    hide Earned;
    var p := PerMinute(perMinute, burst);
    RateNonNegative(perMinute, burst);
    RefillKeeps(b, p, clock, now);
    TenMinutes(perMinute, burst);
    EarnedGrows(p.rate, ENTRY_TTL, now - b.lastSeen);
    EarnedAdds(p.rate, b.last - b.lastSeen, now - b.last);
  }

  lemma RateNonNegative(perMinute: nat, burst: nat)
    ensures PerMinute(perMinute, burst).rate >= 0.0
  {
  }

  // ----- One table of buckets -----

  datatype Table<!K> = Table(buckets: map<K, Bucket>, nextSweep: Time)

  predicate Stale(b: Bucket, now: Time) {
    b.lastSeen < now - ENTRY_TTL
  }

  function Swept<K>(t: Table<K>, now: Time): Table<K> {
    if now < t.nextSweep then t
    else Table(map k | k in t.buckets && !Stale(t.buckets[k], now) :: t.buckets[k], now + SWEEP_INTERVAL)
  }

  function Charged(b: Bucket, now: Time): Bucket {
    b.(tokens := b.tokens - 1.0, lastSeen := now)
  }

  /**
   What allow and allowClient do with one table: the new table and whether the request passes. With
   `evicting` false this is the reference limiter, which never evicts and has room for everyone.
   */
  function Charge<K>(t: Table<K>, p: Policy, key: K, now: Time, evicting: bool): (Table<K>, bool) {
    if key in t.buckets then Spend(t, p, key, Refill(t.buckets[key], p.rate, p.burst, now), now)
    else
      var swept := if evicting then Swept(t, now) else t;
      if evicting && |swept.buckets| >= MAX_ENTRIES then (swept, false)
      else Spend(swept, p, key, Refill(Bucket(p.burst as real, now, now), p.rate, p.burst, now), now)
  }

  function Spend<K>(t: Table<K>, p: Policy, key: K, b: Bucket, now: Time): (Table<K>, bool) {
    if b.tokens < 1.0 then (t.(buckets := t.buckets[key := b]), false)
    else (t.(buckets := t.buckets[key := Charged(b, now)]), true)
  }

  ghost predicate TableKept<K(!new)>(t: Table<K>, p: Policy, clock: Time) {
    forall k :: k in t.buckets ==> Kept(t.buckets[k], p, clock)
  }

  lemma KeptLater(b: Bucket, p: Policy, clock: Time, later: Time)
    requires Kept(b, p, clock) && clock <= later
    ensures Kept(b, p, later)
  {
  }

  lemma NewBucketKept(p: Policy, now: Time)
    requires now > 0 && p.rate >= 0.0
    ensures var b := Bucket(p.burst as real, now, now); Kept(b, p, now) && Refill(b, p.rate, p.burst, now) == b
  {
  }

  lemma ChargedKept(b: Bucket, p: Policy, now: Time)
    requires Kept(b, p, now) && b.last == now && b.tokens >= 1.0 && p.rate >= 0.0
    ensures Kept(Charged(b, now), p, now)
  {
  }

  lemma SweptShrinks<K(!new)>(t: Table<K>, now: Time)
    ensures Swept(t, now).buckets.Keys <= t.buckets.Keys && |Swept(t, now).buckets| <= |t.buckets|
    ensures forall k :: k in Swept(t, now).buckets ==> Swept(t, now).buckets[k] == t.buckets[k]
    ensures forall k :: k in t.buckets && k !in Swept(t, now).buckets ==> Stale(t.buckets[k], now)
  {
    SubsetSize(Swept(t, now).buckets.Keys, t.buckets.Keys);
  }

  /** The bucket a request meets. */
  function Met<K>(t: Table<K>, p: Policy, key: K, now: Time): Bucket {
    Refill(if key in t.buckets then t.buckets[key] else Bucket(p.burst as real, now, now), p.rate, p.burst, now)
  }

  lemma MetKept<K(!new)>(t: Table<K>, p: Policy, key: K, clock: Time, now: Time)
    requires p.rate >= 0.0 && TableKept(t, p, clock) && 0 < clock <= now
    ensures Kept(Met(t, p, key, now), p, now) && Met(t, p, key, now).last == now
  {
    if key in t.buckets {
      RefillKeeps(t.buckets[key], p, clock, now);
    } else {
      NewBucketKept(p, now);
    }
  }

  /** Charging keeps every bucket well formed. */
  lemma ChargeKeeps<K(!new)>(t: Table<K>, p: Policy, key: K, clock: Time, now: Time, evicting: bool)
    requires p.rate >= 0.0 && TableKept(t, p, clock) && 0 < clock <= now
    ensures TableKept(Charge(t, p, key, now, evicting).0, p, now)
  {
    hide Kept, Refill, Charged, Swept;
    SweptShrinks(t, now);
    forall k | k in t.buckets ensures Kept(t.buckets[k], p, now) { KeptLater(t.buckets[k], p, clock, now); }
    MetKept(t, p, key, clock, now);
    var b := Met(t, p, key, now);
    if b.tokens >= 1.0 { ChargedKept(b, p, now); }
  }

  lemma SizeWith<K, V>(m: map<K, V>, key: K, value: V)
    ensures |m[key := value]| == if key in m then |m| else |m| + 1
  {
    var after := m[key := value];
    assert after.Keys == m.Keys + {key};
    assert |after| == |after.Keys| && |m| == |m.Keys|;
    if key in m { assert m.Keys + {key} == m.Keys; }
  }

  /** The table never exceeds its capacity. */
  lemma ChargeBounded<K(!new)>(t: Table<K>, p: Policy, key: K, now: Time)
    requires |t.buckets| <= MAX_ENTRIES
    ensures |Charge(t, p, key, now, true).0.buckets| <= MAX_ENTRIES
  {
    hide Refill, Charged, Swept;
    SweptShrinks(t, now);
    var base := if key in t.buckets then t else Swept(t, now);
    var after := Charge(t, p, key, now, true).0;
    if after != base {
      assert after.buckets == base.buckets[key := after.buckets[key]];
      SizeWith(base.buckets, key, after.buckets[key]);
    }
  }

  // ----- Eviction is unobservable -----

  /** The evicting table agrees with the reference on every entry it has; what it lacks is full there. */
  ghost predicate Agrees<K(!new)>(t: Table<K>, ideal: Table<K>, p: Policy, clock: Time) {
    && TableKept(t, p, clock) && TableKept(ideal, p, clock)
    && (forall k :: k in t.buckets ==> k in ideal.buckets && ideal.buckets[k] == t.buckets[k])
    && (forall k :: k in ideal.buckets && k !in t.buckets ==> TokensAt(ideal.buckets[k], p, clock) == p.burst as real)
  }

  /** A full bucket stays full until it is charged. */
  lemma FullStays(b: Bucket, p: Policy, clock: Time, now: Time)
    requires p.rate >= 0.0 && Kept(b, p, clock) && clock <= now && TokensAt(b, p, clock) == p.burst as real
    ensures TokensAt(b, p, now) == p.burst as real
  {
    hide Earned;
    RefillTwice(b, p, clock, clock, now);
    RefillKeeps(b, p, clock, now);
    EarnedGrows(p.rate, clock - b.last, now - b.last);
  }

  predicate Room<K>(t: Table<K>, key: K, now: Time) {
    key in t.buckets || |Swept(t, now).buckets| < MAX_ENTRIES
  }

  /** Evicting at `now` loses nothing. */
  lemma SweepAgrees<K(!new)>(t: Table<K>, ideal: Table<K>, perMinute: nat, burst: nat, clock: Time, now: Time)
    requires burst <= 10 * perMinute && 0 < clock <= now
    requires Agrees(t, ideal, PerMinute(perMinute, burst), clock)
    ensures Agrees(Swept(t, now), ideal, PerMinute(perMinute, burst), now)
  {
    hide Kept, TokensAt, Swept;
    var p := PerMinute(perMinute, burst);
    RateNonNegative(perMinute, burst);
    SweptShrinks(t, now);
    PolicyBurst(perMinute, burst);
    hide PerMinute;
    forall k | k in ideal.buckets ensures Kept(ideal.buckets[k], p, now) { KeptLater(ideal.buckets[k], p, clock, now); }
    forall k | k in ideal.buckets && k !in Swept(t, now).buckets
      ensures TokensAt(ideal.buckets[k], p, now) == burst as real
    {
      if k in t.buckets {
        IdleIsFull(ideal.buckets[k], perMinute, burst, clock, now);
      } else {
        FullStays(ideal.buckets[k], p, clock, now);
      }
    }
  }

  lemma PolicyBurst(perMinute: nat, burst: nat)
    ensures PerMinute(perMinute, burst).burst == burst
  {
  }

  /** With room in the table, a request gets the same answer from both limiters, which keep agreeing. */
  lemma ChargeAgrees<K(!new)>(t: Table<K>, ideal: Table<K>, perMinute: nat, burst: nat, key: K, clock: Time, now: Time)
    requires 1 <= burst <= 10 * perMinute && 0 < clock <= now && Room(t, key, now)
    requires Agrees(t, ideal, PerMinute(perMinute, burst), clock)
    ensures var p := PerMinute(perMinute, burst);
      && Charge(t, p, key, now, true).1 == Charge(ideal, p, key, now, false).1
      && Agrees(Charge(t, p, key, now, true).0, Charge(ideal, p, key, now, false).0, p, now)
  {
    hide Earned, Kept, TokensAt, Swept, Refill;
    var p := PerMinute(perMinute, burst);
    RateNonNegative(perMinute, burst);
    PolicyBurst(perMinute, burst);
    hide PerMinute;
    SweepAgrees(t, ideal, perMinute, burst, clock, now);
    AgreesLater(t, ideal, p, clock, now);
    MetAgrees(t, ideal, p, key, clock, now);
    ChargeKeeps(t, p, key, clock, now, true);
    ChargeKeeps(ideal, p, key, clock, now, false);
    SweptShrinks(t, now);
  }

  lemma AgreesLater<K(!new)>(t: Table<K>, ideal: Table<K>, p: Policy, clock: Time, now: Time)
    requires p.rate >= 0.0 && Agrees(t, ideal, p, clock) && clock <= now
    ensures Agrees(t, ideal, p, now)
  {
    hide Kept, TokensAt;
    forall k | k in ideal.buckets ensures Kept(ideal.buckets[k], p, now) { KeptLater(ideal.buckets[k], p, clock, now); }
    forall k | k in ideal.buckets && k !in t.buckets
      ensures TokensAt(ideal.buckets[k], p, now) == p.burst as real
    {
      FullStays(ideal.buckets[k], p, clock, now);
    }
  }

  /** Both limiters meet the same tokens, and the same bucket once it is charged. */
  lemma MetAgrees<K(!new)>(t: Table<K>, ideal: Table<K>, p: Policy, key: K, clock: Time, now: Time)
    requires p.rate >= 0.0 && p.burst >= 1 && Agrees(t, ideal, p, clock) && 0 < clock <= now
    ensures var a, b := Met(t, p, key, now), Met(ideal, p, key, now);
      && a.tokens == b.tokens && a.last == b.last == now
      && (key in t.buckets ==> a == b) && (key !in t.buckets ==> a.tokens >= 1.0)
  {
    hide Earned, Kept;
    MetKept(t, p, key, clock, now);
    MetKept(ideal, p, key, clock, now);
    if key in ideal.buckets && key !in t.buckets {
      FullStays(ideal.buckets[key], p, clock, now);
    }
  }

  // ----- Runs of requests -----

  datatype Request<!K> = Request(key: K, elapsed: nat)

  function RunTable<K>(t: Table<K>, p: Policy, clock: Time, rs: seq<Request<K>>, evicting: bool): Table<K>
    decreases |rs|
  {
    if rs == [] then t
    else
      var now := clock + rs[0].elapsed;
      RunTable(Charge(t, p, rs[0].key, now, evicting).0, p, now, rs[1..], evicting)
  }

  function Decisions<K>(t: Table<K>, p: Policy, clock: Time, rs: seq<Request<K>>, evicting: bool): seq<bool>
    decreases |rs|
  {
    if rs == [] then []
    else
      var now := clock + rs[0].elapsed;
      var (next, ok) := Charge(t, p, rs[0].key, now, evicting);
      [ok] + Decisions(next, p, now, rs[1..], evicting)
  }

  function ClockAfter<K>(clock: Time, rs: seq<Request<K>>): Time
    decreases |rs|
  {
    if rs == [] then clock else ClockAfter(clock + rs[0].elapsed, rs[1..])
  }

  /** The table is never full when a new key arrives. */
  predicate AlwaysRoom<K>(t: Table<K>, p: Policy, clock: Time, rs: seq<Request<K>>)
    decreases |rs|
  {
    rs == [] ||
    var now := clock + rs[0].elapsed;
    Room(t, rs[0].key, now) && AlwaysRoom(Charge(t, p, rs[0].key, now, true).0, p, now, rs[1..])
  }

  /** Eviction is unobservable: the limiter answers every run as one that never evicts. */
  lemma {:induction false} EvictionUnobservable<K(!new)>(t: Table<K>, ideal: Table<K>, perMinute: nat, burst: nat,
                                                         clock: Time, rs: seq<Request<K>>)
    requires 1 <= burst <= 10 * perMinute && 0 < clock
    requires Agrees(t, ideal, PerMinute(perMinute, burst), clock)
    requires AlwaysRoom(t, PerMinute(perMinute, burst), clock, rs)
    ensures var p := PerMinute(perMinute, burst);
      Decisions(t, p, clock, rs, true) == Decisions(ideal, p, clock, rs, false)
    decreases |rs|
  {
    hide Agrees, Charge, PerMinute;
    if rs != [] {
      var p := PerMinute(perMinute, burst);
      var now := clock + rs[0].elapsed;
      ChargeAgrees(t, ideal, perMinute, burst, rs[0].key, clock, now);
      EvictionUnobservable(Charge(t, p, rs[0].key, now, true).0, Charge(ideal, p, rs[0].key, now, false).0,
                           perMinute, burst, now, rs[1..]);
    }
  }

  lemma {:induction false} TableNeverExceeds<K(!new)>(t: Table<K>, p: Policy, clock: Time, rs: seq<Request<K>>)
    requires |t.buckets| <= MAX_ENTRIES
    ensures |RunTable(t, p, clock, rs, true).buckets| <= MAX_ENTRIES
    decreases |rs|
  {
    hide Charge;
    if rs != [] {
      var now := clock + rs[0].elapsed;
      ChargeBounded(t, p, rs[0].key, now);
      TableNeverExceeds(Charge(t, p, rs[0].key, now, true).0, p, now, rs[1..]);
    }
  }

  lemma {:induction false} DecisionsLength<K>(t: Table<K>, p: Policy, clock: Time, rs: seq<Request<K>>, evicting: bool)
    ensures |Decisions(t, p, clock, rs, evicting)| == |rs|
    decreases |rs|
  {
    hide Charge;
    if rs != [] {
      var now := clock + rs[0].elapsed;
      DecisionsLength(Charge(t, p, rs[0].key, now, evicting).0, p, now, rs[1..], evicting);
    }
  }

  lemma TokensGrow(b: Bucket, p: Policy, clock: Time, now: Time)
    requires p.rate >= 0.0 && Kept(b, p, clock) && clock <= now
    ensures 0.0 <= TokensAt(b, p, now) <= p.burst as real
    ensures TokensAt(b, p, now) <= TokensAt(b, p, clock) + Earned(p.rate, now - clock)
  {
    hide Earned;
    RefillKeeps(b, p, clock, now);
    RefillKeeps(b, p, clock, clock);
    EarnedGrows(p.rate, 0, now - clock);
    EarnedGrows(p.rate, 0, clock - b.last);
    EarnedAdds(p.rate, clock - b.last, now - clock);
  }

  lemma EarnedZero(rate: real)
    ensures Earned(rate, 0) == 0.0
  {
  }

  // ----- When eviction is observable -----

  /** n requests of one key at once. */
  function Burst(key: nat, n: nat): seq<Request<nat>> {
    if n == 0 then [] else [Request(key, 0)] + Burst(key, n - 1)
  }

  lemma BurstHead(key: nat, n: nat)
    requires n > 0
    ensures |Burst(key, n)| > 0 && Burst(key, n)[0] == Request(key, 0) && Burst(key, n)[1..] == Burst(key, n - 1)
  {
  }

  /** n requests in a row passed. */
  function Passed(n: nat): seq<bool> {
    seq(n, i => true)
  }

  lemma PassedOnce(n: nat)
    requires n > 0
    ensures [true] + Passed(n - 1) == Passed(n)
  {
  }

  /** The table after `n` tokens of one bucket are spent. */
  function Drained(t: Table<nat>, key: nat, n: nat): Table<nat>
    requires key in t.buckets
  {
    var b := t.buckets[key];
    t.(buckets := t.buckets[key := b.(tokens := b.tokens - n as real)])
  }

  lemma DrainedNone(t: Table<nat>, key: nat)
    requires key in t.buckets
    ensures Drained(t, key, 0) == t
  {
    var b := t.buckets[key];
    assert t.buckets[key := b.(tokens := b.tokens - 0.0)] == t.buckets;
  }

  lemma DrainedOnce(t: Table<nat>, key: nat, n: nat)
    requires n > 0 && key in t.buckets
    ensures Drained(Drained(t, key, 1), key, n - 1) == Drained(t, key, n)
  {
    assert Drained(Drained(t, key, 1), key, n - 1).buckets == Drained(t, key, n).buckets;
  }

  lemma ServedNow(t: Table<nat>, p: Policy, key: nat, clock: Time, evicting: bool)
    requires clock > 0 && key in t.buckets && t.buckets[key].last == clock && t.buckets[key].lastSeen == clock
    requires t.buckets[key].tokens >= 1.0
    ensures Charge(t, p, key, clock, evicting) == (Drained(t, key, 1), true)
  {
    hide Earned;
  }

  /** Served at one instant, a bucket passes exactly as many requests as it holds whole tokens. */
  lemma {:induction false} BurstServes(t: Table<nat>, p: Policy, key: nat, clock: Time, n: nat, rest: seq<Request<nat>>,
                                       evicting: bool)
    requires clock > 0 && key in t.buckets && t.buckets[key].last == clock && t.buckets[key].tokens >= n as real
    requires n > 0 ==> t.buckets[key].lastSeen == clock
    ensures Decisions(t, p, clock, Burst(key, n) + rest, evicting) ==
            Passed(n) + Decisions(Drained(t, key, n), p, clock, rest, evicting)
    decreases n
  {
    hide Charge, Passed;
    if n == 0 {
      hide Drained;
      assert Burst(key, 0) + rest == rest;
      DrainedNone(t, key);
      PassedNone();
    } else {
      hide Burst;
      BurstHead(key, n);
      var rs := Burst(key, n) + rest;
      assert rs[0] == Request(key, 0) && rs[1..] == Burst(key, n - 1) + rest;
      var next := Drained(t, key, 1);
      ServedNow(t, p, key, clock, evicting);
      BurstServes(next, p, key, clock, n - 1, rest, evicting);
      DrainedOnce(t, key, n);
      PassedOnce(n);
      var end := Decisions(Drained(t, key, n), p, clock, rest, evicting);
      assert [true] + (Passed(n - 1) + end) == [true] + Passed(n - 1) + end;
    }
  }

  lemma PassedNone()
    ensures Passed(0) == []
  {
  }

  /** The tables of a limiter made at instant 1. */
  const FRESH: Table<nat> := Table(map[], 1 + SWEEP_INTERVAL)

  /** Key 0 drains its burst; just past the TTL key 1 triggers the sweep; key 0 asks again. */
  function Witness(perMinute: nat, burst: nat): seq<Request<nat>> {
    Burst(0, burst) + ([Request(1, ENTRY_TTL + 1)] + Burst(0, 10 * perMinute + 1))
  }

  lemma FirstCharge(p: Policy, evicting: bool)
    requires p.burst >= 1
    ensures Charge(FRESH, p, 0, 1, evicting) == (FRESH.(buckets := map[0 := Bucket(p.burst as real - 1.0, 1, 1)]), true)
  {
    assert Swept(FRESH, 1) == FRESH;
  }

  /** After the drain both limiters hold an empty bucket for key 0. */
  lemma DrainFirst(p: Policy, rest: seq<Request<nat>>, evicting: bool)
    requires p.burst >= 1
    ensures Decisions(FRESH, p, 1, Burst(0, p.burst) + rest, evicting) ==
      Passed(p.burst) + Decisions(FRESH.(buckets := map[0 := Bucket(0.0, 1, 1)]), p, 1, rest, evicting)
  {
    hide Charge, Burst, Passed;
    var n := p.burst;
    BurstHead(0, n);
    var rs := Burst(0, n) + rest;
    assert rs[0] == Request(0, 0) && rs[1..] == Burst(0, n - 1) + rest;
    var first := FRESH.(buckets := map[0 := Bucket(n as real - 1.0, 1, 1)]);
    FirstCharge(p, evicting);
    assert Decisions(FRESH, p, 1, rs, evicting) == [true] + Decisions(first, p, 1, Burst(0, n - 1) + rest, evicting);
    BurstServes(first, p, 0, 1, n - 1, rest, evicting);
    assert first.buckets[0].(tokens := first.buckets[0].tokens - (n - 1) as real) == Bucket(0.0, 1, 1);
    assert first.buckets[0 := Bucket(0.0, 1, 1)] == map[0 := Bucket(0.0, 1, 1)];
    PassedOnce(n);
    var end := Decisions(FRESH.(buckets := map[0 := Bucket(0.0, 1, 1)]), p, 1, rest, evicting);
    assert [true] + (Passed(n - 1) + end) == [true] + Passed(n - 1) + end;
  }

  lemma JustPastTtl(perMinute: nat, burst: nat)
    requires 1 <= perMinute <= 60_000
    ensures var p := PerMinute(perMinute, burst);
      10.0 * perMinute as real <= Earned(p.rate, ENTRY_TTL + 1) < 10.0 * perMinute as real + 1.0
  {
    var p := PerMinute(perMinute, burst);
    TenMinutes(perMinute, burst);
    EarnedAdds(p.rate, ENTRY_TTL, 1);
    assert 0.0 <= Earned(p.rate, 1) < 1.0;
  }

  /** The idle key's bucket is swept before key 1 is charged, and key 0 then starts with a full burst. */
  lemma SweptCharges(p: Policy, now: Time)
    requires p.burst >= 1 && now == 1 + ENTRY_TTL + 1
    ensures var served := Bucket(p.burst as real - 1.0, now, now);
      var second: Table<nat> := Table(map[1 := served], now + SWEEP_INTERVAL);
      && Charge(FRESH.(buckets := map[0 := Bucket(0.0, 1, 1)]), p, 1, now, true) == (second, true)
      && Charge(second, p, 0, now, true) == (Table(map[1 := served][0 := served], now + SWEEP_INTERVAL), true)
  {
    hide Earned;
    var t := FRESH.(buckets := map[0 := Bucket(0.0, 1, 1)]);
    assert Swept(t, now).buckets == map[];
  }

  /** The evicting limiter forgot key 0 and passes up to a burst of its new requests. */
  lemma EvictingPasses(p: Policy, n: nat)
    requires 1 <= n <= p.burst
    ensures var t := FRESH.(buckets := map[0 := Bucket(0.0, 1, 1)]);
      Decisions(t, p, 1, [Request(1, ENTRY_TTL + 1)] + Burst(0, n), true) == [true] + Passed(n)
  {
    hide Charge, Burst, Passed, Drained, Earned;
    var now := 1 + ENTRY_TTL + 1;
    var again := Burst(0, n);
    var rs := [Request(1, ENTRY_TTL + 1)] + again;
    assert rs[1..] == again;
    BurstHead(0, n);
    SweptCharges(p, now);
    var served := Bucket(p.burst as real - 1.0, now, now);
    var third: Table<nat> := Table(map[1 := served][0 := served], now + SWEEP_INTERVAL);
    BurstServes(third, p, 0, now, n - 1, [], true);
    assert Burst(0, n - 1) + [] == Burst(0, n - 1);
    assert Decisions(third, p, now, Burst(0, n - 1), true) == Passed(n - 1) + [];
    assert Passed(n - 1) + [] == Passed(n - 1);
    PassedOnce(n);
    var second: Table<nat> := Table(map[1 := served], now + SWEEP_INTERVAL);
    assert again[0].key == 0 && now + again[0].elapsed == now && again[1..] == Burst(0, n - 1);
    assert Charge(second, p, 0, now, true) == (third, true);
    assert Decisions(second, p, now, again, true) == [true] + Decisions(third, p, now, again[1..], true);
  }

  /** Key 1 finds room, and key 0 still holds what it earned since its drain. */
  lemma ReferenceCharges(p: Policy, now: Time, held: real)
    requires p.burst >= 1 && now == 1 + ENTRY_TTL + 1
    requires held == Earned(p.rate, ENTRY_TTL + 1) && 1.0 <= held <= p.burst as real
    ensures var t := FRESH.(buckets := map[0 := Bucket(0.0, 1, 1)]);
      var second := t.(buckets := t.buckets[1 := Bucket(p.burst as real - 1.0, now, now)]);
      && Charge(t, p, 1, now, false) == (second, true)
      && Charge(second, p, 0, now, false) ==
         (second.(buckets := second.buckets[0 := Bucket(held - 1.0, now, now)]), true)
  {
    hide Earned;
  }

  lemma NothingLeft(t: Table<nat>, p: Policy, now: Time)
    requires now > 0 && 0 in t.buckets && t.buckets[0].last == now && t.buckets[0].tokens < 1.0
    ensures Decisions(t, p, now, [Request(0, 0)], false) == [false]
  {
    hide Earned;
    assert [Request(0, 0)][1..] == [];
  }

  /** The reference limiter remembers it and refuses the last one. */
  lemma ReferenceRefuses(perMinute: nat, burst: nat)
    requires 1 <= perMinute <= 60_000 && burst > 10 * perMinute
    ensures var p := PerMinute(perMinute, burst);
      var t := FRESH.(buckets := map[0 := Bucket(0.0, 1, 1)]);
      Decisions(t, p, 1, [Request(1, ENTRY_TTL + 1)] + Burst(0, 10 * perMinute + 1), false) ==
      [true] + Passed(10 * perMinute) + [false]
  {
    hide Charge, Burst, Passed, Earned;
    var p, n := PerMinute(perMinute, burst), 10 * perMinute;
    JustPastTtl(perMinute, burst);
    PolicyBurst(perMinute, burst);
    hide PerMinute;
    var t := FRESH.(buckets := map[0 := Bucket(0.0, 1, 1)]);
    var now := 1 + ENTRY_TTL + 1;
    var held := Earned(p.rate, ENTRY_TTL + 1);
    var rs := [Request(1, ENTRY_TTL + 1)] + Burst(0, n + 1);
    assert rs[1..] == Burst(0, n + 1);
    BurstHead(0, n + 1);
    ReferenceCharges(p, now, held);
    var second := t.(buckets := t.buckets[1 := Bucket(burst as real - 1.0, now, now)]);
    var third := second.(buckets := second.buckets[0 := Bucket(held - 1.0, now, now)]);
    LastOne(n);
    BurstServes(third, p, 0, now, n - 1, [Request(0, 0)], false);
    NothingLeft(Drained(third, 0, n - 1), p, now);
    PassedOnce(n);
    assert [true] + (Passed(n - 1) + [false]) == [true] + Passed(n - 1) + [false];
    assert [true] + (Passed(n) + [false]) == [true] + Passed(n) + [false];
  }

  lemma {:induction false} LastOne(n: nat)
    requires n >= 1
    ensures Burst(0, n) == Burst(0, n - 1) + [Request(0, 0)]
  {
    if n > 1 {
      LastOne(n - 1);
      assert [Request(0, 0)] + (Burst(0, n - 2) + [Request(0, 0)]) ==
             ([Request(0, 0)] + Burst(0, n - 2)) + [Request(0, 0)];
    } else {
      assert Burst(0, 1) == [Request(0, 0)];
    }
  }

  /** With a burst that ten minutes do not earn, eviction is observable. */
  lemma EvictionObservable(perMinute: nat, burst: nat)
    requires 1 <= perMinute <= 60_000 && burst > 10 * perMinute
    ensures var p, rs := PerMinute(perMinute, burst), Witness(perMinute, burst);
      Decisions(FRESH, p, 1, rs, true) != Decisions(FRESH, p, 1, rs, false)
  {
    hide Charge, Decisions, PerMinute, Burst, Passed, Earned;
    var p, n := PerMinute(perMinute, burst), 10 * perMinute;
    var rest := [Request(1, ENTRY_TTL + 1)] + Burst(0, n + 1);
    PolicyBurst(perMinute, burst);
    DrainFirst(p, rest, true);
    DrainFirst(p, rest, false);
    EvictingPasses(p, n + 1);
    ReferenceRefuses(perMinute, burst);
    LastAnswerDiffers(burst, n);
  }

  lemma LastAnswerDiffers(a: nat, n: nat)
    ensures Passed(a) + ([true] + Passed(n + 1)) != Passed(a) + ([true] + Passed(n) + [false])
  {
    var x, y := Passed(a) + ([true] + Passed(n + 1)), Passed(a) + ([true] + Passed(n) + [false]);
    assert x[a + n + 1] == true && y[a + n + 1] == false;
  }

  // ----- The exact condition -----

  predicate KeysBelow(rs: seq<Request<nat>>, n: nat) {
    forall i :: 0 <= i < |rs| ==> rs[i].key < n
  }

  lemma {:induction false} BelowSize(keys: set<nat>, n: nat)
    requires forall k :: k in keys ==> k < n
    ensures |keys| <= n
  {
    if n > 0 {
      var smaller := keys - {n - 1};
      BelowSize(smaller, n - 1);
      if n - 1 in keys { assert keys == smaller + {n - 1}; } else { assert keys == smaller; }
    } else {
      assert keys == {};
    }
  }

  /** With few different keys there is always room. */
  lemma {:induction false} FewKeysFit(t: Table<nat>, p: Policy, clock: Time, rs: seq<Request<nat>>, n: nat)
    requires n < MAX_ENTRIES && KeysBelow(rs, n) && (forall k :: k in t.buckets ==> k < n)
    ensures AlwaysRoom(t, p, clock, rs)
    decreases |rs|
  {
    hide Refill, Charged, Swept;
    if rs != [] {
      var now := clock + rs[0].elapsed;
      SweptShrinks(t, now);
      BelowSize(Swept(t, now).buckets.Keys, n);
      assert rs[0].key < n;
      assert KeysBelow(rs[1..], n) by { assert forall i :: 0 <= i < |rs[1..]| ==> rs[1..][i] == rs[i + 1]; }
      FewKeysFit(Charge(t, p, rs[0].key, now, true).0, p, now, rs[1..], n);
    }
  }

  lemma {:induction false} BurstKeys(n: nat)
    ensures KeysBelow(Burst(0, n), 2)
  {
    if n > 0 { BurstKeys(n - 1); }
  }

  /** Same answers as a limiter that never evicts, on every run with room in the table. */
  ghost predicate Unobservable(perMinute: nat, burst: nat) {
    var p := PerMinute(perMinute, burst);
    forall rs :: AlwaysRoom(FRESH, p, 1, rs) ==> Decisions(FRESH, p, 1, rs, true) == Decisions(FRESH, p, 1, rs, false)
  }

  /** Eviction is unobservable exactly when ten minutes earn the whole burst; the configuration also admits others. */
  lemma UnobservableExactly(perMinute: nat, burst: nat)
    requires 1 <= perMinute <= 60_000 && 1 <= burst
    ensures Unobservable(perMinute, burst) <==> burst <= 10 * perMinute
  {
    var p := PerMinute(perMinute, burst);
    if burst <= 10 * perMinute {
      forall rs | AlwaysRoom(FRESH, p, 1, rs)
        ensures Decisions(FRESH, p, 1, rs, true) == Decisions(FRESH, p, 1, rs, false)
      {
        EvictionUnobservable(FRESH, FRESH, perMinute, burst, 1, rs);
      }
    } else {
      EvictionObservable(perMinute, burst);
      BurstKeys(burst);
      BurstKeys(10 * perMinute + 1);
      FewKeysFit(FRESH, p, 1, Witness(perMinute, burst), 2);
    }
  }
}
