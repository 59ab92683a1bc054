/**
 How many requests of one key a table of the rate limiter passes in a window. The bound by burst and
 rate holds exactly when the burst is earned back before an idle entry can be evicted; a bound by a
 steeper rate always holds.
 */
module WindowBounds {
  import opened Schema
  import opened RateLimiter

  function AllowedFor<K(==)>(rs: seq<Request<K>>, decisions: seq<bool>, key: K): nat
    requires |rs| == |decisions|
  {
    if rs == [] then 0
    else (if rs[0].key == key && decisions[0] then 1 else 0) + AllowedFor(rs[1..], decisions[1..], key)
  }

  // ----- Potentials -----

  /** A rate at least the policy's own, at which the burst is earned by the time an idle entry can be evicted. */
  predicate Steep(p: Policy, steep: real) {
    0.0 <= p.rate <= steep && p.burst as real <= Earned(steep, ENTRY_TTL + 1)
  }

  function Larger(a: real, b: real): real {
    if a >= b then a else b
  }

  /** A bucket's content, or what the steep rate has earned since it last served, up to the burst. */
  function BucketPotential(b: Bucket, p: Policy, steep: real, now: Time): real {
    Larger(TokensAt(b, p, now), Capped(Earned(steep, now - b.lastSeen), p.burst))
  }

  /** The same for a key, which without a bucket can spend a full burst. */
  function Potential<K>(t: Table<K>, p: Policy, steep: real, key: K, now: Time): real {
    if key in t.buckets then BucketPotential(t.buckets[key], p, steep, now) else p.burst as real
  }

  lemma EarnedSteeper(rate: real, steep: real, elapsed: int)
    requires rate <= steep && elapsed >= 0
    ensures Earned(rate, elapsed) <= Earned(steep, elapsed)
  {
    ProductNonNegative(elapsed as real, steep - rate);
    assert Earned(steep, elapsed) - Earned(rate, elapsed) == elapsed as real * (steep - rate);
  }

  lemma PotentialGrows(b: Bucket, p: Policy, steep: real, clock: Time, now: Time)
    requires Steep(p, steep) && Kept(b, p, clock) && clock <= now
    ensures 0.0 <= BucketPotential(b, p, steep, now) <= p.burst as real
    ensures BucketPotential(b, p, steep, now) <= BucketPotential(b, p, steep, clock) + Earned(steep, now - clock)
  {
    hide Earned, TokensAt, Steep;
    SteepFacts(p, steep);
    TokensGrow(b, p, clock, now);
    EarnedSteeper(p.rate, steep, now - clock);
    EarnedAdds(steep, clock - b.lastSeen, now - clock);
    EarnedGrows(steep, 0, now - clock);
    EarnedGrows(steep, 0, now - b.lastSeen);
  }

  lemma SteepFacts(p: Policy, steep: real)
    requires Steep(p, steep)
    ensures 0.0 <= p.rate <= steep
  {
  }

  /** At the policy's own rate the potential of a bucket is its content. */
  lemma PotentialIsContent(b: Bucket, p: Policy, clock: Time)
    requires p.rate >= 0.0 && Kept(b, p, clock)
    ensures BucketPotential(b, p, p.rate, clock) == TokensAt(b, p, clock)
  {
    hide Earned;
    RefillKeeps(b, p, clock, clock);
    EarnedAdds(p.rate, b.last - b.lastSeen, clock - b.last);
    EarnedGrows(p.rate, 0, clock - b.last);
  }

  /** An entry that may be evicted has the potential of one that is not there. */
  lemma StaleHasAll(b: Bucket, p: Policy, steep: real, clock: Time, now: Time)
    requires Steep(p, steep) && Kept(b, p, clock) && clock <= now && Stale(b, now)
    ensures BucketPotential(b, p, steep, now) == p.burst as real
  {
    hide Earned, TokensAt;
    TokensGrow(b, p, clock, now);
    EarnedGrows(steep, ENTRY_TTL + 1, now - b.lastSeen);
  }

  /** The bucket a request meets has its key's potential, and passing one request takes one from it. */
  lemma MetPotential<K(!new)>(t: Table<K>, p: Policy, steep: real, key: K, clock: Time, now: Time)
    requires Steep(p, steep) && TableKept(t, p, clock) && 0 < clock <= now
    ensures var b := Met(t, p, key, now);
      && BucketPotential(b, p, steep, now) <= Potential(t, p, steep, key, now)
      && (b.tokens >= 1.0 ==>
            BucketPotential(Charged(b, now), p, steep, now) + 1.0 <= Potential(t, p, steep, key, now))
  {
    hide Earned, Steep;
    SteepFacts(p, steep);
    EarnedZero(steep);
    MetKept(t, p, key, clock, now);
    if key in t.buckets { RefillTwice(t.buckets[key], p, clock, now, now); }
  }

  /** One request: a key's potential grows at most by what the interval earns, less what was allowed. */
  lemma ChargeSpends<K(!new)>(t: Table<K>, p: Policy, steep: real, asked: K, key: K, clock: Time, now: Time)
    requires Steep(p, steep) && 0 < clock <= now && TableKept(t, p, clock)
    ensures var (next, ok) := Charge(t, p, asked, now, true);
      Potential(next, p, steep, key, now) + (if asked == key && ok then 1.0 else 0.0) <=
      Potential(t, p, steep, key, clock) + Earned(steep, now - clock)
  {
    hide Earned, Kept, Swept, Refill, BucketPotential, Steep, Charged;
    SteepFacts(p, steep);
    SweptShrinks(t, now);
    EarnedGrows(steep, 0, now - clock);
    EarnedZero(steep);
    if key in t.buckets {
      PotentialGrows(t.buckets[key], p, steep, clock, now);
      if key !in Swept(t, now).buckets { StaleHasAll(t.buckets[key], p, steep, clock, now); }
    }
    if asked == key { MetPotential(t, p, steep, key, clock, now); }
  }

  // ----- The bound -----

  /**
   In any window of any table, also a full one, a key is allowed at most its potential and what a steep rate
   earns over the window; and its potential is at most the burst.
   */
  lemma {:induction false} WindowBound<K(!new)>(t: Table<K>, p: Policy, steep: real, clock: Time, rs: seq<Request<K>>,
                                                key: K)
    requires Steep(p, steep) && 0 < clock && TableKept(t, p, clock)
    ensures var decisions := Decisions(t, p, clock, rs, true);
      && |decisions| == |rs|
      && AllowedFor(rs, decisions, key) as real <=
         Potential(t, p, steep, key, clock) + Earned(steep, ClockAfter(clock, rs) - clock)
      && Potential(t, p, steep, key, clock) <= p.burst as real
    decreases |rs|
  {
    hide Earned, Charge, Kept, BucketPotential, Steep;
    DecisionsLength(t, p, clock, rs, true);
    if key in t.buckets { PotentialGrows(t.buckets[key], p, steep, clock, clock); }
    if rs == [] {
      SteepFacts(p, steep);
      EarnedZero(steep);
      if key in t.buckets { PotentialGrows(t.buckets[key], p, steep, clock, clock); }
    } else {
      var now := clock + rs[0].elapsed;
      var next := Charge(t, p, rs[0].key, now, true).0;
      SteepFacts(p, steep);
      ChargeKeeps(t, p, rs[0].key, clock, now, true);
      ChargeSpends(t, p, steep, rs[0].key, key, clock, now);
      WindowBound(next, p, steep, now, rs[1..], key);
      EarnedAdds(steep, now - clock, ClockAfter(now, rs[1..]) - now);
      var decisions := Decisions(t, p, clock, rs, true);
      assert decisions[1..] == Decisions(next, p, now, rs[1..], true);
    }
  }

  /** The policy's own rate, or the one that earns the burst in the time an idle entry is kept. */
  function SteepRate(p: Policy): real {
    Larger(p.rate, p.burst as real / (ENTRY_TTL + 1) as real)
  }

  lemma SteepRateIsSteep(p: Policy)
    requires p.rate >= 0.0
    ensures Steep(p, SteepRate(p))
  {
    var kept := (ENTRY_TTL + 1) as real;
    var own := p.burst as real / kept;
    assert own * kept == p.burst as real;
    EarnedSteeper(own, SteepRate(p), ENTRY_TTL + 1);
  }

  /** Without any condition on the policy: at most the burst and what the steeper of the two rates earns. */
  lemma WindowBoundAlways<K(!new)>(t: Table<K>, p: Policy, clock: Time, rs: seq<Request<K>>, key: K)
    requires p.rate >= 0.0 && 0 < clock && TableKept(t, p, clock)
    ensures var decisions := Decisions(t, p, clock, rs, true);
      && |decisions| == |rs|
      && AllowedFor(rs, decisions, key) as real <= p.burst as real + Earned(SteepRate(p), ClockAfter(clock, rs) - clock)
  {
    hide Decisions, Earned, Steep, Potential, SteepRate;
    SteepRateIsSteep(p);
    WindowBound(t, p, SteepRate(p), clock, rs, key);
  }

  // ----- Exactly when the policy's own rate bounds it -----

  /** What a window of a run from a new limiter is allowed by burst and rate. */
  ghost predicate Within(p: Policy, before: seq<Request<nat>>, window: seq<Request<nat>>, key: nat) {
    var t, clock := RunTable(FRESH, p, 1, before, true), ClockAfter(1, before);
    var decisions := Decisions(t, p, clock, window, true);
    |decisions| == |window| &&
    AllowedFor(window, decisions, key) as real <= p.burst as real + Earned(p.rate, ClockAfter(clock, window) - clock)
  }

  /** In every window of every run each key is allowed at most burst + rate * elapsed requests. */
  ghost predicate BoundHolds(p: Policy) {
    forall before: seq<Request<nat>>, window: seq<Request<nat>>, key: nat :: Within(p, before, window, key)
  }

  lemma {:induction false} RunKept(t: Table<nat>, p: Policy, clock: Time, rs: seq<Request<nat>>)
    requires p.rate >= 0.0 && 0 < clock && TableKept(t, p, clock)
    ensures clock <= ClockAfter(clock, rs) && TableKept(RunTable(t, p, clock, rs, true), p, ClockAfter(clock, rs))
    decreases |rs|
  {
    hide Charge, Kept;
    if rs != [] {
      var now := clock + rs[0].elapsed;
      ChargeKeeps(t, p, rs[0].key, clock, now, true);
      RunKept(Charge(t, p, rs[0].key, now, true).0, p, now, rs[1..]);
    }
  }

  /** Key 0 drains its burst, key 1 triggers the sweep just past the TTL, and key 0 drains a new one. */
  function TwoBursts(burst: nat): seq<Request<nat>> {
    Burst(0, burst) + ([Request(1, ENTRY_TTL + 1)] + Burst(0, burst))
  }

  lemma {:induction false} BurstAllowed(n: nat, rest: seq<Request<nat>>, ds: seq<bool>, clock: Time)
    requires |rest| == |ds|
    ensures |Burst(0, n) + rest| == |Passed(n) + ds|
    ensures AllowedFor(Burst(0, n) + rest, Passed(n) + ds, 0) == n + AllowedFor(rest, ds, 0)
    ensures ClockAfter(clock, Burst(0, n) + rest) == ClockAfter(clock, rest)
  {
    if n == 0 {
      assert Burst(0, 0) + rest == rest && Passed(0) + ds == ds;
    } else {
      BurstAllowed(n - 1, rest, ds, clock);
      PassedOnce(n);
      BurstHead(0, n);
      var rs, all := Burst(0, n) + rest, Passed(n) + ds;
      assert rs[0] == Request(0, 0) && rs[1..] == Burst(0, n - 1) + rest;
      assert all[0] && all[1..] == Passed(n - 1) + ds;
    }
  }

  /** Twice the burst passes within one TTL and a nanosecond. */
  lemma TwoBurstsPass(p: Policy)
    requires p.burst >= 1
    ensures var rs := TwoBursts(p.burst);
      var decisions := Decisions(FRESH, p, 1, rs, true);
      && |decisions| == |rs| == 2 * p.burst + 1
      && AllowedFor(rs, decisions, 0) == 2 * p.burst
      && ClockAfter(1, rs) == 1 + ENTRY_TTL + 1
  {
    hide Decisions, Burst, Passed;
    var n := p.burst;
    var second := [Request(1, ENTRY_TTL + 1)] + Burst(0, n);
    DrainFirst(p, second, true);
    EvictingPasses(p, n);
    BurstSize(n);
    var now := 1 + ENTRY_TTL + 1;
    BurstAllowed(n, [], [], now);
    assert Burst(0, n) + [] == Burst(0, n) && Passed(n) + [] == Passed(n);
    var ds := [true] + Passed(n);
    assert second[1..] == Burst(0, n) && ds[1..] == Passed(n);
    BurstAllowed(n, second, ds, 1);
  }

  lemma {:induction false} BurstSize(n: nat)
    ensures |Burst(0, n)| == n == |Passed(n)|
  {
    if n > 0 { BurstSize(n - 1); }
  }

  /**
   The bound by burst and rate holds in every window of every run if and only if the burst is earned back in
   the TTL and a nanosecond, after which an idle entry can be evicted.
   */
  lemma BoundHoldsExactly(p: Policy)
    requires p.burst >= 1 && p.rate >= 0.0
    ensures BoundHolds(p) <==> p.burst as real <= Earned(p.rate, ENTRY_TTL + 1)
  {
    hide Earned, Decisions, RunTable, TokensAt, ClockAfter;
    if p.burst as real <= Earned(p.rate, ENTRY_TTL + 1) {
      forall before: seq<Request<nat>>, window: seq<Request<nat>>, key: nat
        ensures Within(p, before, window, key)
      {
        RunKept(FRESH, p, 1, before);
        WindowBound(RunTable(FRESH, p, 1, before, true), p, p.rate, ClockAfter(1, before), window, key);
      }
    } else {
      TwoBurstsPass(p);
      NoRequests(p);
      assert !Within(p, [], TwoBursts(p.burst), 0);
    }
  }

  lemma NoRequests(p: Policy)
    ensures RunTable(FRESH, p, 1, [], true) == FRESH && ClockAfter<nat>(1, []) == 1
  {
  }

  /** For the rates the configuration admits, that is a burst of at most ten times the per-minute rate. */
  lemma BoundHoldsPerMinute(perMinute: nat, burst: nat)
    requires 1 <= perMinute <= 60_000 && 1 <= burst
    ensures BoundHolds(PerMinute(perMinute, burst)) <==> burst <= 10 * perMinute
  {
    hide BoundHolds, Earned;
    RateNonNegative(perMinute, burst);
    PolicyBurst(perMinute, burst);
    JustPastTtl(perMinute, burst);
    BoundHoldsExactly(PerMinute(perMinute, burst));
  }
}
