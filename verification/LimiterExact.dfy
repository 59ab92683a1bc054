/**
 The rate limiter, exactly: which requests pass, and what each of them takes from which bucket. The
 global bucket pays for what passes and for nothing else, so one address cannot use it up for others.
 */
module LimiterExact {
  import opened Schema
  import opened RateLimiter
  import opened WindowBounds
  import opened Limiter

  // ----- Buckets -----

  /** A bucket holds what it held and what its rate earned since, up to the burst. */
  lemma RefillExact(b: Bucket, p: Policy, clock: Time, now: Time)
    requires p.rate >= 0.0 && Kept(b, p, clock) && clock <= now
    ensures var held := b.tokens + (now - b.last) as real * p.rate;
      TokensAt(b, p, now) == if held > p.burst as real then p.burst as real else held
  {
    ProductNonNegative((now - b.last) as real, p.rate);
  }

  /** What a key can spend: its bucket's content, or a full burst if it has none. */
  function Spendable<K>(t: Table<K>, p: Policy, key: K, now: Time): real {
    if key in t.buckets then TokensAt(t.buckets[key], p, now) else p.burst as real
  }

  /** A new key finds room after the sweep, if one is due. */
  ghost predicate Fits<K(!new)>(t: Table<K>, key: K, now: Time) {
    key in t.buckets || |Remembered(t, now)| < MAX_ENTRIES
  }

  /** The keys a due sweep leaves: those served within the last ten minutes. */
  ghost function Remembered<K(!new)>(t: Table<K>, now: Time): set<K> {
    if now < t.nextSweep then t.buckets.Keys
    else set k | k in t.buckets && t.buckets[k].lastSeen >= now - 10 * MINUTE
  }

  lemma SweptKeys<K(!new)>(t: Table<K>, now: Time)
    ensures Swept(t, now).buckets.Keys == Remembered(t, now)
    ensures Swept(t, now).nextSweep == if now < t.nextSweep then t.nextSweep else now + MINUTE
    ensures |Swept(t, now).buckets| == |Remembered(t, now)|
  {
    assert |Swept(t, now).buckets| == |Swept(t, now).buckets.Keys|;
  }

  /** A request passes its table exactly when its key fits and can spend a token, and it takes exactly that token. */
  lemma ChargeExact<K(!new)>(t: Table<K>, p: Policy, key: K, clock: Time, now: Time)
    requires p.rate >= 0.0 && TableKept(t, p, clock) && 0 < clock <= now
    ensures var (next, ok) := Charge(t, p, key, now, true);
      && (ok <==> Fits(t, key, now) && Spendable(t, p, key, now) >= 1.0)
      && (key in next.buckets <==> Fits(t, key, now))
      && (key in next.buckets ==>
            Spendable(next, p, key, now) == Spendable(t, p, key, now) - (if ok then 1.0 else 0.0))
      && (ok ==> next.buckets[key].lastSeen == now)
      && next.nextSweep == if key in t.buckets || now < t.nextSweep then t.nextSweep else now + MINUTE
  {
    hide Earned, Kept, Swept;
    SweptKeys(t, now);
    SweptShrinks(t, now);
    MetKept(t, p, key, clock, now);
    MetIsSpendable(t, p, key, clock, now);
  }

  lemma MetIsSpendable<K(!new)>(t: Table<K>, p: Policy, key: K, clock: Time, now: Time)
    requires p.rate >= 0.0 && TableKept(t, p, clock) && 0 < clock <= now
    ensures var b := Met(t, p, key, now);
      && b.tokens == Spendable(t, p, key, now)
      && TokensAt(b, p, now) == b.tokens && TokensAt(Charged(b, now), p, now) == b.tokens - 1.0
  {
    hide Earned;
    MetKept(t, p, key, clock, now);
  }

  /** Every other key keeps its bucket, unless a new key's arrival sweeps it away after ten idle minutes. */
  lemma ChargeSparesOthers<K(!new)>(t: Table<K>, p: Policy, key: K, other: K, now: Time)
    requires other != key
    ensures var next := Charge(t, p, key, now, true).0;
      if key in t.buckets then other in next.buckets <==> other in t.buckets
      else other in next.buckets <==> other in Remembered(t, now)
    ensures var next := Charge(t, p, key, now, true).0;
      other in next.buckets ==> other in t.buckets && next.buckets[other] == t.buckets[other]
  {
    hide Refill, Swept, Charged;
    SweptKeys(t, now);
    SweptShrinks(t, now);
  }

  // ----- The global bucket -----

  /** A request passes exactly when the global bucket holds a token and its address may spend one. */
  lemma AllowedExactly(s: State, g: Policy, p: Policy, address: Address, clock: Time, now: Time)
    requires g.rate >= 0.0 && p.rate >= 0.0 && 0 < clock <= now
    requires Kept(s.global, g, clock) && TableKept(s.table, p, clock)
    ensures Decide(s, g, p, address, now, true).1 <==>
      && TokensAt(s.global, g, now) >= 1.0
      && Fits(s.table, address, now) && Spendable(s.table, p, address, now) >= 1.0
  {
    hide Charge, Kept, Earned, Fits, Spendable;
    ChargeExact(s.table, p, address, clock, now);
  }

  lemma ContentGrows(b: Bucket, g: Policy, clock: Time, now: Time)
    requires g.rate >= 0.0 && Kept(b, g, clock) && clock <= now
    ensures TokensAt(b, g, clock) <= TokensAt(b, g, now)
  {
    hide Earned;
    RefillKeeps(b, g, clock, now);
    RefillKeeps(b, g, clock, clock);
    EarnedGrows(g.rate, clock - b.last, now - b.last);
  }

  /** Over any run the global bucket loses at most what passed. */
  lemma {:induction false} GlobalLosesWhatPassed(s: State, g: Policy, p: Policy, clock: Time, rs: seq<Request<Address>>)
    requires g.rate >= 0.0 && Kept(s.global, g, clock) && 0 < clock
    ensures var end := Reached(s, g, p, clock, rs);
      && Kept(end.global, g, ClockAfter(clock, rs)) && clock <= ClockAfter(clock, rs)
      && TokensAt(end.global, g, ClockAfter(clock, rs)) >=
         TokensAt(s.global, g, clock) - Limiter.Passed(Answers(s, g, p, clock, rs, true)) as real
    decreases |rs|
  {
    hide Decide, Kept, TokensAt;
    if rs != [] {
      var now := clock + rs[0].elapsed;
      var next := Decide(s, g, p, rs[0].key, now, true).0;
      GlobalPaysExactly(s, g, p, rs[0].key, clock, now);
      ContentGrows(s.global, g, clock, now);
      GlobalLosesWhatPassed(next, g, p, now, rs[1..]);
      var ds := Answers(s, g, p, clock, rs, true);
      assert ds[1..] == Answers(next, g, p, now, rs[1..], true);
    }
  }

  /** The global bucket refuses only after all but one of its tokens, or more, went to requests that passed. */
  lemma GlobalRefusesOnlyWhenSpent(s: State, g: Policy, p: Policy, clock: Time, rs: seq<Request<Address>>)
    requires g.rate >= 0.0 && Kept(s.global, g, clock) && 0 < clock
    requires TokensAt(Reached(s, g, p, clock, rs).global, g, ClockAfter(clock, rs)) < 1.0
    ensures Limiter.Passed(Answers(s, g, p, clock, rs, true)) as real > TokensAt(s.global, g, clock) - 1.0
  {
    hide Answers, Reached, TokensAt;
    GlobalLosesWhatPassed(s, g, p, clock, rs);
  }

  // ----- One address and the others -----

  predicate AllOf(rs: seq<Request<Address>>, key: Address) {
    forall i :: 0 <= i < |rs| ==> rs[i].key == key
  }

  lemma {:induction false} AllOfOne(rs: seq<Request<Address>>, ds: seq<bool>, key: Address)
    requires |rs| == |ds| && AllOf(rs, key)
    ensures Limiter.Passed(ds) == AllowedFor(rs, ds, key)
  {
    if rs != [] {
      assert AllOf(rs[1..], key) by { assert forall i :: 0 <= i < |rs[1..]| ==> rs[1..][i] == rs[i + 1]; }
      AllOfOne(rs[1..], ds[1..], key);
    }
  }

  lemma {:induction false} OnlyItsBucket(s: State, g: Policy, p: Policy, clock: Time, rs: seq<Request<Address>>,
                                         key: Address)
    requires AllOf(rs, key) && (forall a :: a in s.table.buckets ==> a == key)
    ensures forall a :: a in Reached(s, g, p, clock, rs).table.buckets ==> a == key
    decreases |rs|
  {
    hide Charge, Refill;
    if rs != [] {
      var now := clock + rs[0].elapsed;
      var next := Decide(s, g, p, rs[0].key, now, true).0;
      forall a | a in next.table.buckets
        ensures a == key
      {
        if a != key { ChargeSparesOthers(s.table, p, key, a, now); }
      }
      assert AllOf(rs[1..], key) by { assert forall i :: 0 <= i < |rs[1..]| ==> rs[1..][i] == rs[i + 1]; }
      OnlyItsBucket(next, g, p, now, rs[1..], key);
    }
  }

  /**
   However many requests one address makes of a new limiter, another address still passes, as long as what
   the first was allowed leaves a token in the global bucket.
   */
  lemma FloodSparesOthers(g: Policy, p: Policy, rs: seq<Request<Address>>, key: Address, other: Address)
    requires g.rate >= 0.0 && p.rate >= 0.0 && p.burst >= 1 && AllOf(rs, key) && other != key
    requires p.burst as real + Earned(SteepRate(p), ClockAfter(1, rs) - 1) + 1.0 <= g.burst as real
    ensures Decide(Reached(New(g), g, p, 1, rs), g, p, other, ClockAfter(1, rs), true).1
  {
    hide Earned, SteepRate, Answers, Reached, Decide, ClockAfter, TokensAt;
    var s, now := Reached(New(g), g, p, 1, rs), ClockAfter(1, rs);
    NewBucketKept(g, 1);
    FullAtFirst(g);
    GlobalLosesWhatPassed(New(g), g, p, 1, rs);
    AllOfOne(rs, Answers(New(g), g, p, 1, rs, true), key);
    AddressBoundAlways(New(g), g, p, 1, rs, key);
    ReachedKept(New(g), g, p, 1, rs);
    OnlyItsBucket(New(g), g, p, 1, rs, key);
    NewcomerFits(s.table, p, key, other, now);
    AllowedExactly(s, g, p, other, now, now);
  }

  lemma FullAtFirst(g: Policy)
    requires g.rate >= 0.0
    ensures TokensAt(New(g).global, g, 1) == g.burst as real
  {
  }

  lemma NewcomerFits(t: Table<Address>, p: Policy, key: Address, other: Address, now: Time)
    requires (forall a :: a in t.buckets ==> a == key) && other != key && p.burst >= 1
    ensures Fits(t, other, now) && Spendable(t, p, other, now) >= 1.0
  {
    SubsetSize(Remembered(t, now), {key});
  }

  /** At the default settings any number of requests of one address at one instant leaves room for the next address. */
  lemma DefaultsSpareOthers(n: nat, other: Address)
    requires other != 0
    ensures var g, p := PerSecond(50, 100), PerMinute(20, 10);
      Decide(Reached(New(g), g, p, 1, Burst(0, n)), g, p, other, 1, true).1
  {
    hide Decide, Reached, Burst;
    var g, p := PerSecond(50, 100), PerMinute(20, 10);
    BurstAtOnce(n);
    EarnedZero(SteepRate(p));
    FloodSparesOthers(g, p, Burst(0, n), 0, other);
  }

  lemma {:induction false} BurstAtOnce(n: nat)
    ensures AllOf(Burst(0, n), 0) && ClockAfter(1, Burst(0, n)) == 1
  {
    if n > 0 {
      BurstAtOnce(n - 1);
      BurstHead(0, n);
      var rs := Burst(0, n);
      assert forall i :: 1 <= i < |rs| ==> rs[i] == rs[1..][i - 1];
    }
  }
}
