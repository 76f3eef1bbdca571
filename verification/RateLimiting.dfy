/**
 The per-client token bucket with eviction and a hard cap (`gateway/src/ratelimit.rs`).
 Times are seconds as reals and tokens are exact; the lock is never poisoned.
 */
module RateLimiting {
  import opened Bytes

  const MAX_BUCKETS: nat := 50_000
  const IDLE_EVICTION: real := 300.0

  datatype IpAddr = V4(octets: seq<Byte>) | V6(octets: seq<Byte>)

  type Seconds = r: real | r > 0.0 witness 1.0

  datatype Quota = Quota(capacity: U32, period: Seconds)

  /** A quota as the bucket uses it: the ceiling, what accrues between two instants, the delay reported with so many tokens left. */
  datatype Rate = Rate(capacity: real, accrued: (real, real) -> real, delay: real -> U64) {
    ghost predicate Steady() {
      && capacity >= 1.0
      && (forall s, t :: accrued(s, t) >= 0.0)
      && (forall s, t, u {:trigger accrued(s, t), accrued(t, u)} ::
            s <= t <= u ==> accrued(s, u) == accrued(s, t) + accrued(t, u))
    }

    /** Idling long enough to be evicted refills the bucket. */
    ghost predicate Ordinary() {
      Steady() && forall s, t :: t - s >= IDLE_EVICTION ==> accrued(s, t) >= capacity
    }

    /** The delay is the least whole number of seconds, at least one, that makes up one token. */
    ghost predicate Punctual() {
      && (forall s, t, tokens :: 0.0 <= tokens < 1.0 && t - s >= delay(tokens) as real ==> tokens + accrued(s, t) >= 1.0)
      && (forall s, t, tokens :: 0.0 <= tokens < 1.0 && s <= t && delay(tokens) > 1 && t - s <= (delay(tokens) - 1) as real ==>
            tokens + accrued(s, t) < 1.0)
    }
  }

  function Refill(quota: Quota): real {
    quota.capacity as real / quota.period
  }

  function RateOf(quota: Quota): Rate {
    Rate(quota.capacity as real, (last, now) => Elapsed(now, last) * Refill(quota), tokens => RetryAfter(quota, tokens))
  }

  datatype Bucket = Bucket(tokens: real, last: real)

  type Buckets = map<IpAddr, Bucket>

  datatype Decision = Allow | Refuse(retryAfterSecs: U64)

  /** `Instant::duration_since`, zero when the clock went back. */
  function Elapsed(now: real, last: real): real {
    if now >= last then now - last else 0.0
  }

  function MinR(a: real, b: real): real {
    if a <= b then a else b
  }

  function Ceil(x: real): int {
    -(-x).Floor
  }

  /** `needed.ceil().max(1.0) as u64`, the cast saturating. */
  function WholeSecs(needed: real): U64 {
    var n := if Ceil(needed) >= 1 then Ceil(needed) else 1;
    if n <= U64_MAX then n else U64_MAX
  }

  /** With no refill the division is infinite, which the cast turns into the largest u64. */
  function RetryAfter(quota: Quota, tokens: real): U64 {
    if Refill(quota) == 0.0 then U64_MAX else WholeSecs((1.0 - tokens) / Refill(quota))
  }

  function Evict(buckets: Buckets, now: real): Buckets {
    map k | k in buckets && Elapsed(now, buckets[k].last) < IDLE_EVICTION :: buckets[k]
  }

  /** The map a newcomer is looked up in. */
  function Kept(buckets: Buckets, now: real): Buckets {
    if |buckets| >= MAX_BUCKETS then Evict(buckets, now) else buckets
  }

  /** The request comes from an untracked client while the map is full. */
  predicate MeetsFull(buckets: Buckets, key: IpAddr, now: real) {
    key !in Kept(buckets, now) && |Kept(buckets, now)| >= MAX_BUCKETS
  }

  /** The bucket arithmetic alone. */
  function Take(rate: Rate, buckets: Buckets, key: IpAddr, now: real): (Buckets, Decision) {
    if key in buckets then
      var b := buckets[key];
      var tokens := MinR(b.tokens + rate.accrued(b.last, now), rate.capacity);
      if tokens >= 1.0 then (buckets[key := Bucket(tokens - 1.0, now)], Allow)
      else (buckets[key := Bucket(tokens, now)], Refuse(rate.delay(tokens)))
    else (buckets[key := Bucket(rate.capacity - 1.0, now)], Allow)
  }

  function Check(rate: Rate, buckets: Buckets, key: IpAddr, now: real): (Buckets, Decision) {
    if MeetsFull(buckets, key, now) then (Kept(buckets, now), Refuse(1)) else Take(rate, Kept(buckets, now), key, now)
  }

  lemma RateFields(quota: Quota, last: real, now: real, tokens: real)
    ensures RateOf(quota).capacity == quota.capacity as real
    ensures RateOf(quota).accrued(last, now) == Elapsed(now, last) * Refill(quota)
    ensures RateOf(quota).delay(tokens) == RetryAfter(quota, tokens)
  {
  }

  /** The step on a tracked client whose refilled tokens are known. */
  lemma TakeTracked(rate: Rate, buckets: Buckets, key: IpAddr, now: real, tokens: real)
    requires key in buckets
    requires tokens == MinR(buckets[key].tokens + rate.accrued(buckets[key].last, now), rate.capacity)
    ensures Take(rate, buckets, key, now) ==
      if tokens >= 1.0 then (buckets[key := Bucket(tokens - 1.0, now)], Allow)
      else (buckets[key := Bucket(tokens, now)], Refuse(rate.delay(tokens)))
  {
  }

  class RateLimiter {
    var buckets: Buckets
    const quota: Quota

    constructor (quota: Quota)
      ensures this.quota == quota && buckets == map[]
    {
      this.quota := quota;
      buckets := map[];
    }

    method CheckAt(key: IpAddr, now: real) returns (d: Decision)
      modifies this
      ensures (buckets, d) == Check(RateOf(quota), old(buckets), key, now)
    {
      if |buckets| >= MAX_BUCKETS {
        buckets := Evict(buckets, now);
      }
      assert buckets == Kept(old(buckets), now);
      var refill := Refill(quota);
      var capacity := quota.capacity as real;
      if key in buckets {
        var bucket := buckets[key];
        var elapsed := Elapsed(now, bucket.last);
        var tokens := MinR(bucket.tokens + elapsed * refill, capacity);
        RateFields(quota, bucket.last, now, tokens);
        TakeTracked(RateOf(quota), buckets, key, now, tokens);
        if tokens >= 1.0 {
          buckets := buckets[key := Bucket(tokens - 1.0, now)];
          return Allow;
        }
        buckets := buckets[key := Bucket(tokens, now)];
        return Refuse(RetryAfter(quota, tokens));
      }
      if |buckets| >= MAX_BUCKETS {
        return Refuse(1);
      }
      buckets := buckets[key := Bucket(capacity - 1.0, now)];
      return Allow;
    }
  }

  // ---- which quotas behave ----

  lemma ProductNonNegative(a: real, b: real)
    requires a >= 0.0 && b >= 0.0
    ensures a * b >= 0.0
  {
  }

  lemma ProductPositive(a: real, b: real)
    requires a > 0.0 && b > 0.0
    ensures a * b > 0.0
  {
  }

  lemma Cancel(a: real, b: real, r: real)
    requires r > 0.0 && a * r <= b * r
    ensures a <= b
  {
    if a > b {
      ProductPositive(a - b, r);
    }
  }

  lemma SteadyQuotas(quota: Quota)
    requires quota.capacity >= 1
    ensures RateOf(quota).Steady()
  {
    var (rate, r) := (RateOf(quota), Refill(quota));
    forall s, t ensures rate.accrued(s, t) >= 0.0 {
      ProductNonNegative(Elapsed(t, s), r);
    }
    forall s, t, u | s <= t <= u ensures rate.accrued(s, u) == rate.accrued(s, t) + rate.accrued(t, u) {
      assert (u - s) * r == (t - s) * r + (u - t) * r;
    }
  }

  /** Every quota of at least one request a period of at most the idle limit is ordinary; all per-minute quotas but zero are. */
  lemma OrdinaryQuotas(quota: Quota)
    requires quota.capacity >= 1 && quota.period <= 300.0
    ensures RateOf(quota).Ordinary()
  {
    var (rate, r) := (RateOf(quota), Refill(quota));
    SteadyQuotas(quota);
    assert quota.period * r == rate.capacity;
    forall s, t | t - s >= IDLE_EVICTION ensures rate.accrued(s, t) >= rate.capacity {
      ProductNonNegative(t - s - quota.period, r);
      assert (t - s) * r == quota.period * r + (t - s - quota.period) * r;
    }
  }

  lemma ShortWait(capacity: real, period: real, r: real, missing: real, needed: real)
    requires capacity >= 1.0 && period > 0.0 && 0.0 < missing <= 1.0
    requires period * r == capacity && needed * r == missing
    ensures r > 0.0 && 0.0 < needed <= period
  {
    if r <= 0.0 {
      ProductNonNegative(period, -r);
    }
    if needed <= 0.0 {
      ProductNonNegative(-needed, r);
    }
    Cancel(needed, period, r);
  }

  lemma NeededIsShort(quota: Quota, tokens: real)
    requires quota.capacity >= 1 && quota.period <= IDLE_EVICTION && 0.0 <= tokens < 1.0
    ensures Refill(quota) > 0.0
    ensures 0.0 < (1.0 - tokens) / Refill(quota) <= IDLE_EVICTION
  {
    var r := Refill(quota);
    assert quota.period * r == quota.capacity as real;
    assert r > 0.0;
    var needed := (1.0 - tokens) / r;
    assert needed * r == 1.0 - tokens;
    ShortWait(quota.capacity as real, quota.period, r, 1.0 - tokens, needed);
  }

  lemma DelayCovers(quota: Quota, tokens: real, wait: real)
    requires quota.capacity >= 1 && quota.period <= IDLE_EVICTION && 0.0 <= tokens < 1.0
    ensures wait >= RetryAfter(quota, tokens) as real ==> tokens + wait * Refill(quota) >= 1.0
    ensures RetryAfter(quota, tokens) > 1 && wait <= (RetryAfter(quota, tokens) - 1) as real ==>
      tokens + wait * Refill(quota) < 1.0
  {
    var (r, needed) := (Refill(quota), (1.0 - tokens) / Refill(quota));
    assert needed * r == 1.0 - tokens;
    NeededIsShort(quota, tokens);
    var retry := RetryAfter(quota, tokens);
    assert retry as real >= needed;
    assert retry > 1 ==> (retry - 1) as real < needed;
    if wait >= retry as real {
      ProductNonNegative(wait - needed, r);
      assert wait * r == needed * r + (wait - needed) * r;
    } else if retry > 1 && wait <= (retry - 1) as real {
      ProductPositive(needed - wait, r);
      assert needed * r == wait * r + (needed - wait) * r;
    }
  }

  /** The same quotas report exact delays. */
  lemma PunctualQuotas(quota: Quota)
    requires quota.capacity >= 1 && quota.period <= IDLE_EVICTION
    ensures RateOf(quota).Punctual()
  {
    var rate := RateOf(quota);
    forall s, t, tokens | 0.0 <= tokens < 1.0 && t - s >= rate.delay(tokens) as real ensures tokens + rate.accrued(s, t) >= 1.0 {
      DelayCovers(quota, tokens, t - s);
    }
    forall s, t, tokens | 0.0 <= tokens < 1.0 && s <= t && rate.delay(tokens) > 1 && t - s <= (rate.delay(tokens) - 1) as real
      ensures tokens + rate.accrued(s, t) < 1.0
    {
      DelayCovers(quota, tokens, t - s);
    }
  }

  lemma ScaleUp(a: real, b: real, r: real, period: real, capacity: real, n: real)
    requires period > 0.0 && r * period == capacity
    ensures a + n * r >= b ==> a * period + n * capacity >= b * period
    ensures a + n * r < b ==> a * period + n * capacity < b * period
  {
    assert (a + n * r) * period == a * period + n * (r * period);
    if a + n * r >= b {
      ProductNonNegative(a + n * r - b, period);
      assert (a + n * r - b) * period == (a + n * r) * period - b * period;
    } else {
      ProductPositive(b - (a + n * r), period);
      assert (b - (a + n * r)) * period == b * period - (a + n * r) * period;
    }
  }

  /** A full period refills the whole capacity and part of one its share; a clock gone back refills nothing. */
  lemma RefillsExactly(quota: Quota, last: real, now: real)
    ensures RateOf(quota).capacity == quota.capacity as real
    ensures now >= last ==> RateOf(quota).accrued(last, now) * quota.period == (now - last) * (quota.capacity as real)
    ensures now < last ==> RateOf(quota).accrued(last, now) == 0.0
  {
    var (r, wait) := (Refill(quota), now - last);
    assert r * quota.period == quota.capacity as real;
    assert (wait * r) * quota.period == wait * (r * quota.period);
  }

  /** The delay reported is the least whole number of seconds, at least one, in which the missing part of a token accrues. */
  lemma DelayIsLeast(quota: Quota, tokens: real)
    requires quota.capacity >= 1 && quota.period <= 300.0 && 0.0 <= tokens < 1.0
    ensures
      var (d, capacity) := (RateOf(quota).delay(tokens), quota.capacity as real);
      && d >= 1
      && tokens * quota.period + d as real * capacity >= quota.period
      && (d > 1 ==> tokens * quota.period + (d - 1) as real * capacity < quota.period)
  {
    var (d, r) := (RateOf(quota).delay(tokens), Refill(quota));
    assert r * quota.period == quota.capacity as real;
    DelayCovers(quota, tokens, d as real);
    ScaleUp(tokens, 1.0, r, quota.period, quota.capacity as real, d as real);
    if d > 1 {
      DelayCovers(quota, tokens, (d - 1) as real);
      ScaleUp(tokens, 1.0, r, quota.period, quota.capacity as real, (d - 1) as real);
    }
  }

  // ---- what is forgotten ----

  /** Nothing is forgotten below fifty thousand clients; from there on exactly those silent for five minutes. */
  lemma KeptExactly(buckets: Buckets, now: real, key: IpAddr)
    requires key in buckets ==> buckets[key].last <= now
    ensures key in Kept(buckets, now) <==> key in buckets && (|buckets| < 50_000 || now - buckets[key].last < 300.0)
    ensures key in Kept(buckets, now) ==> Kept(buckets, now)[key] == buckets[key]
    ensures MeetsFull(buckets, key, now) <==> key !in Kept(buckets, now) && |Kept(buckets, now)| >= 50_000
  {
  }

  // ---- the hard cap ----

  lemma SubsetSize<T>(a: set<T>, b: set<T>)
    requires a <= b
    ensures |a| <= |b|
  {
    assert b == a + (b - a);
  }

  lemma EvictShrinks(buckets: Buckets, now: real)
    ensures |Evict(buckets, now)| <= |buckets|
  {
    SubsetSize(Evict(buckets, now).Keys, buckets.Keys);
  }

  lemma CheckKeepsCap(rate: Rate, buckets: Buckets, key: IpAddr, now: real)
    requires |buckets| <= MAX_BUCKETS
    ensures |Check(rate, buckets, key, now).0| <= MAX_BUCKETS
  {
    EvictShrinks(buckets, now);
    var (kept, after) := (Kept(buckets, now), Check(rate, buckets, key, now).0);
    assert after.Keys == kept.Keys || after.Keys == kept.Keys + {key};
  }

  // ---- runs ----

  datatype Request = Request(key: IpAddr, at: real)

  function After(rate: Rate, reqs: seq<Request>): Buckets
    decreases |reqs|
  {
    if reqs == [] then map[]
    else
      var (init, last) := (reqs[..|reqs| - 1], reqs[|reqs| - 1]);
      Check(rate, After(rate, init), last.key, last.at).0
  }

  function DecisionAt(rate: Rate, reqs: seq<Request>, i: nat): Decision
    requires i < |reqs|
  {
    Check(rate, After(rate, reqs[..i]), reqs[i].key, reqs[i].at).1
  }

  predicate InOrder(reqs: seq<Request>) {
    forall i, j :: 0 <= i <= j < |reqs| ==> reqs[i].at <= reqs[j].at
  }

  /** In every run, at any times whatever, the map stays within its cap. */
  lemma {:induction false} NeverOverCap(rate: Rate, reqs: seq<Request>)
    ensures |After(rate, reqs)| <= 50_000
    decreases |reqs|
  {
    if reqs != [] {
      var (init, last) := (reqs[..|reqs| - 1], reqs[|reqs| - 1]);
      NeverOverCap(rate, init);
      CheckKeepsCap(rate, After(rate, init), last.key, last.at);
    }
  }

  ghost predicate InRange(rate: Rate, buckets: Buckets) {
    forall k :: k in buckets ==> 0.0 <= buckets[k].tokens <= rate.capacity
  }

  lemma CheckKeepsRange(rate: Rate, buckets: Buckets, key: IpAddr, now: real)
    requires rate.Steady() && InRange(rate, buckets)
    ensures InRange(rate, Check(rate, buckets, key, now).0)
  {
  }

  /** In every run, at any times whatever, tokens stay between zero and the capacity. */
  lemma {:induction false} TokensInRange(rate: Rate, reqs: seq<Request>)
    requires rate.Steady()
    ensures InRange(rate, After(rate, reqs))
    decreases |reqs|
  {
    if reqs != [] {
      var (init, last) := (reqs[..|reqs| - 1], reqs[|reqs| - 1]);
      TokensInRange(rate, init);
      CheckKeepsRange(rate, After(rate, init), last.key, last.at);
    }
  }

  // ---- the simple form: one number per client ----

  /** What a client could spend at time t, tracked or not. */
  function Avail(rate: Rate, buckets: Buckets, key: IpAddr, t: real): real {
    if key in buckets then MinR(buckets[key].tokens + rate.accrued(buckets[key].last, t), rate.capacity)
    else rate.capacity
  }

  ghost predicate Sane(rate: Rate, buckets: Buckets, now: real) {
    InRange(rate, buckets) && forall k :: k in buckets ==> buckets[k].last <= now
  }

  /** A bucket grows by what accrues, up to the capacity. */
  lemma AvailGrows(rate: Rate, buckets: Buckets, key: IpAddr, t: real, u: real)
    requires rate.Steady() && Sane(rate, buckets, t) && t <= u
    ensures Avail(rate, buckets, key, u) == MinR(Avail(rate, buckets, key, t) + rate.accrued(t, u), rate.capacity)
    ensures 0.0 <= Avail(rate, buckets, key, u) <= rate.capacity
  {
  }

  lemma EvictionKeepsAvail(rate: Rate, buckets: Buckets, key: IpAddr, now: real, t: real)
    requires rate.Ordinary() && Sane(rate, buckets, now) && now <= t
    ensures Avail(rate, Kept(buckets, now), key, t) == Avail(rate, buckets, key, t)
  {
    if key in buckets && key !in Kept(buckets, now) {
      assert t - buckets[key].last >= IDLE_EVICTION;
    }
  }

  /** The whole rule in terms of the one number. */
  function Decide(rate: Rate, avail: real): Decision {
    if avail >= 1.0 then Allow else Refuse(rate.delay(avail))
  }

  function Cost(d: Decision): real {
    if d.Allow? then 1.0 else 0.0
  }

  /** One step of the bare bucket arithmetic spends the one number and nobody else's. */
  lemma TakeSpends(rate: Rate, buckets: Buckets, key: IpAddr, now: real)
    requires rate.Steady() && Sane(rate, buckets, now)
    ensures
      var (after, d) := Take(rate, buckets, key, now);
      && Sane(rate, after, now)
      && d == Decide(rate, Avail(rate, buckets, key, now))
      && Avail(rate, after, key, now) == Avail(rate, buckets, key, now) - Cost(d)
      && forall k, t :: k != key ==> Avail(rate, after, k, t) == Avail(rate, buckets, k, t)
  {
    AvailGrows(rate, buckets, key, now, now);
    var (after, d) := Take(rate, buckets, key, now);
    assert after[key].last == now && rate.accrued(now, now) == 0.0;
  }

  /** One step of the real limiter, likewise, unless a newcomer meets a full map. */
  lemma CheckSpends(rate: Rate, buckets: Buckets, key: IpAddr, now: real)
    requires rate.Ordinary() && Sane(rate, buckets, now)
    ensures
      var (after, d) := Check(rate, buckets, key, now);
      && Sane(rate, after, now)
      && d == (if MeetsFull(buckets, key, now) then Refuse(1) else Decide(rate, Avail(rate, buckets, key, now)))
      && Avail(rate, after, key, now) == Avail(rate, buckets, key, now) - Cost(d)
  {
    EvictionKeepsAvail(rate, buckets, key, now, now);
    if !MeetsFull(buckets, key, now) {
      TakeSpends(rate, Kept(buckets, now), key, now);
    }
  }

  lemma CheckSparesOthers(rate: Rate, buckets: Buckets, key: IpAddr, now: real, other: IpAddr, t: real)
    requires rate.Ordinary() && Sane(rate, buckets, now) && now <= t && other != key
    ensures Avail(rate, Check(rate, buckets, key, now).0, other, t) == Avail(rate, buckets, other, t)
  {
    EvictionKeepsAvail(rate, buckets, other, now, t);
    if !MeetsFull(buckets, key, now) {
      TakeSpends(rate, Kept(buckets, now), key, now);
    }
  }

  lemma {:induction false} RunsAreSane(rate: Rate, reqs: seq<Request>, now: real)
    requires rate.Steady() && InOrder(reqs) && (reqs != [] ==> reqs[|reqs| - 1].at <= now)
    ensures Sane(rate, After(rate, reqs), now)
    decreases |reqs|
  {
    TokensInRange(rate, reqs);
    if reqs != [] {
      RunsAreSane(rate, reqs[..|reqs| - 1], reqs[|reqs| - 1].at);
    }
  }

  // ---- the rate bound ----

  /** How many of requests i up to j were admitted for key. */
  function Admitted(rate: Rate, reqs: seq<Request>, key: IpAddr, i: nat, j: nat): nat
    requires i <= j <= |reqs|
    decreases j
  {
    if i == j then 0
    else Admitted(rate, reqs, key, i, j - 1) + (if reqs[j - 1].key == key && DecisionAt(rate, reqs, j - 1).Allow? then 1 else 0)
  }

  /** A visit moves one unit from what is available to what is admitted, or nothing. */
  lemma VisitBalances(rate: Rate, reqs: seq<Request>, key: IpAddr, i: nat, j: nat)
    requires rate.Ordinary() && InOrder(reqs) && i <= j < |reqs|
    ensures Account(rate, reqs, key, i, j + 1, reqs[j].at) == Account(rate, reqs, key, i, j, reqs[j].at)
  {
    StepSpends(rate, reqs, key, j);
  }

  lemma RunAvailGrows(rate: Rate, reqs: seq<Request>, key: IpAddr, j: nat, t: real, u: real)
    requires rate.Steady() && InOrder(reqs) && j <= |reqs| && (j > 0 ==> reqs[j - 1].at <= t) && t <= u
    ensures Avail(rate, After(rate, reqs[..j]), key, u)
         == MinR(Avail(rate, After(rate, reqs[..j]), key, t) + rate.accrued(t, u), rate.capacity)
    ensures 0.0 <= Avail(rate, After(rate, reqs[..j]), key, u) <= rate.capacity
  {
    RunsAreSane(rate, reqs[..j], t);
    AvailGrows(rate, After(rate, reqs[..j]), key, t, u);
  }

  /** Adding what accrues over the next stretch to an account so far. */
  lemma Carry(rate: Rate, sum: real, was: real, grown: real, s: real, t: real, u: real)
    requires rate.Steady() && s <= t <= u
    requires sum + was <= rate.capacity + rate.accrued(s, t)
    requires grown <= was + rate.accrued(t, u)
    ensures sum + grown <= rate.capacity + rate.accrued(s, u)
  {
  }

  /** What is admitted and what is still available just before visit j. */
  function Account(rate: Rate, reqs: seq<Request>, key: IpAddr, i: nat, j: nat, t: real): real
    requires i <= j <= |reqs|
  {
    Admitted(rate, reqs, key, i, j) as real + Avail(rate, After(rate, reqs[..j]), key, t)
  }

  lemma AccountGrows(rate: Rate, reqs: seq<Request>, key: IpAddr, i: nat, j: nat, t: real, u: real)
    requires rate.Steady() && InOrder(reqs) && i <= j <= |reqs| && (j > 0 ==> reqs[j - 1].at <= t) && t <= u
    ensures Account(rate, reqs, key, i, j, u) <= Account(rate, reqs, key, i, j, t) + rate.accrued(t, u)
  {
    RunAvailGrows(rate, reqs, key, j, t, u);
  }

  lemma AccountStarts(rate: Rate, reqs: seq<Request>, key: IpAddr, i: nat)
    requires rate.Steady() && InOrder(reqs) && i < |reqs|
    ensures Account(rate, reqs, key, i, i, reqs[i].at) <= rate.capacity + rate.accrued(reqs[i].at, reqs[i].at)
  {
    RunAvailGrows(rate, reqs, key, i, reqs[i].at, reqs[i].at);
  }

  /** What is admitted and what is still available never exceed what was there plus what accrued. */
  lemma {:induction false} AdmittedPlusAvail(rate: Rate, reqs: seq<Request>, key: IpAddr, i: nat, j: nat)
    requires rate.Ordinary() && InOrder(reqs) && i <= j < |reqs|
    ensures Account(rate, reqs, key, i, j + 1, reqs[j].at) <= rate.capacity + rate.accrued(reqs[i].at, reqs[j].at)
    decreases j
  {
    VisitBalances(rate, reqs, key, i, j);
    if i == j {
      AccountStarts(rate, reqs, key, i);
    } else {
      AdmittedPlusAvail(rate, reqs, key, i, j - 1);
      AccountGrows(rate, reqs, key, i, j, reqs[j - 1].at, reqs[j].at);
      Carry(rate, 0.0, Account(rate, reqs, key, i, j, reqs[j - 1].at), Account(rate, reqs, key, i, j, reqs[j].at),
            reqs[i].at, reqs[j - 1].at, reqs[j].at);
    }
  }

  /** Request i spends from its own client only. */
  lemma StepSpends(rate: Rate, reqs: seq<Request>, key: IpAddr, i: nat)
    requires rate.Ordinary() && InOrder(reqs) && i < |reqs|
    ensures Avail(rate, After(rate, reqs[..i + 1]), key, reqs[i].at)
         == Avail(rate, After(rate, reqs[..i]), key, reqs[i].at)
            - (if reqs[i].key == key then Cost(DecisionAt(rate, reqs, i)) else 0.0)
  {
    assert reqs[..i + 1][..i] == reqs[..i];
    RunsAreSane(rate, reqs[..i], reqs[i].at);
    if reqs[i].key == key {
      CheckSpends(rate, After(rate, reqs[..i]), key, reqs[i].at);
    } else {
      CheckSparesOthers(rate, After(rate, reqs[..i]), reqs[i].key, reqs[i].at, key, reqs[i].at);
    }
  }

  /**
   In any window of any run, whatever the other clients do and whatever is evicted,
   one client is admitted at most capacity + T * capacity / period times.
   */
  lemma {:induction false} RateBound(quota: Quota, reqs: seq<Request>, key: IpAddr, i: nat, j: nat)
    requires quota.capacity >= 1 && quota.period <= 300.0
    requires InOrder(reqs) && i <= j < |reqs|
    ensures Admitted(RateOf(quota), reqs, key, i, j + 1) as real
         <= quota.capacity as real + (reqs[j].at - reqs[i].at) * (quota.capacity as real / quota.period)
  {
    OrdinaryQuotas(quota);
    BoundOf(quota, reqs[i].at, reqs[j].at);
    AdmittedWithin(RateOf(quota), reqs, key, i, j, quota.capacity as real + (reqs[j].at - reqs[i].at) * (quota.capacity as real / quota.period));
  }

  lemma BoundOf(quota: Quota, s: real, t: real)
    requires s <= t
    ensures RateOf(quota).capacity + RateOf(quota).accrued(s, t) == quota.capacity as real + (t - s) * (quota.capacity as real / quota.period)
  {
  }

  lemma AdmittedWithin(rate: Rate, reqs: seq<Request>, key: IpAddr, i: nat, j: nat, bound: real)
    requires rate.Ordinary() && InOrder(reqs) && i <= j < |reqs|
    requires rate.capacity + rate.accrued(reqs[i].at, reqs[j].at) == bound
    ensures Admitted(rate, reqs, key, i, j + 1) as real <= bound
  {
    AdmittedPlusAvail(rate, reqs, key, i, j);
    RunAvailGrows(rate, reqs, key, j + 1, reqs[j].at, reqs[j].at);
  }

  /** The bound needs the capacity: at zero it allows nothing, and a client's first request is still admitted. */
  lemma ZeroCapacityAdmitsTheFirst(period: Seconds, key: IpAddr, at: real)
    ensures Admitted(RateOf(Quota(0, period)), [Request(key, at)], key, 0, 1) == 1
  {
    assert [Request(key, at)][..0] == [];
    assert Admitted(RateOf(Quota(0, period)), [Request(key, at)], key, 0, 0) == 0;
  }

  // ---- retrying ----

  predicate Absent(reqs: seq<Request>, key: IpAddr, i: nat, j: nat)
    requires i <= j <= |reqs|
  {
    forall k :: i <= k < j ==> reqs[k].key != key
  }

  /** Somebody else's request leaves a client's number alone. */
  lemma OthersRequest(rate: Rate, reqs: seq<Request>, key: IpAddr, m: nat, t: real)
    requires rate.Ordinary() && InOrder(reqs) && m < |reqs| && reqs[m].key != key && reqs[m].at <= t
    ensures Avail(rate, After(rate, reqs[..m + 1]), key, t) == Avail(rate, After(rate, reqs[..m]), key, t)
  {
    assert reqs[..m + 1][..m] == reqs[..m];
    RunsAreSane(rate, reqs[..m], reqs[m].at);
    CheckSparesOthers(rate, After(rate, reqs[..m]), reqs[m].key, reqs[m].at, key, t);
  }

  /** Step m of some succession of maps leaves a client's number at time t alone. */
  ghost predicate Leaves(rate: Rate, maps: nat -> Buckets, key: IpAddr, t: real, m: nat) {
    Avail(rate, maps(m + 1), key, t) == Avail(rate, maps(m), key, t)
  }

  lemma {:induction false} LeftAlone(rate: Rate, maps: nat -> Buckets, key: IpAddr, t: real, i: nat, j: nat)
    requires i <= j && forall m :: i <= m < j ==> Leaves(rate, maps, key, t, m)
    ensures Avail(rate, maps(j), key, t) == Avail(rate, maps(i), key, t)
    decreases j
  {
    if i < j {
      LeftAlone(rate, maps, key, t, i, j - 1);
      assert Leaves(rate, maps, key, t, j - 1);
    }
  }

  function Maps(rate: Rate, reqs: seq<Request>): nat -> Buckets {
    (n: nat) => if n <= |reqs| then After(rate, reqs[..n]) else map[]
  }

  /** While a client is silent, what it could spend depends only on its last visit. */
  lemma {:induction false} SilenceKeepsAvail(rate: Rate, reqs: seq<Request>, key: IpAddr, i: nat, j: nat, t: real)
    requires rate.Ordinary() && InOrder(reqs) && i <= j < |reqs| && Absent(reqs, key, i, j)
    requires reqs[j].at <= t
    ensures Avail(rate, After(rate, reqs[..j]), key, t) == Avail(rate, After(rate, reqs[..i]), key, t)
  {
    forall m | i <= m < j ensures Leaves(rate, Maps(rate, reqs), key, t, m) {
      MapsLeave(rate, reqs, key, m, t);
    }
    LeftAlone(rate, Maps(rate, reqs), key, t, i, j);
    MapsAre(rate, reqs, i);
    MapsAre(rate, reqs, j);
  }

  lemma MapsAre(rate: Rate, reqs: seq<Request>, n: nat)
    requires n <= |reqs|
    ensures Maps(rate, reqs)(n) == After(rate, reqs[..n])
  {
  }

  lemma MapsLeave(rate: Rate, reqs: seq<Request>, key: IpAddr, m: nat, t: real)
    requires rate.Ordinary() && InOrder(reqs) && m < |reqs| && reqs[m].key != key && reqs[m].at <= t
    ensures Leaves(rate, Maps(rate, reqs), key, t, m)
  {
    OthersRequest(rate, reqs, key, m, t);
    MapsAre(rate, reqs, m);
    MapsAre(rate, reqs, m + 1);
  }

  /**
   A client refused at request i with some delay, tracked or not, and silent until
   its request j, whatever the others do: once the delay has passed it is admitted
   there exactly when it does not find the map full; and it is refused there while
   at least a whole second of the delay is left.
   */
  lemma {:induction false} LoneRetry(quota: Quota, reqs: seq<Request>, i: nat, j: nat)
    requires quota.capacity >= 1 && quota.period <= 300.0 && InOrder(reqs) && i < j < |reqs|
    requires reqs[i].key == reqs[j].key && Absent(reqs, reqs[i].key, i + 1, j)
    requires DecisionAt(RateOf(quota), reqs, i).Refuse?
    ensures RetriedAt(RateOf(quota), reqs, i, j)
  {
    OrdinaryQuotas(quota);
    PunctualQuotas(quota);
    RetriesFor(RateOf(quota), reqs, i, j);
  }

  predicate RetriedAt(rate: Rate, reqs: seq<Request>, i: nat, j: nat)
    requires i < j < |reqs| && DecisionAt(rate, reqs, i).Refuse?
  {
    Retried(DecisionAt(rate, reqs, i), DecisionAt(rate, reqs, j), reqs[i].at, reqs[j].at,
            MeetsFull(After(rate, reqs[..j]), reqs[j].key, reqs[j].at))
  }

  /** After the delay only a full map refuses; with a second of the delay left everything does. */
  predicate Retried(first: Decision, second: Decision, was: real, now: real, full: bool)
    requires first.Refuse?
  {
    var retry := first.retryAfterSecs;
    && (now >= was + retry as real ==> (second.Allow? <==> !full))
    && (retry > 1 && now <= was + (retry - 1) as real ==> second.Refuse?)
  }

  /** The decision on a visit, from the client's number and whether it meets a full map. */
  function DecideVisit(rate: Rate, avail: real, full: bool): Decision {
    if full then Refuse(1) else Decide(rate, avail)
  }

  /** The whole argument in numbers: a visit refused at one number, and the next one at what it has grown to. */
  lemma NumbersRetry(rate: Rate, avail: real, was: real, now: real, fullBefore: bool, full: bool)
    requires rate.Ordinary() && rate.Punctual() && was <= now && 0.0 <= avail <= rate.capacity
    requires fullBefore ==> avail == rate.capacity
    requires DecideVisit(rate, avail, fullBefore).Refuse?
    ensures Retried(DecideVisit(rate, avail, fullBefore),
                    DecideVisit(rate, MinR(avail + rate.accrued(was, now), rate.capacity), full), was, now, full)
  {
  }

  lemma RetriesFor(rate: Rate, reqs: seq<Request>, i: nat, j: nat)
    requires rate.Ordinary() && rate.Punctual() && InOrder(reqs) && i < j < |reqs|
    requires reqs[i].key == reqs[j].key && Absent(reqs, reqs[i].key, i + 1, j)
    requires DecisionAt(rate, reqs, i).Refuse?
    ensures RetriedAt(rate, reqs, i, j)
  {
    var fullBefore, avail := VisitNumbers(rate, reqs, i);
    var full, grown := VisitNumbers(rate, reqs, j);
    LeftAfterSilence(rate, reqs, i, j, avail, grown);
    NumbersRetry(rate, avail, reqs[i].at, reqs[j].at, fullBefore, full);
  }

  /** The two numbers a visit is decided on; a client that meets a full map has a full bucket. */
  lemma VisitNumbers(rate: Rate, reqs: seq<Request>, i: nat) returns (full: bool, avail: real)
    requires rate.Ordinary() && InOrder(reqs) && i < |reqs|
    ensures full == MeetsFull(After(rate, reqs[..i]), reqs[i].key, reqs[i].at)
    ensures avail == Avail(rate, After(rate, reqs[..i]), reqs[i].key, reqs[i].at)
    ensures DecisionAt(rate, reqs, i) == DecideVisit(rate, avail, full)
    ensures 0.0 <= avail <= rate.capacity && (full ==> avail == rate.capacity)
  {
    RunsAreSane(rate, reqs[..i], reqs[i].at);
    full, avail := MapNumbers(rate, After(rate, reqs[..i]), reqs[i].key, reqs[i].at);
  }

  lemma MapNumbers(rate: Rate, buckets: Buckets, key: IpAddr, now: real) returns (full: bool, avail: real)
    requires rate.Ordinary() && Sane(rate, buckets, now)
    ensures full == MeetsFull(buckets, key, now) && avail == Avail(rate, buckets, key, now)
    ensures Check(rate, buckets, key, now).1 == DecideVisit(rate, avail, full)
    ensures 0.0 <= avail <= rate.capacity && (full ==> avail == rate.capacity)
  {
    CheckSpends(rate, buckets, key, now);
    AvailGrows(rate, buckets, key, now, now);
    EvictionKeepsAvail(rate, buckets, key, now, now);
    full, avail := MeetsFull(buckets, key, now), Avail(rate, buckets, key, now);
  }

  /** A refused request spends nothing, and what is left has grown by the next visit. */
  lemma LeftAfterSilence(rate: Rate, reqs: seq<Request>, i: nat, j: nat, avail: real, later: real)
    requires rate.Ordinary() && InOrder(reqs) && i < j < |reqs|
    requires reqs[i].key == reqs[j].key && Absent(reqs, reqs[i].key, i + 1, j)
    requires DecisionAt(rate, reqs, i).Refuse?
    requires avail == Avail(rate, After(rate, reqs[..i]), reqs[i].key, reqs[i].at)
    requires later == Avail(rate, After(rate, reqs[..j]), reqs[j].key, reqs[j].at)
    ensures later == MinR(avail + rate.accrued(reqs[i].at, reqs[j].at), rate.capacity)
  {
    RefusalSpendsNothing(rate, reqs, i, avail);
    var grown := GrownSince(rate, reqs, i, reqs[j].at, avail);
    SilenceKeepsAvail(rate, reqs, reqs[i].key, i + 1, j, reqs[j].at);
  }

  lemma RefusalSpendsNothing(rate: Rate, reqs: seq<Request>, i: nat, avail: real)
    requires rate.Ordinary() && InOrder(reqs) && i < |reqs| && DecisionAt(rate, reqs, i).Refuse?
    requires avail == Avail(rate, After(rate, reqs[..i]), reqs[i].key, reqs[i].at)
    ensures avail == Avail(rate, After(rate, reqs[..i + 1]), reqs[i].key, reqs[i].at)
  {
    StepSpends(rate, reqs, reqs[i].key, i);
  }

  lemma GrownSince(rate: Rate, reqs: seq<Request>, i: nat, now: real, left: real) returns (grown: real)
    requires rate.Ordinary() && InOrder(reqs) && i < |reqs| && reqs[i].at <= now
    requires left == Avail(rate, After(rate, reqs[..i + 1]), reqs[i].key, reqs[i].at)
    ensures grown == Avail(rate, After(rate, reqs[..i + 1]), reqs[i].key, now)
    ensures grown == MinR(left + rate.accrued(reqs[i].at, now), rate.capacity)
  {
    RunAvailGrows(rate, reqs, reqs[i].key, i + 1, reqs[i].at, now);
    grown := Avail(rate, After(rate, reqs[..i + 1]), reqs[i].key, now);
  }

  // ---- against a limiter that never evicts ----

  function UnboundedAfter(rate: Rate, reqs: seq<Request>): Buckets
    decreases |reqs|
  {
    if reqs == [] then map[]
    else
      var (init, last) := (reqs[..|reqs| - 1], reqs[|reqs| - 1]);
      Take(rate, UnboundedAfter(rate, init), last.key, last.at).0
  }

  function UnboundedDecisionAt(rate: Rate, reqs: seq<Request>, i: nat): Decision
    requires i < |reqs|
  {
    Take(rate, UnboundedAfter(rate, reqs[..i]), reqs[i].key, reqs[i].at).1
  }

  predicate NobodyMeetsFull(rate: Rate, reqs: seq<Request>) {
    forall i :: 0 <= i < |reqs| ==> !MeetsFull(After(rate, reqs[..i]), reqs[i].key, reqs[i].at)
  }

  lemma {:induction false} UnboundedSane(rate: Rate, reqs: seq<Request>, now: real)
    requires rate.Steady() && InOrder(reqs) && (reqs != [] ==> reqs[|reqs| - 1].at <= now)
    ensures Sane(rate, UnboundedAfter(rate, reqs), now)
    decreases |reqs|
  {
    if reqs != [] {
      var (init, last) := (reqs[..|reqs| - 1], reqs[|reqs| - 1]);
      UnboundedSane(rate, init, last.at);
      TakeSpends(rate, UnboundedAfter(rate, init), last.key, last.at);
    }
  }

  /** At every later time both limiters give every client the same number. */
  lemma {:induction false} SameAvail(rate: Rate, reqs: seq<Request>, key: IpAddr, t: real)
    requires rate.Ordinary() && InOrder(reqs) && NobodyMeetsFull(rate, reqs) && (reqs != [] ==> reqs[|reqs| - 1].at <= t)
    ensures Avail(rate, After(rate, reqs), key, t) == Avail(rate, UnboundedAfter(rate, reqs), key, t)
    decreases |reqs|
  {
    if reqs != [] {
      var (init, last) := (reqs[..|reqs| - 1], reqs[|reqs| - 1]);
      InitNeverFull(rate, reqs);
      RunsAreSane(rate, init, last.at);
      UnboundedSane(rate, init, last.at);
      TakeSpends(rate, UnboundedAfter(rate, init), last.key, last.at);
      if key == last.key {
        SameAvail(rate, init, key, last.at);
        CheckSpends(rate, After(rate, init), key, last.at);
        AvailGrows(rate, After(rate, reqs), key, last.at, t);
        AvailGrows(rate, UnboundedAfter(rate, reqs), key, last.at, t);
      } else {
        SameAvail(rate, init, key, t);
        CheckSparesOthers(rate, After(rate, init), last.key, last.at, key, t);
      }
    }
  }

  lemma InitNeverFull(rate: Rate, reqs: seq<Request>)
    requires reqs != [] && NobodyMeetsFull(rate, reqs)
    ensures NobodyMeetsFull(rate, reqs[..|reqs| - 1])
    ensures !MeetsFull(After(rate, reqs[..|reqs| - 1]), reqs[|reqs| - 1].key, reqs[|reqs| - 1].at)
  {
    var init := reqs[..|reqs| - 1];
    forall i | 0 <= i < |init| ensures !MeetsFull(After(rate, init[..i]), init[i].key, init[i].at) {
      assert init[..i] == reqs[..i];
    }
  }

  /**
   Eviction is unobservable: in every run in which no newcomer meets a full map,
   every decision, delays included, is the one a limiter that never forgets makes.
   */
  lemma {:induction false} EvictionUnobservable(quota: Quota, reqs: seq<Request>, i: nat)
    requires quota.capacity >= 1 && quota.period <= 300.0
    requires InOrder(reqs) && NobodyMeetsFull(RateOf(quota), reqs) && i < |reqs|
    ensures DecisionAt(RateOf(quota), reqs, i) == UnboundedDecisionAt(RateOf(quota), reqs, i)
  {
    OrdinaryQuotas(quota);
    DecisionsAgree(RateOf(quota), reqs, i);
  }

  lemma DecisionsAgree(rate: Rate, reqs: seq<Request>, i: nat)
    requires rate.Ordinary() && InOrder(reqs) && NobodyMeetsFull(rate, reqs) && i < |reqs|
    ensures DecisionAt(rate, reqs, i) == UnboundedDecisionAt(rate, reqs, i)
  {
    var init := reqs[..i];
    forall k | 0 <= k < i ensures !MeetsFull(After(rate, init[..k]), init[k].key, init[k].at) {
      assert init[..k] == reqs[..k];
    }
    SameAvail(rate, init, reqs[i].key, reqs[i].at);
    RunsAreSane(rate, init, reqs[i].at);
    UnboundedSane(rate, init, reqs[i].at);
    CheckSpends(rate, After(rate, init), reqs[i].key, reqs[i].at);
    TakeSpends(rate, UnboundedAfter(rate, init), reqs[i].key, reqs[i].at);
  }
}
