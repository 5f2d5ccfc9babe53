/** The in-memory token-bucket limiter (`src/grpc/interceptors/rate_limiter.rs`).

    Time is an integer number of ticks (nanoseconds, as in `Instant`), and a refill of
    `elapsed / window * capacity` tokens is computed exactly and rounded down. */
module RateLimiter {
  import opened Wrappers

  const U32_SIZE: nat := 0x1_0000_0000
  const TICKS_PER_SECOND: nat := 1_000_000_000

  type u32 = n: nat | n < 0x1_0000_0000

  /** At most `limit` requests per `window` ticks. */
  datatype Policy = Policy(limit: u32, window: nat)

  const PAYMENT_POLICY := Policy(3, 3600 * TICKS_PER_SECOND)
  const GETINFO_POLICY := Policy(60, 3600 * TICKS_PER_SECOND)
  const STREAM_POLICY := Policy(12, 3600 * TICKS_PER_SECOND)

  const STREAM_METHODS := ["xpay_stream", "invoice_watch", "watch_channels", "watch_peers", "watch_system"]

  function PolicyForMethod(name: string): Option<Policy> {
    if name == "invoice" || name == "xpay" then Some(PAYMENT_POLICY)
    else if name == "getinfo" then Some(GETINFO_POLICY)
    else if name in STREAM_METHODS then Some(STREAM_POLICY)
    else None
  }

  datatype Bucket = Bucket(tokens: nat, capacity: nat, window: nat, lastRefill: nat)

  /** `Instant::duration_since`, which saturates at zero. */
  function Elapsed(now: nat, earlier: nat): nat {
    if now >= earlier then now - earlier else 0
  }

  function RefillTokens(elapsed: nat, window: nat, capacity: nat): nat
    requires window > 0
  {
    elapsed * capacity / window
  }

  /** `bucket.tokens + refill_tokens` in `u32` arithmetic. */
  function AddU32(a: nat, b: nat): nat {
    (a + b) % U32_SIZE
  }

  function Min(a: nat, b: nat): nat {
    if a <= b then a else b
  }

  function Refill(b: Bucket, now: nat): Bucket {
    var elapsed := Elapsed(now, b.lastRefill);
    if elapsed >= b.window then b.(tokens := b.capacity, lastRefill := now)
    else if b.tokens < b.capacity then
      var refill := RefillTokens(elapsed, b.window, b.capacity);
      if refill > 0 then b.(tokens := Min(AddU32(b.tokens, refill), b.capacity), lastRefill := now)
      else b
    else b
  }

  /** One check on one bucket: the bucket afterwards and whether the request is allowed. */
  function CheckBucket(b: Option<Bucket>, now: nat, p: Policy): (Bucket, bool) {
    var b0 := if b.Some? then b.value else Bucket(p.limit, p.limit, p.window, now);
    var b1 := Refill(b0.(capacity := p.limit, window := p.window), now);
    if b1.tokens > 0 then (b1.(tokens := b1.tokens - 1), true) else (b1, false)
  }

  function Get<V>(m: map<string, V>, key: string): Option<V> {
    if key in m then Some(m[key]) else None
  }

  /** The test of `retain` in `cleanup`. */
  predicate Fresh(b: Bucket, now: nat) {
    Elapsed(now, b.lastRefill) < b.window * 2
  }

  function Retain(m: map<string, Bucket>, now: nat): map<string, Bucket> {
    map k | k in m && Fresh(m[k], now) :: m[k]
  }

  class InMemoryRateLimiter {
    var buckets: map<string, Bucket>

    constructor ()
      ensures buckets == map[]
    {
      buckets := map[];
    }

    method Check(key: string, policy: Policy, now: nat) returns (allowed: bool)
      modifies this
      ensures var (b, ok) := CheckBucket(Get(old(buckets), key), now, policy);
              buckets == old(buckets)[key := b] && allowed == ok
    {
      if key !in buckets {
        buckets := buckets[key := Bucket(policy.limit, policy.limit, policy.window, now)];
      }
      var bucket := buckets[key].(capacity := policy.limit, window := policy.window);

      var elapsed := Elapsed(now, bucket.lastRefill);
      if elapsed >= bucket.window {
        bucket := bucket.(tokens := bucket.capacity, lastRefill := now);
      } else if bucket.tokens < bucket.capacity {
        var refill := elapsed * bucket.capacity / bucket.window;
        if refill > 0 {
          bucket := bucket.(tokens := Min(AddU32(bucket.tokens, refill), bucket.capacity), lastRefill := now);
        }
      }

      allowed := bucket.tokens > 0;
      if allowed {
        bucket := bucket.(tokens := bucket.tokens - 1);
      }
      buckets := buckets[key := bucket];
    }

    method Cleanup(now: nat)
      modifies this
      ensures buckets == Retain(old(buckets), now)
    {
      var todo := buckets.Keys;
      var kept: map<string, Bucket> := map[];
      while todo != {}
        invariant todo <= buckets.Keys && buckets == old(buckets)
        invariant kept == map k | k in buckets && k !in todo && Fresh(buckets[k], now) :: buckets[k]
        decreases |todo|
      {
        var key :| key in todo;
        if Fresh(buckets[key], now) {
          kept := kept[key := buckets[key]];
        }
        todo := todo - {key};
      }
      buckets := kept;
    }
  }

  // ---- runs over many keys, with cleanups ----

  /** One use of the limiter, in the order in which its lock was taken. */
  datatype Op = CheckAt(key: string, now: nat) | CleanupAt(now: nat)

  ghost predicate Ordered(ops: seq<Op>) {
    forall i, j :: 0 <= i < j < |ops| ==> ops[i].now <= ops[j].now
  }

  function Step(m: map<string, Bucket>, op: Op, policy: string -> Policy): map<string, Bucket> {
    match op
    case CheckAt(key, now) => m[key := CheckBucket(Get(m, key), now, policy(key)).0]
    case CleanupAt(now) => Retain(m, now)
  }

  /** The decisions of a run, check by check. */
  function Decisions(m: map<string, Bucket>, ops: seq<Op>, policy: string -> Policy): seq<bool>
    decreases |ops|
  {
    if ops == [] then []
    else
      (if ops[0].CheckAt? then [CheckBucket(Get(m, ops[0].key), ops[0].now, policy(ops[0].key)).1] else [])
      + Decisions(Step(m, ops[0], policy), ops[1..], policy)
  }

  /** The decisions on one key only. */
  function DecisionsFor(m: map<string, Bucket>, ops: seq<Op>, policy: string -> Policy, key: string): seq<bool>
    decreases |ops|
  {
    if ops == [] then []
    else
      (if ops[0].CheckAt? && ops[0].key == key
       then [CheckBucket(Get(m, key), ops[0].now, policy(key)).1] else [])
      + DecisionsFor(Step(m, ops[0], policy), ops[1..], policy, key)
  }

  function WithoutCleanups(ops: seq<Op>): seq<Op>
    decreases |ops|
  {
    if ops == [] then []
    else (if ops[0].CheckAt? then [ops[0]] else []) + WithoutCleanups(ops[1..])
  }

  function TimesOf(ops: seq<Op>, key: string): seq<nat>
    decreases |ops|
  {
    if ops == [] then []
    else (if ops[0].CheckAt? && ops[0].key == key then [ops[0].now] else []) + TimesOf(ops[1..], key)
  }

  /** The decisions of a single bucket checked at the given times. */
  function Solo(b: Option<Bucket>, times: seq<nat>, p: Policy): seq<bool>
    decreases |times|
  {
    if times == [] then []
    else
      var (b', ok) := CheckBucket(b, times[0], p);
      [ok] + Solo(Some(b'), times[1..], p)
  }

  /** At time `t` the bucket `b` of a limiter that was cleaned answers like the bucket `c`
      of one that was not: it is the same, or it is missing and `c` is a full window old. */
  ghost predicate Alike(b: Option<Bucket>, c: Option<Bucket>, t: nat, p: Policy) {
    && (c.Some? ==> c.value.lastRefill <= t && c.value.window == p.window && c.value.capacity == p.limit)
    && (b == c || (b.None? && c.Some? && t - c.value.lastRefill >= p.window))
  }

  ghost predicate AllAlike(m: map<string, Bucket>, n: map<string, Bucket>, t: nat, policy: string -> Policy) {
    forall k :: Alike(Get(m, k), Get(n, k), t, policy(k))
  }

  lemma AlikeCheck(b: Option<Bucket>, c: Option<Bucket>, t: nat, now: nat, p: Policy)
    requires Alike(b, c, t, p) && t <= now
    ensures CheckBucket(b, now, p) == CheckBucket(c, now, p)
    ensures Alike(Some(CheckBucket(b, now, p).0), Some(CheckBucket(c, now, p).0), now, p)
  {
    if b.None? && c.Some? {
      var made := Bucket(p.limit, p.limit, p.window, now);
      assert RefillTokens(0, 1, p.limit) == 0;
      assert Refill(made, now).tokens == p.limit && Refill(made, now).lastRefill == now;
    }
  }

  lemma AlikeLater(b: Option<Bucket>, c: Option<Bucket>, t: nat, now: nat, p: Policy)
    requires Alike(b, c, t, p) && t <= now
    ensures Alike(b, c, now, p)
  {
  }

  lemma AlikeRetain(m: map<string, Bucket>, k: string, c: Option<Bucket>, t: nat, now: nat, p: Policy)
    requires Alike(Get(m, k), c, t, p) && t <= now
    ensures Alike(Get(Retain(m, now), k), c, now, p)
  {
  }

  lemma AllAlikeStep(m: map<string, Bucket>, n: map<string, Bucket>, t: nat, op: Op, policy: string -> Policy)
    requires AllAlike(m, n, t, policy) && t <= op.now
    ensures AllAlike(Step(m, op, policy), if op.CheckAt? then Step(n, op, policy) else n, op.now, policy)
  {
    var m' := Step(m, op, policy);
    var n' := if op.CheckAt? then Step(n, op, policy) else n;
    forall k ensures Alike(Get(m', k), Get(n', k), op.now, policy(k)) {
      assert Alike(Get(m, k), Get(n, k), t, policy(k));
      if op.CleanupAt? {
        AlikeRetain(m, k, Get(n, k), t, op.now, policy(k));
      } else if op.key == k {
        AlikeCheck(Get(m, k), Get(n, k), t, op.now, policy(k));
      } else {
        AlikeLater(Get(m, k), Get(n, k), t, op.now, policy(k));
      }
    }
  }

  lemma {:induction false} CleanupInvisibleFrom(
    m: map<string, Bucket>, n: map<string, Bucket>, t: nat, ops: seq<Op>, policy: string -> Policy)
    requires AllAlike(m, n, t, policy) && Ordered(ops) && (ops != [] ==> t <= ops[0].now)
    ensures Decisions(m, ops, policy) == Decisions(n, WithoutCleanups(ops), policy)
    decreases |ops|
  {
    if ops != [] {
      var op := ops[0];
      AllAlikeStep(m, n, t, op, policy);
      if op.CheckAt? {
        assert Alike(Get(m, op.key), Get(n, op.key), t, policy(op.key));
        AlikeCheck(Get(m, op.key), Get(n, op.key), t, op.now, policy(op.key));
        CleanupInvisibleFrom(Step(m, op, policy), Step(n, op, policy), op.now, ops[1..], policy);
        assert WithoutCleanups(ops)[1..] == WithoutCleanups(ops[1..]);
      } else {
        CleanupInvisibleFrom(Step(m, op, policy), n, op.now, ops[1..], policy);
        assert WithoutCleanups(ops) == WithoutCleanups(ops[1..]);
      }
    }
  }

  /** Cleanup is unobservable: wherever cleanups run, every check is decided as if none
      ever had. */
  lemma CleanupIsInvisible(ops: seq<Op>, policy: string -> Policy)
    requires Ordered(ops)
    ensures Decisions(map[], ops, policy) == Decisions(map[], WithoutCleanups(ops), policy)
  {
    CleanupInvisibleFrom(map[], map[], 0, ops, policy);
  }

  lemma {:induction false} KeyIsolatedFrom(
    m: map<string, Bucket>, b: Option<Bucket>, t: nat, ops: seq<Op>, policy: string -> Policy, key: string)
    requires Alike(Get(m, key), b, t, policy(key)) && Ordered(ops) && (ops != [] ==> t <= ops[0].now)
    ensures DecisionsFor(m, ops, policy, key) == Solo(b, TimesOf(ops, key), policy(key))
    decreases |ops|
  {
    if ops != [] {
      var op := ops[0];
      var m' := Step(m, op, policy);
      if op.CheckAt? && op.key == key {
        AlikeCheck(Get(m, key), b, t, op.now, policy(key));
        KeyIsolatedFrom(m', Some(CheckBucket(b, op.now, policy(key)).0), op.now, ops[1..], policy, key);
        assert TimesOf(ops, key)[1..] == TimesOf(ops[1..], key);
      } else {
        if op.CleanupAt? {
          AlikeRetain(m, key, b, t, op.now, policy(key));
        } else {
          AlikeLater(Get(m, key), b, t, op.now, policy(key));
        }
        KeyIsolatedFrom(m', b, op.now, ops[1..], policy, key);
        assert TimesOf(ops, key) == TimesOf(ops[1..], key);
      }
    }
  }

  /** The decisions on a key are those of one bucket of its own: no other key and no
      cleanup has any part in them. */
  lemma KeyIsIsolated(ops: seq<Op>, policy: string -> Policy, key: string)
    requires Ordered(ops)
    ensures DecisionsFor(map[], ops, policy, key) == Solo(None, TimesOf(ops, key), policy(key))
  {
    KeyIsolatedFrom(map[], None, 0, ops, policy, key);
  }
}
