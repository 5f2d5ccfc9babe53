/** What the in-memory limiter (`src/grpc/interceptors/rate_limiter.rs`) has to grant, and
    which buckets a cleanup has to forget: the other side of `RateBounds`. */
module RateService {
  import opened Wrappers
  import opened RateLimiter
  import opened RateBounds

  /** The requests that a bucket can pay for at `now`: what it has left and what the time
      since its last refill adds, up to the limit. */
  function Available(b: Bucket, now: nat, p: Policy): nat
    requires Sane(p) && b.lastRefill <= now
  {
    var e := now - b.lastRefill;
    if e >= p.window then p.limit else Min(b.tokens + e * p.limit / p.window, p.limit)
  }

  lemma RefillIsAvailable(b: Bucket, now: nat, p: Policy)
    requires Sane(p) && Fits(p) && Filled(b, p, now)
    ensures Refill(b, now).tokens == Available(b, now, p) >= b.tokens
    ensures Filled(Refill(b, now), p, now)
  {
    var e := now - b.lastRefill;
    var q := RefillTokens(e, p.window, p.limit);
    assert q == e * p.limit / p.window;
    if e < p.window && b.tokens < p.limit { RefillDoesNotWrap(b, p, now); }
    hide RefillTokens, AddU32;
    assert e < p.window ==> Available(b, now, p) == Min(b.tokens + q, p.limit);
  }

  /** A check is granted exactly when there is something to pay with, and takes one. */
  lemma CheckIsExact(b: Bucket, now: nat, p: Policy)
    requires Sane(p) && Fits(p) && Filled(b, p, now)
    ensures var (r, ok) := CheckBucket(Some(b), now, p);
            && (ok <==> Available(b, now, p) > 0)
            && r.tokens + (if ok then 1 else 0) == Available(b, now, p) >= b.tokens
            && Filled(r, p, now)
  {
    assert b.(capacity := p.limit, window := p.window) == b;
    RefillIsAvailable(b, now, p);
    hide Refill, Available;
  }

  /** A check at the same instant finds what the one before has left. */
  lemma SameInstant(b: Bucket, now: nat, p: Policy)
    requires Sane(p) && Fits(p) && Filled(b, p, now) && b.tokens < p.limit
    ensures var r := CheckBucket(Some(b), now, p).0;
            r.tokens < p.limit && r.lastRefill <= now && Available(r, now, p) == r.tokens
  {
    CheckIsExact(b, now, p);
    NoRefillIsShort(b, now, p);
    var r := CheckBucket(Some(b), now, p).0;
    if r.lastRefill != now {
      assert r.lastRefill == b.lastRefill by { CheckSpends(b, now, p); }
      ShortOfOne(now - b.lastRefill, p);
    } else {
      ShortOfOne(0, p);
    }
  }

  lemma ShortOfOne(e: nat, p: Policy)
    requires Sane(p) && e * p.limit < p.window
    ensures e * p.limit / p.window == 0 && e < p.window
  {
    FloorBelow(e * p.limit, p.window, 1);
    MulMono(1, p.limit, e);
  }

  /** A burst is granted as far as the tokens go. */
  lemma {:induction false} BurstFrom(b: Bucket, now: nat, k: nat, p: Policy)
    requires Sane(p) && Fits(p) && Filled(b, p, now) && b.tokens < p.limit
    ensures Admitted(Some(b), Repeat(now, k), p) == Min(k, Available(b, now, p))
    decreases k
  {
    if k > 0 {
      CheckIsExact(b, now, p);
      SameInstant(b, now, p);
      hide CheckBucket, Available;
      assert Repeat(now, k)[1..] == Repeat(now, k - 1);
      BurstFrom(CheckBucket(Some(b), now, p).0, now, k - 1, p);
    }
  }

  /** Whatever came before, a burst of `k` requests gets exactly as many through as the
      bucket has tokens left and the time since its last refill pays for. */
  lemma BurstIsExact(before: seq<nat>, now: nat, k: nat, p: Policy)
    requires Sane(p) && Fits(p) && before != [] && Sorted(before + [now])
    ensures var b := After(None, before, p);
            && b.Some? && b.value.lastRefill <= now
            && Admitted(b, Repeat(now, k), p) == Min(k, Available(b.value, now, p))
  {
    SortedParts(before, [now]);
    RunLeaves(before, p);
    BurstFrom(After(None, before, p).value, now, k, p);
  }

  /** A new key gets its whole limit at once, and no more. */
  lemma {:induction false} FirstBurstIsExact(now: nat, k: nat, p: Policy)
    requires Sane(p) && Fits(p)
    ensures Admitted(None, Repeat(now, k), p) == Min(k, p.limit)
  {
    if k > 0 {
      FirstCheck(now, p);
      assert Repeat(now, k)[1..] == Repeat(now, k - 1);
      ShortOfOne(0, p);
      BurstFrom(Bucket(p.limit - 1, p.limit, p.window, now), now, k - 1, p);
    }
  }

  /** So does one that was left alone for a window. */
  lemma IdleKeyIsFull(before: seq<nat>, now: nat, k: nat, p: Policy)
    requires Sane(p) && Fits(p) && before != [] && Sorted(before)
    requires now >= before[|before| - 1] + p.window
    ensures Admitted(After(None, before, p), Repeat(now, k), p) == Min(k, p.limit)
  {
    BurstIsExact(before, now, k, p);
    RunLeaves(before, p);
  }

  // ---- no token is lost ----

  /** While the bucket has tokens every check passes, whenever it comes. */
  lemma {:induction false} TokensAreGranted(b: Bucket, times: seq<nat>, i: nat, p: Policy)
    requires Sane(p) && Fits(p) && Sorted(times) && i < |times| && i < b.tokens && Filled(b, p, times[0])
    ensures i < |Solo(Some(b), times, p)| && Solo(Some(b), times, p)[i]
    decreases i
  {
    CheckIsExact(b, times[0], p);
    if i > 0 {
      var b' := CheckBucket(Some(b), times[0], p).0;
      CheckSpends(b, times[0], p);
      var rest := times[1..];
      hide CheckBucket;
      assert Filled(b', p, rest[0]);
      TokensAreGranted(b', rest, i - 1, p);
    }
  }

  /** The first `limit` requests on a key are all granted, whenever they come. */
  lemma FirstRequestsPass(times: seq<nat>, i: nat, p: Policy)
    requires Sane(p) && Fits(p) && Sorted(times) && i < |times| && i < p.limit
    ensures i < |Solo(None, times, p)| && Solo(None, times, p)[i]
  {
    FirstCheck(times[0], p);
    if i > 0 {
      var b := Bucket(p.limit - 1, p.limit, p.window, times[0]);
      hide CheckBucket;
      assert Solo(None, times, p) == [true] + Solo(Some(b), times[1..], p);
      TokensAreGranted(b, times[1..], i - 1, p);
    }
  }

  lemma {:induction false} AllTrue(s: seq<bool>)
    requires forall i :: 0 <= i < |s| ==> s[i]
    ensures Trues(s) == |s|
  {
    if s != [] {
      assert forall i :: 0 <= i < |s| - 1 ==> s[1..][i] == s[i + 1];
      AllTrue(s[1..]);
    }
  }

  lemma {:induction false} SoloSize(b: Option<Bucket>, times: seq<nat>, p: Policy)
    ensures |Solo(b, times, p)| == |times|
    decreases |times|
  {
    if times != [] { SoloSize(Some(CheckBucket(b, times[0], p).0), times[1..], p); }
  }

  /** Up to `limit` requests always pass. */
  ghost predicate LimitIsGranted(p: Policy) {
    forall times: seq<nat> :: Sorted(times) && |times| <= p.limit ==> Admitted(None, times, p) == |times|
  }

  lemma UpToLimit(times: seq<nat>, p: Policy)
    requires Sane(p) && Fits(p) && Sorted(times) && |times| <= p.limit
    ensures Admitted(None, times, p) == |times|
  {
    SoloSize(None, times, p);
    forall i | 0 <= i < |times| ensures Solo(None, times, p)[i] {
      FirstRequestsPass(times, i, p);
    }
    AllTrue(Solo(None, times, p));
    AdmittedIsTrues(None, times, p);
  }

  /** A sum that wraps throws tokens away, and a request within the limit is refused. */
  lemma WrappedSumRefuses(p: Policy)
    requires Sane(p) && !Fits(p)
    ensures !LimitIsGranted(p)
  {
    var late, b := p.window - 1, Bucket(p.limit - 1, p.limit, p.window, 0);
    FirstCheck(0, p);
    PartialRefillIsSmall(late, p.window, p.limit);
    var left := p.limit - 1 + RefillTokens(late, p.window, p.limit) - U32_SIZE;
    assert 0 <= left < p.limit - 1;
    var burst := Repeat(late, left + 1);
    WrappedBurst(p, left);
    var times := [0] + burst;
    assert times[1..] == burst;
    assert Sorted(times) && |times| <= p.limit;
  }

  lemma WrappedBurst(p: Policy, left: nat)
    requires Sane(p) && left < p.limit - 1
    requires left + U32_SIZE == p.limit - 1 + RefillTokens(p.window - 1, p.window, p.limit)
    ensures Admitted(Some(Bucket(p.limit - 1, p.limit, p.window, 0)), Repeat(p.window - 1, left + 1), p) == left
  {
    var late, b := p.window - 1, Bucket(p.limit - 1, p.limit, p.window, 0);
    var r := Bucket(left, p.limit, p.window, late);
    assert Refill(b, late) == r;
    assert Repeat(late, left + 1)[1..] == Repeat(late, left);
    if left == 0 {
      assert CheckBucket(Some(b), late, p) == (r, false);
      assert Admitted(Some(r), Repeat(late, 0), p) == 0;
    } else {
      var next := r.(tokens := left - 1);
      assert CheckBucket(Some(b), late, p) == (next, true);
      hide CheckBucket, Refill, RefillTokens;
      EmptyAfterBurst(next, left, p);
    }
  }

  /** One request more than there are tokens. */
  lemma EmptyAfterBurst(b: Bucket, n: nat, p: Policy)
    requires Sane(p) && Filled(b, p, b.lastRefill) && b.tokens == n - 1 < p.limit && n > 0
    ensures Admitted(Some(b), Repeat(b.lastRefill, n), p) == n - 1
  {
    var t, empty := b.lastRefill, b.(tokens := 0);
    BurstSpends(b, n - 1, p);
    EmptyRefuses(empty, p);
    RepeatSnoc(t, n - 1);
    hide Admitted, After, Repeat, Filled;
    AfterConcat(Some(b), Repeat(t, n - 1), [t], p);
  }

  lemma EmptyRefuses(b: Bucket, p: Policy)
    requires Sane(p) && Filled(b, p, b.lastRefill) && b.tokens == 0
    ensures Admitted(Some(b), [b.lastRefill], p) == 0
  {
    assert RefillTokens(0, p.window, p.limit) == 0;
    assert b.(capacity := p.limit, window := p.window) == b;
    assert CheckBucket(Some(b), b.lastRefill, p) == (b, false);
    hide CheckBucket;
  }

  lemma {:induction false} RepeatSnoc(t: nat, n: nat)
    ensures Repeat(t, n + 1) == Repeat(t, n) + [t]
  {
  }

  /** The first `limit` requests on a key pass in every run if and only if no refill can
      wrap. */
  lemma LimitIsGrantedExactly(p: Policy)
    requires Sane(p)
    ensures LimitIsGranted(p) <==> Fits(p)
  {
    if Fits(p) {
      forall times: seq<nat> | Sorted(times) && |times| <= p.limit ensures Admitted(None, times, p) == |times| {
        UpToLimit(times, p);
      }
    } else {
      WrappedSumRefuses(p);
    }
  }

  // ---- the keys of the shared map ----

  lemma {:induction false} TimesSorted(ops: seq<Op>, key: string)
    requires Ordered(ops)
    ensures Sorted(TimesOf(ops, key)) && forall i :: 0 <= i < |TimesOf(ops, key)| ==> ops[0].now <= TimesOf(ops, key)[i]
    decreases |ops|
  {
    if ops != [] {
      TimesSorted(ops[1..], key);
      if |ops| > 1 { assert ops[1..][0] == ops[1]; }
    }
  }

  /** Whatever other keys and cleanups do, the first `limit` checks of a key are allowed. */
  lemma KeyGetsItsLimit(ops: seq<Op>, policy: string -> Policy, key: string, i: nat)
    requires Ordered(ops) && Sane(policy(key)) && Fits(policy(key))
    requires i < |TimesOf(ops, key)| && i < policy(key).limit
    ensures i < |DecisionsFor(map[], ops, policy, key)| && DecisionsFor(map[], ops, policy, key)[i]
  {
    KeyIsIsolated(ops, policy, key);
    TimesSorted(ops, key);
    FirstRequestsPass(TimesOf(ops, key), i, policy(key));
  }

  // ---- what a cleanup forgets ----

  function Run(m: map<string, Bucket>, ops: seq<Op>, policy: string -> Policy): map<string, Bucket>
    decreases |ops|
  {
    if ops == [] then m else Run(Step(m, ops[0], policy), ops[1..], policy)
  }

  /** The last check on a key. */
  function LastUse(ops: seq<Op>, key: string): Option<nat> {
    if ops == [] then None
    else
      var op := ops[|ops| - 1];
      if op.CheckAt? && op.key == key then Some(op.now) else LastUse(ops[..|ops| - 1], key)
  }

  /** A key's bucket at time `t`, when its last check was at `use`: there, and refilled less
      than a window before that check; or away, the check a window ago or more. */
  ghost predicate Aged(b: Option<Bucket>, use: Option<nat>, t: nat, p: Policy) {
    match use
    case None => b.None?
    case Some(u) =>
      && u <= t
      && (b.Some? ==> Filled(b.value, p, u) && b.value.tokens < p.limit && u < b.value.lastRefill + p.window)
      && (b.None? ==> u + p.window <= t)
  }

  lemma AgedCheck(b: Option<Bucket>, use: Option<nat>, t: nat, now: nat, p: Policy)
    requires Sane(p) && Aged(b, use, t, p) && t <= now
    ensures Aged(Some(CheckBucket(b, now, p).0), Some(now), now, p)
  {
    if b.None? {
      FirstCheck(now, p);
    } else {
      CheckSpends(b.value, now, p);
      NoRefillIsShort(b.value, now, p);
      var r := CheckBucket(b, now, p).0;
      if r.lastRefill != now { ShortOfOne(now - b.value.lastRefill, p); }
    }
  }

  lemma AgedRetain(m: map<string, Bucket>, key: string, use: Option<nat>, t: nat, now: nat, p: Policy)
    requires Sane(p) && Aged(Get(m, key), use, t, p) && t <= now
    ensures Aged(Get(Retain(m, now), key), use, now, p)
  {
  }

  lemma {:induction false} RunSnoc(m: map<string, Bucket>, ops: seq<Op>, op: Op, policy: string -> Policy)
    ensures Run(m, ops + [op], policy) == Step(Run(m, ops, policy), op, policy)
    decreases |ops|
  {
    hide Step;
    if ops == [] {
      assert ops + [op] == [op] && [op][1..] == [];
    } else {
      assert (ops + [op])[1..] == ops[1..] + [op];
      RunSnoc(Step(m, ops[0], policy), ops[1..], op, policy);
    }
  }

  lemma {:induction false} AgedRun(ops: seq<Op>, policy: string -> Policy, key: string)
    requires Ordered(ops) && Sane(policy(key))
    ensures Aged(Get(Run(map[], ops, policy), key), LastUse(ops, key),
                 if ops == [] then 0 else ops[|ops| - 1].now, policy(key))
  {
    if ops != [] {
      var n := |ops| - 1;
      var init, op := ops[..n], ops[n];
      assert ops == init + [op];
      RunSnoc(map[], init, op, policy);
      AgedRun(init, policy, key);
      var t := if init == [] then 0 else init[n - 1].now;
      assert t <= op.now;
      hide CheckBucket, Sane, Filled, Run;
      if op.CleanupAt? {
        AgedRetain(Run(map[], init, policy), key, LastUse(init, key), t, op.now, policy(key));
      } else if op.key == key {
        AgedCheck(Get(Run(map[], init, policy), key), LastUse(init, key), t, op.now, policy(key));
      }
    }
  }

  /** After a cleanup every key that was used within the last window is still there, and none
      that was not used for two windows, or never. */
  lemma CleanupForgetsIdleKeys(ops: seq<Op>, now: nat, policy: string -> Policy, key: string)
    requires Ordered(ops + [CleanupAt(now)]) && Sane(policy(key))
    ensures var m := Run(map[], ops + [CleanupAt(now)], policy);
            match LastUse(ops, key)
            case None => key !in m
            case Some(u) =>
              (now < u + policy(key).window ==> key in m) && (now >= u + 2 * policy(key).window ==> key !in m)
  {
    var all := ops + [CleanupAt(now)];
    assert all[..|ops|] == ops;
    assert Ordered(ops) by { assert forall i :: 0 <= i < |ops| ==> ops[i] == all[i]; }
    AgedRun(ops, policy, key);
    AgedRun(all, policy, key);
    RunSnoc(map[], ops, CleanupAt(now), policy);
    hide CheckBucket, Run;
  }
}
