/** How many requests one key can get through the in-memory limiter.

    `security/availability-invariants.md` promises at most `limit` requests per window.
    What the code gives is at most `2 * limit - 1` in any window-long interval, and no
    smaller number will do unless the window has fewer ticks than `limit`. */
module RateBounds {
  import opened Wrappers
  import opened RateLimiter

  // ---- runs of checks on one bucket ----

  function After(b: Option<Bucket>, times: seq<nat>, p: Policy): Option<Bucket>
    decreases |times|
  {
    if times == [] then b else After(Some(CheckBucket(b, times[0], p).0), times[1..], p)
  }

  /** How many of the checks are allowed. */
  function Admitted(b: Option<Bucket>, times: seq<nat>, p: Policy): nat
    decreases |times|
  {
    if times == [] then 0
    else
      var (b', ok) := CheckBucket(b, times[0], p);
      (if ok then 1 else 0) + Admitted(Some(b'), times[1..], p)
  }

  function Trues(s: seq<bool>): nat {
    if s == [] then 0 else (if s[0] then 1 else 0) + Trues(s[1..])
  }

  ghost predicate Sorted(times: seq<nat>) {
    forall i, j :: 0 <= i < j < |times| ==> times[i] <= times[j]
  }

  /** `Limits` fails startup on zeros. */
  predicate Sane(p: Policy) {
    1 <= p.limit && p.window > 0
  }

  lemma {:induction false} AdmittedIsTrues(b: Option<Bucket>, times: seq<nat>, p: Policy)
    ensures Admitted(b, times, p) == Trues(Solo(b, times, p))
    decreases |times|
  {
    if times != [] {
      var (b', ok) := CheckBucket(b, times[0], p);
      AdmittedIsTrues(Some(b'), times[1..], p);
      assert Solo(b, times, p)[1..] == Solo(Some(b'), times[1..], p);
    }
  }

  lemma {:induction false} AfterConcat(b: Option<Bucket>, xs: seq<nat>, ys: seq<nat>, p: Policy)
    ensures After(b, xs + ys, p) == After(After(b, xs, p), ys, p)
    ensures Admitted(b, xs + ys, p) == Admitted(b, xs, p) + Admitted(After(b, xs, p), ys, p)
    decreases |xs|
  {
    if xs == [] {
      assert xs + ys == ys;
    } else {
      assert (xs + ys)[1..] == xs[1..] + ys;
      AfterConcat(Some(CheckBucket(b, xs[0], p).0), xs[1..], ys, p);
    }
  }

  lemma SortedParts(xs: seq<nat>, ys: seq<nat>)
    requires Sorted(xs + ys)
    ensures Sorted(xs) && Sorted(ys)
    ensures xs != [] && ys != [] ==> xs[|xs| - 1] <= ys[0]
  {
    assert forall i :: 0 <= i < |xs| ==> xs[i] == (xs + ys)[i];
    assert forall i :: 0 <= i < |ys| ==> ys[i] == (xs + ys)[|xs| + i];
  }

  // ---- rounding ----

  lemma FloorAdd(a: nat, b: nat, w: nat)
    requires w > 0
    ensures a / w + b / w <= (a + b) / w
  {
    var q := a / w + b / w;
    assert a + b == q * w + (a % w + b % w);
    FloorAtLeast(a + b, w, q);
  }

  lemma MulMono(a: nat, b: nat, l: nat)
    requires a <= b
    ensures a * l <= b * l
  {
  }

  lemma MulCancel(a: nat, b: nat, l: nat)
    requires a * l < b * l
    ensures a < b
  {
    if b <= a { MulMono(b, a, l); }
  }

  lemma FloorAtLeast(a: nat, w: nat, q: nat)
    requires w > 0 && q * w <= a
    ensures q <= a / w
  {
    var d := a / w;
    assert a == d * w + a % w;
    assert (d + 1) * w == d * w + w;
    MulCancel(q, d + 1, w);
  }

  lemma FloorBelow(a: nat, w: nat, q: nat)
    requires w > 0 && a < q * w
    ensures a / w < q
  {
  }

  lemma MulSub(a: nat, b: nat, c: nat, l: nat)
    requires a <= b <= c
    ensures (b - a) * l + (c - b) * l == (c - a) * l
  {
  }

  // ---- one check ----

  /** A bucket of this policy with at most `limit` tokens. */
  ghost predicate Filled(b: Bucket, p: Policy, now: nat) {
    b.tokens <= p.limit && b.capacity == p.limit && b.window == p.window && b.lastRefill <= now
  }

  lemma PartialRefillIsSmall(elapsed: nat, window: nat, limit: nat)
    requires elapsed < window && 0 < limit
    ensures RefillTokens(elapsed, window, limit) < limit
  {
    assert elapsed * limit < limit * window;
    FloorBelow(elapsed * limit, window, limit);
  }

  lemma RefillGrows(e: nat, f: nat, p: Policy)
    requires p.window > 0 && e <= f
    ensures RefillTokens(e, p.window, p.limit) <= RefillTokens(f, p.window, p.limit)
  {
    MulMono(e, f, p.limit);
    var q := e * p.limit / p.window;
    FloorAtLeast(f * p.limit, p.window, q);
  }

  /** The tokens that time `from .. to` pays for, rounded down once. */
  function Paid(from: nat, to: nat, p: Policy): nat
    requires p.window > 0 && from <= to
  {
    RefillTokens(to - from, p.window, p.limit)
  }

  /** Requests allowed plus tokens left grow by no more than the time used up pays for. */
  lemma CheckSpends(b: Bucket, now: nat, p: Policy)
    requires Sane(p) && Filled(b, p, now)
    ensures var (r, ok) := CheckBucket(Some(b), now, p);
            && Filled(r, p, now) && r.tokens < p.limit
            && (r.lastRefill == b.lastRefill || r.lastRefill == now)
            && (if ok then 1 else 0) + r.tokens <= b.tokens + Paid(b.lastRefill, r.lastRefill, p)
  {
    var e := now - b.lastRefill;
    assert b.(capacity := p.limit, window := p.window) == b;
    if e >= p.window {
      assert e * p.limit >= p.limit * p.window;
      FloorAtLeast(e * p.limit, p.window, p.limit);
    }
    assert RefillTokens(0, p.window, p.limit) == 0;
  }

  lemma PaidAdds(a: nat, b: nat, c: nat, p: Policy)
    requires p.window > 0 && a <= b <= c
    ensures Paid(a, b, p) + Paid(b, c, p) <= Paid(a, c, p)
  {
    FloorAdd((b - a) * p.limit, (c - b) * p.limit, p.window);
    MulSub(a, b, c, p.limit);
  }

  /** The same over any run of checks. */
  lemma {:induction false} RunSpends(b: Bucket, times: seq<nat>, p: Policy)
    requires Sane(p) && Sorted(times) && Filled(b, p, if times == [] then b.lastRefill else times[0])
    ensures var r := After(Some(b), times, p);
            && r.Some?
            && b.lastRefill <= r.value.lastRefill
            && (times != [] ==> r.value.lastRefill <= times[|times| - 1] && r.value.tokens < p.limit)
            && Filled(r.value, p, if times == [] then b.lastRefill else times[|times| - 1])
            && Admitted(Some(b), times, p) + r.value.tokens <= b.tokens + Paid(b.lastRefill, r.value.lastRefill, p)
    decreases |times|
  {
    if times != [] {
      CheckSpends(b, times[0], p);
      var b' := CheckBucket(Some(b), times[0], p).0;
      var rest := times[1..];
      if rest == [] {
        assert After(Some(b'), rest, p) == Some(b') && Admitted(Some(b'), rest, p) == 0;
      } else {
        RunSpends(b', rest, p);
        assert rest[|rest| - 1] == times[|times| - 1];
        PaidAdds(b.lastRefill, b'.lastRefill, After(Some(b'), rest, p).value.lastRefill, p);
      }
    }
  }

  /** The first check on a key makes a full bucket and spends one token of it. */
  lemma FirstCheck(now: nat, p: Policy)
    requires Sane(p)
    ensures CheckBucket(None, now, p) == (Bucket(p.limit - 1, p.limit, p.window, now), true)
  {
    assert RefillTokens(0, p.window, p.limit) == 0;
  }

  /** From the creation of a bucket on, `limit` plus what the time pays for. */
  lemma TotalBound(times: seq<nat>, p: Policy)
    requires Sane(p) && Sorted(times) && times != []
    ensures Admitted(None, times, p) <= p.limit + Paid(times[0], times[|times| - 1], p)
  {
    FirstCheck(times[0], p);
    var b := Bucket(p.limit - 1, p.limit, p.window, times[0]);
    var rest := times[1..];
    if rest != [] {
      RunSpends(b, rest, p);
      var last := After(Some(b), rest, p).value.lastRefill;
      PaidAdds(times[0], last, times[|times| - 1], p);
      assert rest[|rest| - 1] == times[|times| - 1];
    }
  }

  // ---- the sliding window ----

  /** All checks of `w` fall into the half-open interval `[a, a + t)`. */
  ghost predicate Within(w: seq<nat>, a: nat, t: nat) {
    forall i :: 0 <= i < |w| ==> a <= w[i] < a + t
  }

  /** What an interval of `t` ticks can admit: a full bucket and what the time pays for. */
  function IntervalMax(t: nat, p: Policy): nat
    requires p.window > 0 && t > 0
  {
    p.limit + RefillTokens(t - 1, p.window, p.limit)
  }

  lemma IntervalGrows(t: nat, u: nat, p: Policy)
    requires p.window > 0 && 0 < t <= u
    ensures IntervalMax(t, p) <= IntervalMax(u, p)
  {
    RefillGrows(t - 1, u - 1, p);
  }

  /** An interval that follows less than one token's worth of time pays for one more. */
  lemma PaidPastStart(from: nat, first: nat, to: nat, t: nat, p: Policy)
    requires Sane(p) && t > 0 && from <= first && from <= to < first + t
    requires (first - from) * p.limit < p.window
    ensures Paid(from, to, p) <= RefillTokens(t - 1, p.window, p.limit) + 1
  {
    var q := RefillTokens(t - 1, p.window, p.limit);
    MulMono(to - from, (first - from) + (t - 1), p.limit);
    ProductBound(first - from, t - 1, p.window, p.limit, q);
    FloorBelow((to - from) * p.limit, p.window, q + 2);
  }

  lemma ProductBound(y: nat, z: nat, w: nat, l: nat, q: nat)
    requires 0 < w && y * l < w && q == z * l / w
    ensures (y + z) * l < (q + 2) * w
  {
    assert (y + z) * l == y * l + z * l;
    assert z * l == q * w + z * l % w;
    assert (q + 2) * w == q * w + w + w;
  }

  /** What is left to spend after a check, before the interval is over. */
  lemma RestOfInterval(b: Bucket, rest: seq<nat>, first: nat, t: nat, p: Policy)
    requires Sane(p) && t > 0 && Sorted([first] + rest) && Within([first] + rest, first, t)
    requires Filled(b, p, first)
    ensures b.lastRefill == first ==>
      Admitted(Some(b), rest, p) <= b.tokens + RefillTokens(t - 1, p.window, p.limit)
    ensures (first - b.lastRefill) * p.limit < p.window ==>
      Admitted(Some(b), rest, p) <= b.tokens + RefillTokens(t - 1, p.window, p.limit) + 1
  {
    assert ([first] + rest)[0] == first;
    if rest != [] {
      SortedParts([first], rest);
      assert ([first] + rest)[|rest|] == rest[|rest| - 1];
      RunSpends(b, rest, p);
      PaidInInterval(b.lastRefill, first, After(Some(b), rest, p).value.lastRefill, t, p);
      hide Admitted, After, RefillTokens;
    }
  }

  lemma PaidInInterval(from: nat, first: nat, last: nat, t: nat, p: Policy)
    requires Sane(p) && t > 0 && from <= first && from <= last < first + t
    ensures from == first ==> Paid(from, last, p) <= RefillTokens(t - 1, p.window, p.limit)
    ensures (first - from) * p.limit < p.window ==> Paid(from, last, p) <= RefillTokens(t - 1, p.window, p.limit) + 1
  {
    if from == first {
      RefillGrows(last - first, t - 1, p);
    }
    if (first - from) * p.limit < p.window {
      PaidPastStart(from, first, last, t, p);
    }
  }

  /** A check that did not refill found less than one token's worth of time. */
  lemma NoRefillIsShort(b: Bucket, now: nat, p: Policy)
    requires Sane(p) && Filled(b, p, now) && b.tokens < p.limit
    ensures CheckBucket(Some(b), now, p).0.lastRefill != now ==> (now - b.lastRefill) * p.limit < p.window
    ensures CheckBucket(Some(b), now, p).0.lastRefill != now || now == b.lastRefill ==>
      var (r, ok) := CheckBucket(Some(b), now, p);
      (if ok then 1 else 0) + r.tokens == b.tokens
  {
    assert b.(capacity := p.limit, window := p.window) == b;
    var e := now - b.lastRefill;
    if e < p.window {
      if RefillTokens(e, p.window, p.limit) == 0 && e * p.limit >= p.window {
        FloorAtLeast(e * p.limit, p.window, 1);
      }
      if e == 0 { assert RefillTokens(0, p.window, p.limit) == 0; }
    }
  }

  lemma IntervalFrom(b: Option<Bucket>, w: seq<nat>, a: nat, t: nat, p: Policy)
    requires Sane(p) && Sorted(w) && Within(w, a, t) && w != []
    requires b.Some? ==> Filled(b.value, p, w[0]) && b.value.tokens < p.limit
    ensures t > 0 && Admitted(b, w, p) <= IntervalMax(t, p)
  {
    assert a <= w[0] < a + t;
    var (r, ok) := CheckBucket(b, w[0], p);
    assert [w[0]] + w[1..] == w;
    if b.None? {
      FirstCheck(w[0], p);
    } else {
      CheckSpends(b.value, w[0], p);
      NoRefillIsShort(b.value, w[0], p);
      assert (if ok then 1 else 0) + r.tokens <= p.limit;
    }
    RestOfInterval(r, w[1..], w[0], t, p);
  }

  /** The bucket that a run leaves behind. */
  lemma RunLeaves(times: seq<nat>, p: Policy)
    requires Sane(p) && Sorted(times) && times != []
    ensures var r := After(None, times, p);
            r.Some? && Filled(r.value, p, times[|times| - 1]) && r.value.tokens < p.limit
  {
    FirstCheck(times[0], p);
    var b := Bucket(p.limit - 1, p.limit, p.window, times[0]);
    if |times| > 1 {
      RunSpends(b, times[1..], p);
      assert times[1..][|times| - 2] == times[|times| - 1];
    }
  }

  /** Whatever came before, an interval of `t` ticks admits at most `limit` requests and
      what its time pays for. */
  lemma IntervalBound(before: seq<nat>, w: seq<nat>, a: nat, t: nat, p: Policy)
    requires Sane(p) && Sorted(before + w) && Within(w, a, t) && t > 0
    ensures Admitted(After(None, before, p), w, p) <= IntervalMax(t, p)
  {
    if w != [] {
      SortedParts(before, w);
      if before != [] {
        RunLeaves(before, p);
      }
      IntervalFrom(After(None, before, p), w, a, t, p);
    }
  }

  /** Whatever came before, an interval as long as the window admits at most
      `2 * limit - 1` requests. */
  lemma SlidingWindowBound(before: seq<nat>, w: seq<nat>, a: nat, p: Policy)
    requires Sane(p) && Sorted(before + w) && Within(w, a, p.window)
    ensures Admitted(After(None, before, p), w, p) <= 2 * p.limit - 1
  {
    IntervalBound(before, w, a, p.window, p);
    PartialRefillIsSmall(p.window - 1, p.window, p.limit);
  }

  // ---- no smaller bound holds ----

  ghost predicate IntervalAdmitsAtMost(p: Policy, t: nat, n: nat) {
    forall before: seq<nat>, w: seq<nat>, a: nat ::
      Sorted(before + w) && Within(w, a, t) ==> Admitted(After(None, before, p), w, p) <= n
  }

  ghost predicate WindowAdmitsAtMost(p: Policy, n: nat) {
    IntervalAdmitsAtMost(p, p.window, n)
  }

  function Repeat(t: nat, n: nat): (r: seq<nat>)
    ensures |r| == n && forall i :: 0 <= i < n ==> r[i] == t
  {
    if n == 0 then [] else [t] + Repeat(t, n - 1)
  }

  /** At one instant a bucket answers yes as long as it has tokens. */
  lemma {:induction false} BurstSpends(b: Bucket, n: nat, p: Policy)
    requires Sane(p) && Filled(b, p, b.lastRefill) && n <= b.tokens < p.limit
    ensures Admitted(Some(b), Repeat(b.lastRefill, n), p) == n
    ensures After(Some(b), Repeat(b.lastRefill, n), p) == Some(b.(tokens := b.tokens - n))
    decreases n
  {
    if n > 0 {
      assert b.(capacity := p.limit, window := p.window) == b;
      assert RefillTokens(0, p.window, p.limit) == 0;
      assert Repeat(b.lastRefill, n)[1..] == Repeat(b.lastRefill, n - 1);
      BurstSpends(b.(tokens := b.tokens - 1), n - 1, p);
    }
  }

  lemma FirstBurst(p: Policy)
    requires Sane(p)
    ensures Admitted(None, Repeat(0, p.limit), p) == p.limit
    ensures After(None, Repeat(0, p.limit), p) == Some(Bucket(0, p.limit, p.window, 0))
  {
    FirstCheck(0, p);
    assert Repeat(0, p.limit)[1..] == Repeat(0, p.limit - 1);
    BurstSpends(Bucket(p.limit - 1, p.limit, p.window, 0), p.limit - 1, p);
  }

  lemma RefillUpToWindow(e: nat, p: Policy)
    requires Sane(p) && e <= p.window
    ensures if e == p.window then RefillTokens(e, p.window, p.limit) == p.limit
            else RefillTokens(e, p.window, p.limit) < p.limit
  {
    if e == p.window {
      FloorAddMultiple(p.limit, 0, p.window);
    } else {
      PartialRefillIsSmall(e, p.window, p.limit);
    }
  }

  /** An empty bucket allows a burst of what the time since then pays for. */
  lemma LaterBurst(start: nat, e: nat, p: Policy)
    requires Sane(p) && e <= p.window
    ensures var q := RefillTokens(e, p.window, p.limit); var empty := Some(Bucket(0, p.limit, p.window, start));
            && Admitted(empty, Repeat(start + e, q), p) == q
            && (e == p.window ==> q == p.limit && After(empty, Repeat(start + e, q), p)
                                                 == Some(Bucket(0, p.limit, p.window, start + e)))
  {
    var empty := Bucket(0, p.limit, p.window, start);
    var q := RefillTokens(e, p.window, p.limit);
    RefillUpToWindow(e, p);
    if q > 0 {
      var r := Bucket(q - 1, p.limit, p.window, start + e);
      assert CheckBucket(Some(empty), start + e, p) == (r, true);
      assert Repeat(start + e, q)[1..] == Repeat(start + e, q - 1);
      BurstSpends(r, q - 1, p);
    }
  }

  /** A full burst every window. */
  function FullBursts(k: nat, p: Policy): seq<nat> {
    if k == 0 then Repeat(0, p.limit) else FullBursts(k - 1, p) + Repeat(k * p.window, p.limit)
  }

  /** The densest run that starts at zero and takes `t` ticks: full bursts, and a last one
      of what there is at the end. */
  function Densest(t: nat, p: Policy): seq<nat>
    requires Sane(p) && t > 0
  {
    FullBursts((t - 1) / p.window, p) + Repeat(t - 1, RefillTokens((t - 1) % p.window, p.window, p.limit))
  }

  lemma SortedBurst(xs: seq<nat>, t: nat, n: nat)
    requires Sorted(xs) && forall i :: 0 <= i < |xs| ==> xs[i] <= t
    ensures Sorted(xs + Repeat(t, n)) && forall i :: 0 <= i < |xs| + n ==> (xs + Repeat(t, n))[i] <= t
  {
  }

  lemma {:induction false} FullBurstsAdmitted(k: nat, p: Policy)
    requires Sane(p)
    ensures Admitted(None, FullBursts(k, p), p) == |FullBursts(k, p)| == (k + 1) * p.limit
    ensures After(None, FullBursts(k, p), p) == Some(Bucket(0, p.limit, p.window, k * p.window))
    ensures Sorted(FullBursts(k, p)) && forall i :: 0 <= i < |FullBursts(k, p)| ==> FullBursts(k, p)[i] <= k * p.window
    decreases k
  {
    if k == 0 {
      FirstBurst(p);
    } else {
      var start := (k - 1) * p.window;
      FullBurstsAdmitted(k - 1, p);
      assert start + p.window == k * p.window && (k + 1) * p.limit == k * p.limit + p.limit;
      LaterBurst(start, p.window, p);
      hide Admitted, After, FullBursts, Sane;
      AfterConcat(None, FullBursts(k - 1, p), Repeat(k * p.window, p.limit), p);
      SortedBurst(FullBursts(k - 1, p), k * p.window, p.limit);
      FullBurstsUnfold(k, p);
    }
  }

  lemma FullBurstsUnfold(k: nat, p: Policy)
    requires k > 0
    ensures FullBursts(k, p) == FullBursts(k - 1, p) + Repeat(k * p.window, p.limit)
  {
  }

  lemma FloorAddMultiple(m: nat, x: nat, w: nat)
    requires w > 0
    ensures (m * w + x) / w == m + x / w
  {
    var q := x / w;
    assert x == q * w + x % w;
    assert (m + q) * w == m * w + q * w && (m + q + 1) * w == m * w + q * w + w;
    FloorAtLeast(m * w + x, w, m + q);
    FloorBelow(m * w + x, w, m + q + 1);
  }

  lemma Regroup(k: nat, r: nat, w: nat, l: nat)
    ensures (k * w + r) * l == k * l * w + r * l
  {
  }

  lemma FloorOfSum(k: nat, r: nat, w: nat, l: nat)
    requires w > 0
    ensures (k * w + r) * l / w == k * l + r * l / w
  {
    Regroup(k, r, w, l);
    FloorAddMultiple(k * l, r * l, w);
  }

  lemma DensestSize(k: nat, r: nat, p: Policy)
    requires Sane(p) && r < p.window
    ensures (k + 1) * p.limit + RefillTokens(r, p.window, p.limit) == IntervalMax(k * p.window + r + 1, p)
  {
    FloorOfSum(k, r, p.window, p.limit);
    assert (k + 1) * p.limit == k * p.limit + p.limit;
  }

  /** One more burst after a run that has emptied the bucket. */
  lemma BurstAppended(xs: seq<nat>, start: nat, e: nat, p: Policy)
    requires Sane(p) && e <= p.window
    requires Admitted(None, xs, p) == |xs| && After(None, xs, p) == Some(Bucket(0, p.limit, p.window, start))
    requires Sorted(xs) && forall i :: 0 <= i < |xs| ==> xs[i] <= start
    ensures var run := xs + Repeat(start + e, RefillTokens(e, p.window, p.limit));
            Admitted(None, run, p) == |run| && Sorted(run) && Within(run, 0, start + e + 1)
  {
    LaterBurst(start, e, p);
    var q := RefillTokens(e, p.window, p.limit);
    hide Admitted, After, RefillTokens, Sane;
    AfterConcat(None, xs, Repeat(start + e, q), p);
    SortedBurst(xs, start + e, q);
  }

  /** Full bursts and a last one of what there is. */
  lemma DensestFrom(k: nat, r: nat, p: Policy)
    requires Sane(p) && r < p.window
    ensures var q := RefillTokens(r, p.window, p.limit);
            var run := FullBursts(k, p) + Repeat(k * p.window + r, q);
            && Admitted(None, run, p) == |run| == (k + 1) * p.limit + q
            && Sorted(run) && Within(run, 0, k * p.window + r + 1)
  {
    hide Admitted, After, FullBursts, RefillTokens, Sorted, Within;
    FullBurstsAdmitted(k, p);
    BurstAppended(FullBursts(k, p), k * p.window, r, p);
  }

  /** Every request of the densest run is admitted, and they are as many as can be. */
  lemma DensestAllAdmitted(t: nat, p: Policy)
    requires Sane(p) && t > 0
    ensures Admitted(None, Densest(t, p), p) == |Densest(t, p)| == IntervalMax(t, p)
    ensures Sorted(Densest(t, p)) && Within(Densest(t, p), 0, t)
  {
    var k, r := (t - 1) / p.window, (t - 1) % p.window;
    assert k * p.window + r == t - 1;
    DensestSize(k, r, p);
    DensestFrom(k, r, p);
    hide Admitted, FullBursts, RefillTokens, IntervalMax, Sorted, Within, Repeat;
  }

  /** For every length, the bound on an interval is the least. */
  lemma LeastIntervalBound(t: nat, p: Policy, n: nat)
    requires Sane(p) && t > 0
    ensures IntervalAdmitsAtMost(p, t, n) <==> IntervalMax(t, p) <= n
  {
    if IntervalMax(t, p) <= n {
      forall before: seq<nat>, w: seq<nat>, a: nat | Sorted(before + w) && Within(w, a, t)
        ensures Admitted(After(None, before, p), w, p) <= n
      {
        IntervalBound(before, w, a, t, p);
      }
    } else {
      DensestAllAdmitted(t, p);
      assert [] + Densest(t, p) == Densest(t, p);
      assert After(None, [], p) == None;
    }
  }

  ghost predicate RunsAdmitAtMost(p: Policy, span: nat, n: nat) {
    forall times: seq<nat> :: Sorted(times) && times != [] && times[|times| - 1] <= times[0] + span ==>
      Admitted(None, times, p) <= n
  }

  /** And so is the bound on a run from the creation of its bucket. */
  lemma LeastTotalBound(span: nat, p: Policy, n: nat)
    requires Sane(p)
    ensures RunsAdmitAtMost(p, span, n) <==> IntervalMax(span + 1, p) <= n
  {
    if IntervalMax(span + 1, p) <= n {
      forall times: seq<nat> | Sorted(times) && times != [] && times[|times| - 1] <= times[0] + span
        ensures Admitted(None, times, p) <= n
      {
        TotalBound(times, p);
        RefillGrows(times[|times| - 1] - times[0], span, p);
      }
    } else {
      DensestAllAdmitted(span + 1, p);
      var times := Densest(span + 1, p);
      assert times != [] && times[|times| - 1] <= times[0] + span;
    }
  }

  /** For a window it is `limit` plus what one tick less than a window pays for. */
  lemma SlidingWindowBoundIsLeast(p: Policy, n: nat)
    requires Sane(p)
    ensures WindowAdmitsAtMost(p, n) <==> IntervalMax(p.window, p) <= n
  {
    LeastIntervalBound(p.window, p, n);
  }

  lemma LateRefill(p: Policy)
    requires Sane(p) && p.limit <= p.window
    ensures RefillTokens(p.window - 1, p.window, p.limit) == p.limit - 1
  {
    var a := (p.window - 1) * p.limit;
    assert a == p.limit * p.window - p.limit;
    assert (p.limit - 1) * p.window == p.limit * p.window - p.window;
    FloorAtLeast(a, p.window, p.limit - 1);
    FloorBelow(a, p.window, p.limit);
  }

  /** That is `2 * limit - 1` as long as the window has a tick for each token. */
  lemma LeastWindowBound(p: Policy, n: nat)
    requires Sane(p) && p.limit <= p.window
    ensures WindowAdmitsAtMost(p, n) <==> 2 * p.limit - 1 <= n
  {
    SlidingWindowBoundIsLeast(p, n);
    LateRefill(p);
  }

  lemma OneTokenInTime(p: Policy)
    requires Sane(p)
    ensures RefillTokens(p.window - 1, p.window, p.limit) == 0 <==> p.limit == 1 || p.window == 1
  {
    var z := p.window - 1;
    if p.limit == 1 || p.window == 1 {
      FloorBelow(z * p.limit, p.window, 1);
    } else {
      MulMono(2, p.limit, z);
      FloorAtLeast(z * p.limit, p.window, 1);
    }
  }

  /** The documented bound, `limit` per window, is met exactly by the limit 1, and by a
      window of a single tick. */
  lemma DocumentedWindowBound(p: Policy)
    requires Sane(p)
    ensures WindowAdmitsAtMost(p, p.limit) <==> p.limit == 1 || p.window == 1
  {
    SlidingWindowBoundIsLeast(p, p.limit);
    OneTokenInTime(p);
  }

  // ---- u32 arithmetic ----

  /** The check at `now` refills the bucket, and the sum does not fit into a u32. */
  predicate Wraps(b: Bucket, now: nat, p: Policy)
    requires Sane(p)
  {
    var e := Elapsed(now, b.lastRefill);
    e < p.window && b.tokens < p.limit && b.tokens + RefillTokens(e, p.window, p.limit) >= U32_SIZE
  }

  /** No run of checks comes to a refill that wraps. */
  ghost predicate NeverWraps(p: Policy)
    requires Sane(p)
  {
    forall before: seq<nat>, now: nat :: Sorted(before + [now]) && After(None, before, p).Some? ==>
      !Wraps(After(None, before, p).value, now, p)
  }

  /** All tokens but one, and what the last tick before a full refill pays for. */
  predicate Fits(p: Policy)
    requires Sane(p)
  {
    p.limit - 1 + RefillTokens(p.window - 1, p.window, p.limit) < U32_SIZE
  }

  /** The u32 sum of a refill never wraps. */
  lemma RefillDoesNotWrap(b: Bucket, p: Policy, now: nat)
    requires Sane(p) && Fits(p) && Filled(b, p, now) && now - b.lastRefill < p.window && b.tokens < p.limit
    ensures AddU32(b.tokens, RefillTokens(now - b.lastRefill, p.window, p.limit))
         == b.tokens + RefillTokens(now - b.lastRefill, p.window, p.limit)
  {
    RefillGrows(now - b.lastRefill, p.window - 1, p);
  }

  lemma ReachedBucketFits(before: seq<nat>, now: nat, p: Policy)
    requires Sane(p) && Fits(p) && Sorted(before + [now]) && After(None, before, p).Some?
    ensures !Wraps(After(None, before, p).value, now, p)
  {
    SortedParts(before, [now]);
    if before != [] {
      RunLeaves(before, p);
      var b := After(None, before, p).value;
      hide After;
      if now - b.lastRefill < p.window {
        RefillGrows(now - b.lastRefill, p.window - 1, p);
      }
    }
  }

  /** A refill can wrap exactly when the fullest bucket that still refills overflows; the
      run that shows it is one check and another a tick before the window is over. */
  lemma WrapsExactly(p: Policy)
    requires Sane(p)
    ensures NeverWraps(p) <==> Fits(p)
  {
    if Fits(p) {
      forall before: seq<nat>, now: nat | Sorted(before + [now]) && After(None, before, p).Some?
        ensures !Wraps(After(None, before, p).value, now, p)
      {
        ReachedBucketFits(before, now, p);
      }
    } else {
      FirstCheck(0, p);
      var b := Bucket(p.limit - 1, p.limit, p.window, 0);
      assert After(Some(b), [], p) == Some(b);
      assert After(None, [0], p) == Some(b);
      assert Sorted([0] + [p.window - 1]) && Wraps(b, p.window - 1, p);
    }
  }

  /** In terms of the limit: up to 2^31, and no further. */
  lemma LimitsThatNeverWrap(p: Policy)
    requires Sane(p) && p.limit <= p.window
    ensures NeverWraps(p) <==> p.limit <= 0x8000_0000
  {
    WrapsExactly(p);
    LateRefill(p);
  }

  // ---- no starvation ----

  /** A refused check leaves an existing bucket as it was. */
  lemma RefusedCheckChangesNothing(b: Bucket, now: nat, p: Policy)
    requires Sane(p) && Fits(p) && Filled(b, p, now) && !CheckBucket(Some(b), now, p).1
    ensures CheckBucket(Some(b), now, p).0 == b && b.tokens == 0
    ensures (now - b.lastRefill) * p.limit < p.window
  {
    assert b.(capacity := p.limit, window := p.window) == b;
    if now - b.lastRefill < p.window && b.tokens < p.limit {
      RefillDoesNotWrap(b, p, now);
    }
    NoRefillIsShort(b, now, p);
  }

  /** Even where sums wrap, what a refused check leaves is empty and less than one token's
      time old, and an empty bucket is left alone. */
  lemma RefusedCheckLeavesEmpty(b: Bucket, now: nat, p: Policy)
    requires Sane(p) && Filled(b, p, now) && !CheckBucket(Some(b), now, p).1
    ensures var r := CheckBucket(Some(b), now, p).0;
            && Filled(r, p, now) && r.tokens == 0 && (now - r.lastRefill) * p.limit < p.window
            && (b.tokens == 0 ==> r == b)
  {
    assert b.(capacity := p.limit, window := p.window) == b;
    NoRefillIsShort(b, now, p);
    if now - b.lastRefill < p.window {
      PartialRefillIsSmall(now - b.lastRefill, p.window, p.limit);
    }
  }

  lemma {:induction false} RefusedRunIsShort(b: Bucket, w: seq<nat>, p: Policy)
    requires Sane(p) && Sorted(w) && w != [] && Filled(b, p, w[0]) && b.tokens == 0
    requires Admitted(Some(b), w, p) == 0
    ensures (w[|w| - 1] - b.lastRefill) * p.limit < p.window
    decreases |w|
  {
    RefusedCheckLeavesEmpty(b, w[0], p);
    if |w| > 1 {
      assert w[1..][|w| - 2] == w[|w| - 1];
      RefusedRunIsShort(b, w[1..], p);
    }
  }

  lemma ShorterStill(refill: nat, first: nat, last: nat, p: Policy)
    requires refill <= first <= last && (last - refill) * p.limit < p.window
    ensures (last - first) * p.limit < p.window
  {
    MulMono(last - first, last - refill, p.limit);
  }

  lemma FirstRunAdmits(before: seq<nat>, w: seq<nat>, p: Policy)
    requires Sane(p) && before == [] && w != []
    ensures Admitted(After(None, before, p), w, p) > 0
  {
    FirstCheck(w[0], p);
  }

  lemma FirstRefused(b: Bucket, w: seq<nat>, p: Policy)
    requires w != [] && Admitted(Some(b), w, p) == 0
    ensures !CheckBucket(Some(b), w[0], p).1
    ensures Admitted(Some(CheckBucket(Some(b), w[0], p).0), w[1..], p) == 0
  {
    hide CheckBucket;
  }

  lemma RefusalsFrom(b: Bucket, w: seq<nat>, p: Policy)
    requires Sane(p) && Sorted(w) && w != [] && Filled(b, p, w[0])
    requires Admitted(Some(b), w, p) == 0
    ensures (w[|w| - 1] - w[0]) * p.limit < p.window
  {
    hide CheckBucket, Admitted;
    FirstRefused(b, w, p);
    RefusedCheckLeavesEmpty(b, w[0], p);
    if |w| > 1 {
      var r := CheckBucket(Some(b), w[0], p).0;
      assert [w[0]] + w[1..] == w && w[1..][|w| - 2] == w[|w| - 1];
      SortedParts([w[0]], w[1..]);
      RefusedRunIsShort(r, w[1..], p);
      ShorterStill(r.lastRefill, w[0], w[|w| - 1], p);
    }
  }

  /** However often a client polls a key, an unbroken series of refusals is shorter than
      `window / limit`. */
  lemma NoStarvation(before: seq<nat>, w: seq<nat>, p: Policy)
    requires Sane(p) && Sorted(before + w) && w != []
    requires Admitted(After(None, before, p), w, p) == 0
    ensures (w[|w| - 1] - w[0]) * p.limit < p.window
  {
    hide Admitted, After;
    SortedParts(before, w);
    if before == [] {
      FirstRunAdmits(before, w, p);
    } else {
      RunLeaves(before, p);
      RefusalsFrom(After(None, before, p).value, w, p);
    }
  }
}
