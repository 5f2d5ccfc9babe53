/** What the request pipeline lets through for one certificate, over any run. */
module PipelineBudgets {
  import opened Wrappers
  import opened Counting
  import opened AuthGate
  import opened RateLimiter
  import opened RateBounds
  import opened Pipeline

  // ---- bucket keys ----

  lemma FirstColon(n: string, f: string)
    requires ':' !in n
    ensures |n| < |KeyFor(n, f)| && KeyFor(n, f)[|n|] == ':'
    ensures forall i :: 0 <= i < |n| ==> KeyFor(n, f)[i] != ':'
    ensures KeyFor(n, f)[..|n|] == n && KeyFor(n, f)[|n| + 1..] == f
  {
    assert KeyFor(n, f) == n + [':'] + f;
  }

  /** Keys are told apart by the first colon, so a fingerprint can be any text. */
  lemma KeyInjective(n: string, f: string, n': string, f': string)
    requires ':' !in n && ':' !in n' && KeyFor(n, f) == KeyFor(n', f')
    ensures n == n' && f == f'
  {
    FirstColon(n, f);
    FirstColon(n', f');
    hide KeyFor;
    assert |n| == |n'|;
  }

  /** The names of the budgets: the pre-auth one, and one for each limited method. */
  predicate IsBudget(name: string) {
    name == ADMIT || PolicyForMethod(name).Some?
  }

  function PolicyOf(cfg: Config, name: string): Policy
    requires IsBudget(name)
  {
    if name == ADMIT then cfg.admission else PolicyForMethod(name).value
  }

  lemma BudgetNames(name: string)
    requires IsBudget(name)
    ensures ':' !in name
  {
  }

  lemma KeysDiffer(name: string, fp: string, name': string, fp': string)
    requires IsBudget(name) && IsBudget(name') && (name, fp) != (name', fp')
    ensures KeyFor(name, fp) != KeyFor(name', fp')
  {
    BudgetNames(name);
    BudgetNames(name');
    if KeyFor(name, fp) == KeyFor(name', fp') { KeyInjective(name, fp, name', fp'); }
  }

  /** No method is named like the pre-auth budget, and every method CLN is asked about
      has a budget. */
  lemma BudgetsOfPaths(path: string)
    requires RuneMethodForPath(path).Some?
    ensures BudgetOf(path).Some? && BudgetOf(path).value.0 == RuneMethodForPath(path).value
    ensures BudgetOf(path).value.0 != ADMIT && IsBudget(BudgetOf(path).value.0)
  {
  }

  // ---- the history of one budget ----

  predicate Draws(e: Entry, name: string, fp: string) {
    match e
    case Admission(_, f, _, _) => name == ADMIT && f == fp
    case Quota(_, f, n, _, _, _) => n == name && f == fp
    case _ => false
  }

  function Times(log: seq<Entry>, name: string, fp: string): seq<nat> {
    if log == [] then []
    else
      var e := log[|log| - 1];
      Times(log[..|log| - 1], name, fp) + if Draws(e, name, fp) then [e.now] else []
  }

  function Answers(log: seq<Entry>, name: string, fp: string): seq<bool> {
    if log == [] then []
    else
      var e := log[|log| - 1];
      Answers(log[..|log| - 1], name, fp) + if Draws(e, name, fp) then [e.ok] else []
  }

  lemma Appended(log: seq<Entry>, e: Entry, name: string, fp: string)
    ensures Times(log + [e], name, fp) == Times(log, name, fp) + if Draws(e, name, fp) then [e.now] else []
    ensures Answers(log + [e], name, fp) == Answers(log, name, fp) + if Draws(e, name, fp) then [e.ok] else []
  {
    assert (log + [e])[..|log|] == log;
  }

  lemma {:induction false} SoloSnoc(b: Option<Bucket>, times: seq<nat>, t: nat, p: Policy)
    ensures Solo(b, times + [t], p) == Solo(b, times, p) + [CheckBucket(After(b, times, p), t, p).1]
    ensures After(b, times + [t], p) == Some(CheckBucket(After(b, times, p), t, p).0)
    decreases |times|
  {
    if times == [] {
      assert times + [t] == [t];
      assert Solo(b, [t], p) == [CheckBucket(b, t, p).1];
    } else {
      assert (times + [t])[1..] == times[1..] + [t];
      SoloSnoc(Some(CheckBucket(b, times[0], p).0), times[1..], t, p);
    }
  }

  /** One budget behaves as a bucket of its own would. */
  ghost predicate OwnBucket(cfg: Config, s: State, name: string, fp: string, now: nat)
    requires IsBudget(name)
  {
    var p := PolicyOf(cfg, name);
    var times := Times(s.log, name, fp);
    && Sorted(times)
    && (times != [] ==> times[|times| - 1] <= now)
    && Answers(s.log, name, fp) == Solo(None, times, p)
    && Alike(Get(s.buckets, KeyFor(name, fp)), After(None, times, p), now, p)
  }

  lemma SortedSnoc(times: seq<nat>, t: nat)
    requires Sorted(times) && (times != [] ==> times[|times| - 1] <= t)
    ensures Sorted(times + [t])
  {
  }

  lemma SpendIsCheck(m: map<string, Bucket>, name: string, fp: string, now: nat, p: Policy)
    ensures var (b, ok) := CheckBucket(Get(m, KeyFor(name, fp)), now, p);
            Get(Spend(m, name, fp, now, p).0, KeyFor(name, fp)) == Some(b) && Spend(m, name, fp, now, p).1 == ok
  {
    hide CheckBucket, KeyFor;
  }

  /** A check of this very budget. */
  lemma OwnSpend(cfg: Config, s: State, name: string, fp: string, now: nat, e: Entry, later: State)
    requires IsBudget(name) && OwnBucket(cfg, s, name, fp, now)
    requires Draws(e, name, fp) && e.now == now && later.log == s.log + [e]
    requires (later.buckets, e.ok) == Spend(s.buckets, name, fp, now, PolicyOf(cfg, name))
    ensures OwnBucket(cfg, later, name, fp, now)
  {
    hide Times, Answers, Draws, Solo, After, CheckBucket, Alike, Sorted, KeyFor, Spend;
    var p := PolicyOf(cfg, name);
    var times := Times(s.log, name, fp);
    Appended(s.log, e, name, fp);
    SortedSnoc(times, now);
    SoloSnoc(None, times, now, p);
    SpendIsCheck(s.buckets, name, fp, now, p);
    AlikeCheck(Get(s.buckets, KeyFor(name, fp)), After(None, times, p), now, now, p);
  }

  /** An entry that does not draw on this budget, with its bucket left alone. */
  lemma OtherEntry(cfg: Config, s: State, name: string, fp: string, now: nat, e: Entry, later: State)
    requires IsBudget(name) && OwnBucket(cfg, s, name, fp, now)
    requires !Draws(e, name, fp) && later.log == s.log + [e]
    requires Get(later.buckets, KeyFor(name, fp)) == Get(s.buckets, KeyFor(name, fp))
    ensures OwnBucket(cfg, later, name, fp, now)
  {
    hide Alike, Solo, After, Times, Answers, Draws;
    Appended(s.log, e, name, fp);
    assert Times(later.log, name, fp) == Times(s.log, name, fp);
    assert Answers(later.log, name, fp) == Answers(s.log, name, fp);
  }

  /** A check of any budget. */
  lemma AnySpend(
      cfg: Config, s: State, name: string, fp: string, now: nat, n: string, f: string, e: Entry, later: State)
    requires IsBudget(name) && OwnBucket(cfg, s, name, fp, now)
    requires IsBudget(n) && Draws(e, n, f) && e.now == now && later.log == s.log + [e]
    requires (later.buckets, e.ok) == Spend(s.buckets, n, f, now, PolicyOf(cfg, n))
    ensures OwnBucket(cfg, later, name, fp, now)
  {
    hide OwnBucket;
    if (n, f) == (name, fp) {
      OwnSpend(cfg, s, name, fp, now, e, later);
    } else {
      KeysDiffer(n, f, name, fp);
      OtherEntry(cfg, s, name, fp, now, e, later);
    }
  }

  lemma OwnLater(cfg: Config, s: State, name: string, fp: string, t: nat, now: nat)
    requires IsBudget(name) && OwnBucket(cfg, s, name, fp, t) && t <= now
    ensures OwnBucket(cfg, s, name, fp, now)
  {
  }

  lemma OwnClean(cfg: Config, s: State, name: string, fp: string, now: nat)
    requires IsBudget(name) && OwnBucket(cfg, s, name, fp, now)
    ensures OwnBucket(cfg, Apply(cfg, s, Clean(now)), name, fp, now)
  {
    AlikeRetain(s.buckets, KeyFor(name, fp), After(None, Times(s.log, name, fp), PolicyOf(cfg, name)), now, now,
      PolicyOf(cfg, name));
  }

  lemma ArriveSpends(cfg: Config, s: State, rid: Rid, r: Request, now: nat, name: string, fp: string)
    requires IsBudget(name) && OwnBucket(cfg, s, name, fp, now)
    ensures OwnBucket(cfg, ApplyArrive(cfg, s, rid, r, now), name, fp, now)
  {
    hide OwnBucket;
    if rid !in s.stages {
      var later := ApplyArrive(cfg, s, rid, r, now);
      var id := Identify(r);
      if id.None? {
        OtherEntry(cfg, s, name, fp, now, Anonymous(rid), later);
      } else {
        var ok := Spend(s.buckets, ADMIT, id.value.fingerprint, now, cfg.admission).1;
        AnySpend(cfg, s, name, fp, now, ADMIT, id.value.fingerprint,
                 Admission(rid, id.value.fingerprint, now, ok), later);
      }
    }
  }

  lemma AuthorizeSpendsNothing(cfg: Config, s: State, rid: Rid, t: nat, now: nat, name: string, fp: string)
    requires IsBudget(name) && OwnBucket(cfg, s, name, fp, now)
    ensures OwnBucket(cfg, ApplyAuthorize(cfg, s, rid, t), name, fp, now)
  {
    hide OwnBucket;
    var later := ApplyAuthorize(cfg, s, rid, t);
    if later != s {
      var e := later.log[|s.log|];
      assert later.log == s.log + [e];
      OtherEntry(cfg, s, name, fp, now, e, later);
    }
  }

  lemma MeterSpends(cfg: Config, s: State, rid: Rid, now: nat, name: string, fp: string)
    requires IsBudget(name) && OwnBucket(cfg, s, name, fp, now)
    ensures OwnBucket(cfg, ApplyMeter(s, rid, now), name, fp, now)
  {
    hide OwnBucket;
    if rid in s.stages && s.stages[rid].Cleared? {
      var later := ApplyMeter(s, rid, now);
      var Cleared(id, r) := s.stages[rid];
      var f := id.fingerprint;
      if BudgetOf(r.path).None? {
        OtherEntry(cfg, s, name, fp, now, Unmetered(rid, f, r.path), later);
      } else {
        BudgetsOfPaths(r.path);
        var (n, p) := BudgetOf(r.path).value;
        var ok := Spend(s.buckets, n, f, now, p).1;
        AnySpend(cfg, s, name, fp, now, n, f, Quota(rid, f, n, r.path, now, ok), later);
      }
    }
  }

  lemma OwnBucketStep(cfg: Config, s: State, a: Action, t: nat, name: string, fp: string)
    requires IsBudget(name) && OwnBucket(cfg, s, name, fp, t) && t <= a.now
    ensures OwnBucket(cfg, Apply(cfg, s, a), name, fp, a.now)
  {
    OwnLater(cfg, s, name, fp, t, a.now);
    hide OwnBucket;
    match a {
      case Arrive(rid, r, now) => ArriveSpends(cfg, s, rid, r, now, name, fp);
      case Authorize(rid, now) => AuthorizeSpendsNothing(cfg, s, rid, now, now, name, fp);
      case Meter(rid, now) => MeterSpends(cfg, s, rid, now, name, fp);
      case Clean(now) => OwnClean(cfg, s, name, fp, now);
    }
  }

  lemma {:induction false} OwnBucketRun(cfg: Config, s: State, run: seq<Action>, t: nat, name: string, fp: string)
    requires IsBudget(name) && OwnBucket(cfg, s, name, fp, t)
    requires Timely(run) && (run != [] ==> t <= run[0].now)
    ensures OwnBucket(cfg, Exec(cfg, s, run), name, fp, if run == [] then t else run[|run| - 1].now)
    decreases |run|
  {
    hide OwnBucket, Apply;
    if run != [] {
      OwnBucketStep(cfg, s, run[0], t, name, fp);
      OwnBucketRun(cfg, Apply(cfg, s, run[0]), run[1..], run[0].now, name, fp);
    }
  }

  /** In the shared map every budget of every certificate is decided as if it had a limiter
      to itself: no other certificate, no other budget and no cleanup takes part. */
  lemma BudgetsAreSeparate(cfg: Config, run: seq<Action>, name: string, fp: string)
    requires IsBudget(name) && Timely(run)
    ensures var log := Exec(cfg, START, run).log;
            && Sorted(Times(log, name, fp))
            && Answers(log, name, fp) == Solo(None, Times(log, name, fp), PolicyOf(cfg, name))
  {
    OwnBucketRun(cfg, START, run, 0, name, fp);
  }

  // ---- how many get through ----

  predicate In(t: nat, a: nat, w: nat) {
    a <= t < a + w
  }

  /** How many of the checks in `[a, a + w)` were answered yes. */
  function YesWithin(times: seq<nat>, answers: seq<bool>, a: nat, w: nat): nat
    requires |times| == |answers|
  {
    if times == [] then 0
    else
      var n := |times| - 1;
      YesWithin(times[..n], answers[..n], a, w) + if answers[n] && In(times[n], a, w) then 1 else 0
  }

  function CountBelow(times: seq<nat>, a: nat): (n: nat)
    ensures n <= |times|
  {
    if times == [] || times[|times| - 1] < a then |times| else CountBelow(times[..|times| - 1], a)
  }

  lemma {:induction false} SoloLength(b: Option<Bucket>, times: seq<nat>, p: Policy)
    ensures |Solo(b, times, p)| == |times|
    decreases |times|
  {
    if times != [] { SoloLength(Some(CheckBucket(b, times[0], p).0), times[1..], p); }
  }

  /** Below the first index the times are before the interval, up to the second in it. */
  lemma {:induction false} CountBelowSplits(times: seq<nat>, a: nat)
    requires Sorted(times)
    ensures forall i :: 0 <= i < |times| ==> (times[i] < a <==> i < CountBelow(times, a))
  {
    if times != [] && times[|times| - 1] >= a {
      CountBelowSplits(times[..|times| - 1], a);
    }
  }

  lemma CountBelowMono(times: seq<nat>, a: nat, b: nat)
    requires Sorted(times) && a <= b
    ensures CountBelow(times, a) <= CountBelow(times, b)
  {
    CountBelowSplits(times, a);
    CountBelowSplits(times, b);
    var n := CountBelow(times, a);
    assert n == 0 || times[n - 1] < a;
  }

  lemma PrefixSorted(times: seq<nat>, n: nat)
    requires Sorted(times) && n <= |times|
    ensures Sorted(times[..n])
  {
  }

  /** What the bucket grants to the contiguous piece of the run that falls into the
      interval. */
  function PieceAdmitted(times: seq<nat>, a: nat, w: nat, p: Policy): nat {
    var lo, hi := CountBelow(times, a), CountBelow(times, a + w);
    if lo <= hi then Admitted(After(None, times[..lo], p), times[lo..hi], p) else 0
  }

  lemma PieceBefore(times: seq<nat>, t: nat, a: nat, w: nat, p: Policy)
    requires Sorted(times + [t]) && t < a
    ensures PieceAdmitted(times, a, w, p) == 0 && PieceAdmitted(times + [t], a, w, p) == 0
  {
    var n, all := |times|, times + [t];
    AllBelow(times, t, a);
    AllBelow(times, t, a + w);
    assert all[..n] == times && all[n] == t;
    assert all[n + 1..n + 1] == [] && times[n..n] == [];
  }

  lemma PieceAfter(times: seq<nat>, t: nat, a: nat, w: nat, p: Policy)
    requires Sorted(times + [t]) && a + w <= t
    ensures PieceAdmitted(times + [t], a, w, p) == PieceAdmitted(times, a, w, p)
  {
    hide Admitted, After;
    var n, all := |times|, times + [t];
    var lo, hi := CountBelow(times, a), CountBelow(times, a + w);
    assert all[..n] == times && all[n] == t;
    assert all[..lo] == times[..lo];
    if lo <= hi { assert all[lo..hi] == times[lo..hi]; }
  }

  lemma OneMore(before: seq<nat>, piece: seq<nat>, t: nat, p: Policy)
    ensures Admitted(After(None, before, p), piece + [t], p)
         == Admitted(After(None, before, p), piece, p)
           + if CheckBucket(After(None, before + piece, p), t, p).1 then 1 else 0
  {
    hide CheckBucket;
    AfterConcat(After(None, before, p), piece, [t], p);
    AfterConcat(None, before, piece, p);
  }

  lemma LastInside(times: seq<nat>, t: nat, a: nat, w: nat)
    requires Sorted(times + [t]) && In(t, a, w)
    ensures var n := |times|;
            && CountBelow(times, a + w) == n && CountBelow(times + [t], a + w) == n + 1
            && CountBelow(times + [t], a) == CountBelow(times, a)
  {
    AllBelow(times, t, a + w);
    assert (times + [t])[..|times|] == times && (times + [t])[|times|] == t;
  }

  lemma LastSlices(times: seq<nat>, t: nat, lo: nat)
    requires lo <= |times|
    ensures (times + [t])[..lo] == times[..lo]
    ensures (times + [t])[lo..|times| + 1] == times[lo..|times|] + [t]
    ensures times[..lo] + times[lo..|times|] == times
  {
  }

  lemma PieceIs(times: seq<nat>, a: nat, w: nat, p: Policy, lo: nat, hi: nat)
    requires CountBelow(times, a) == lo <= hi == CountBelow(times, a + w)
    ensures PieceAdmitted(times, a, w, p) == Admitted(After(None, times[..lo], p), times[lo..hi], p)
  {
    hide Admitted, After, CountBelow;
  }

  lemma PieceInside(times: seq<nat>, t: nat, a: nat, w: nat, p: Policy)
    requires Sorted(times + [t]) && In(t, a, w)
    ensures PieceAdmitted(times + [t], a, w, p)
         == PieceAdmitted(times, a, w, p) + if CheckBucket(After(None, times, p), t, p).1 then 1 else 0
  {
    hide PieceAdmitted, Admitted, After, CheckBucket, CountBelow, Sorted;
    LastInside(times, t, a, w);
    var n, lo := |times|, CountBelow(times, a);
    LastSlices(times, t, lo);
    PieceIs(times + [t], a, w, p, lo, n + 1);
    PieceIs(times, a, w, p, lo, n);
    OneMore(times[..lo], times[lo..n], t, p);
  }

  lemma PieceSnoc(times: seq<nat>, t: nat, a: nat, w: nat, p: Policy)
    requires Sorted(times + [t])
    ensures PieceAdmitted(times + [t], a, w, p)
         == PieceAdmitted(times, a, w, p) + if In(t, a, w) && CheckBucket(After(None, times, p), t, p).1 then 1 else 0
  {
    hide PieceAdmitted, Admitted, After, CheckBucket;
    if t < a {
      PieceBefore(times, t, a, w, p);
    } else if t < a + w {
      PieceInside(times, t, a, w, p);
    } else {
      PieceAfter(times, t, a, w, p);
    }
  }

  lemma AllBelow(times: seq<nat>, t: nat, a: nat)
    requires Sorted(times + [t]) && t < a
    ensures CountBelow(times, a) == |times|
  {
    assert times != [] ==> (times + [t])[|times| - 1] <= (times + [t])[|times|];
  }

  lemma {:induction false} YesWithinIsPiece(times: seq<nat>, a: nat, w: nat, p: Policy)
    requires Sorted(times)
    ensures |Solo(None, times, p)| == |times|
    ensures YesWithin(times, Solo(None, times, p), a, w) == PieceAdmitted(times, a, w, p)
  {
    SoloLength(None, times, p);
    if times != [] {
      var n := |times| - 1;
      var init := times[..n];
      assert times == init + [times[n]];
      PrefixSorted(times, n);
      SoloSnoc(None, init, times[n], p);
      SoloLength(None, init, p);
      assert Solo(None, times, p)[..n] == Solo(None, init, p);
      YesWithinIsPiece(init, a, w, p);
      PieceSnoc(init, times[n], a, w, p);
    }
  }

  /** In an interval of `t` ticks one bucket says yes at most `limit` times and as often as
      the time pays for. */
  lemma IntervalOfTimes(times: seq<nat>, a: nat, t: nat, p: Policy)
    requires Sane(p) && Sorted(times) && t > 0
    ensures |Solo(None, times, p)| == |times|
    ensures YesWithin(times, Solo(None, times, p), a, t) <= IntervalMax(t, p)
  {
    hide Solo, After, Admitted, YesWithin, CountBelow;
    YesWithinIsPiece(times, a, t, p);
    CountBelowMono(times, a, a + t);
    var lo, hi := CountBelow(times, a), CountBelow(times, a + t);
    CountBelowSplits(times, a);
    CountBelowSplits(times, a + t);
    var before, w := times[..lo], times[lo..hi];
    assert before + w == times[..hi];
    PrefixSorted(times, hi);
    forall i | 0 <= i < |w| ensures a <= w[i] < a + t {
      assert w[i] == times[lo + i];
    }
    IntervalBound(before, w, a, t, p);
  }

  /** The entries of a budget that were `ok` in `[a, a + w)`. */
  function Granted(log: seq<Entry>, name: string, fp: string, a: nat, w: nat): nat {
    if log == [] then 0
    else
      var e := log[|log| - 1];
      Granted(log[..|log| - 1], name, fp, a, w) + if Draws(e, name, fp) && e.ok && In(e.now, a, w) then 1 else 0
  }

  lemma {:induction false} GrantedIsYes(log: seq<Entry>, name: string, fp: string, a: nat, w: nat)
    ensures |Times(log, name, fp)| == |Answers(log, name, fp)|
    ensures Granted(log, name, fp, a, w) == YesWithin(Times(log, name, fp), Answers(log, name, fp), a, w)
  {
    if log != [] {
      var e, init := log[|log| - 1], log[..|log| - 1];
      GrantedIsYes(init, name, fp, a, w);
      var times, answers := Times(init, name, fp), Answers(init, name, fp);
      if Draws(e, name, fp) {
        assert (times + [e.now])[..|times|] == times;
        assert (answers + [e.ok])[..|answers|] == answers;
      } else {
        assert times + [] == times && answers + [] == answers;
      }
    }
  }

  /** What each budget of each certificate grants in an interval, whatever else the server
      is doing. */
  lemma BudgetInInterval(cfg: Config, run: seq<Action>, name: string, fp: string, a: nat, t: nat)
    requires IsBudget(name) && Timely(run) && Sane(PolicyOf(cfg, name)) && t > 0
    ensures Granted(Exec(cfg, START, run).log, name, fp, a, t) <= IntervalMax(t, PolicyOf(cfg, name))
  {
    var log := Exec(cfg, START, run).log;
    var p := PolicyOf(cfg, name);
    BudgetsAreSeparate(cfg, run, name, fp);
    GrantedIsYes(log, name, fp, a, t);
    IntervalOfTimes(Times(log, name, fp), a, t, p);
  }

  /** In particular at most `2 * limit - 1` requests in any window. */
  lemma BudgetCeiling(cfg: Config, run: seq<Action>, name: string, fp: string, a: nat)
    requires IsBudget(name) && Timely(run) && Sane(PolicyOf(cfg, name))
    ensures var p := PolicyOf(cfg, name);
            Granted(Exec(cfg, START, run).log, name, fp, a, p.window) <= 2 * p.limit - 1
  {
    var p := PolicyOf(cfg, name);
    BudgetInInterval(cfg, run, name, fp, a, p.window);
    PartialRefillIsSmall(p.window - 1, p.window, p.limit);
  }

  // ---- what a request has been through ----

  /** Entries of the log that are not a limiter's answer leave a trail: who is cleared had
      a valid rune, and who had a rune checked was admitted. */
  ghost predicate Trail(s: State) {
    && (forall rid :: rid in s.stages && s.stages[rid].Waiting? ==> WaitingTrail(s.log, rid, s.stages[rid]))
    && (forall rid :: rid in s.stages && s.stages[rid].Cleared? ==>
       ClearedTrail(s.log, |s.log|, rid, s.stages[rid].id.fingerprint, s.stages[rid].request.path))
    && (forall i :: 0 <= i < |s.log| ==> EntryTrail(s.log, i))
  }

  ghost predicate WaitingTrail(log: seq<Entry>, rid: Rid, stage: Stage)
    requires stage.Waiting?
  {
    AdmittedBefore(log, |log|, rid, stage.id.fingerprint, stage.at)
  }

  ghost predicate AdmittedBefore(log: seq<Entry>, n: nat, rid: Rid, fp: string, at: nat)
    requires n <= |log|
  {
    exists i :: 0 <= i < n && log[i] == Admission(rid, fp, at, true)
  }

  ghost predicate ClearedTrail(log: seq<Entry>, n: nat, rid: Rid, fp: string, path: string)
    requires n <= |log|
  {
    exists i :: 0 <= i < n && log[i].RuneCheck? && log[i].ok && log[i].rid == rid && log[i].fingerprint == fp
             && RuneMethodForPath(path) == Some(log[i].name)
  }

  /** Before a rune check the request was admitted; before it is charged to a budget, or
      reaches the handler, its rune was found valid for the method of its path. */
  ghost predicate EntryTrail(log: seq<Entry>, i: nat)
    requires i < |log|
  {
    match log[i]
    case RuneCheck(rid, fp, at, _, _, _) => AdmittedBefore(log, i, rid, fp, at)
    case Quota(rid, fp, name, path, _, _) => RuneMethodForPath(path) == Some(name)
      && ClearedTrail(log, i, rid, fp, path)
    case Unmetered(_, _, _) => false
    case _ => true
  }

  lemma TrailsGrow(log: seq<Entry>, e: Entry)
    ensures forall n: nat, rid, fp, at :: n <= |log| && AdmittedBefore(log, n, rid, fp, at) ==>
      AdmittedBefore(log + [e], n, rid, fp, at) && AdmittedBefore(log + [e], |log| + 1, rid, fp, at)
    ensures forall n: nat, rid, fp, path :: n <= |log| && ClearedTrail(log, n, rid, fp, path) ==>
      ClearedTrail(log + [e], n, rid, fp, path) && ClearedTrail(log + [e], |log| + 1, rid, fp, path)
  {
    forall n: nat, rid, fp, at | n <= |log| && AdmittedBefore(log, n, rid, fp, at)
      ensures AdmittedBefore(log + [e], n, rid, fp, at) && AdmittedBefore(log + [e], |log| + 1, rid, fp, at)
    {
      var i :| 0 <= i < n && log[i] == Admission(rid, fp, at, true);
      assert (log + [e])[i] == log[i];
    }
    forall n: nat, rid, fp, path | n <= |log| && ClearedTrail(log, n, rid, fp, path)
      ensures ClearedTrail(log + [e], n, rid, fp, path) && ClearedTrail(log + [e], |log| + 1, rid, fp, path)
    {
      var i :| 0 <= i < n && log[i].RuneCheck? && log[i].ok && log[i].rid == rid && log[i].fingerprint == fp
             && RuneMethodForPath(path) == Some(log[i].name);
      assert (log + [e])[i] == log[i];
    }
  }

  /** A step that logs `e` and moves `rid` to `stage` keeps every trail if those two have theirs. */
  lemma TrailMove(s: State, rid: Rid, stage: Stage, e: Entry)
    requires Trail(s)
    requires stage.Waiting? ==> e == Admission(rid, stage.id.fingerprint, stage.at, true)
    requires stage.Cleared? ==>
      && e.RuneCheck? && e.ok && e.rid == rid && e.fingerprint == stage.id.fingerprint
      && RuneMethodForPath(stage.request.path) == Some(e.name)
    requires EntryTrail(s.log + [e], |s.log|)
    ensures Trail(Move(s, rid, stage, e))
  {
    var later := Move(s, rid, stage, e);
    var n := |s.log|;
    TrailsGrow(s.log, e);
    assert later.log[n] == e;
    forall i | 0 <= i < |later.log| ensures EntryTrail(later.log, i) {
      if i < n { assert EntryTrail(s.log, i) && later.log[i] == s.log[i]; }
    }
    forall r | r in later.stages && later.stages[r].Waiting? ensures WaitingTrail(later.log, r, later.stages[r]) {
      if r != rid { assert WaitingTrail(s.log, r, s.stages[r]); }
    }
  }

  lemma TrailStep(cfg: Config, s: State, a: Action)
    requires Trail(s)
    ensures Trail(Apply(cfg, s, a))
  {
    match a {
      case Arrive(rid, r, now) => TrailArrive(cfg, s, rid, r, now);
      case Authorize(rid, now) => TrailAuthorize(cfg, s, rid, now);
      case Meter(rid, now) => TrailMeter(s, rid, now);
      case Clean(now) =>
    }
  }

  lemma TrailOtherBuckets(s: State, m: map<string, Bucket>)
    requires Trail(s)
    ensures Trail(s.(buckets := m))
  {
  }

  lemma TrailArrive(cfg: Config, s: State, rid: Rid, r: Request, now: nat)
    requires Trail(s)
    ensures Trail(ApplyArrive(cfg, s, rid, r, now))
  {
    hide Trail;
    var id := Identify(r);
    if rid !in s.stages && id.None? {
      TrailMove(s, rid, Ended(None), Anonymous(rid));
    } else if rid !in s.stages {
      var (m, ok) := Spend(s.buckets, ADMIT, id.value.fingerprint, now, cfg.admission);
      TrailOtherBuckets(s, m);
      var e := Admission(rid, id.value.fingerprint, now, ok);
      assert (s.log + [e])[|s.log|] == e;
      TrailMove(s.(buckets := m), rid,
                if ok then Waiting(id.value, r, now) else Ended(Some(id.value.fingerprint)), e);
    }
  }

  lemma TrailAuthorize(cfg: Config, s: State, rid: Rid, now: nat)
    requires Trail(s)
    ensures Trail(ApplyAuthorize(cfg, s, rid, now))
  {
    if rid in s.stages && s.stages[rid].Waiting? {
      assert WaitingTrail(s.log, rid, s.stages[rid]);
      hide Trail;
      var Waiting(id, r, at) := s.stages[rid];
      var g := Gate(r, cfg.maxBody);
      var e := if g.Err? then Rejected(rid, id.fingerprint, g.error)
               else RuneCheck(rid, id.fingerprint, at, g.value, now, r.runeValid);
      TrailsGrow(s.log, e);
      assert (s.log + [e])[|s.log|] == e;
      TrailMove(s, rid, if g.Ok? && r.runeValid then Cleared(id, r) else Ended(Some(id.fingerprint)), e);
    }
  }

  lemma TrailMeter(s: State, rid: Rid, now: nat)
    requires Trail(s)
    ensures Trail(ApplyMeter(s, rid, now))
  {
    if rid in s.stages && s.stages[rid].Cleared? {
      var Cleared(id, r) := s.stages[rid];
      assert ClearedTrail(s.log, |s.log|, rid, id.fingerprint, r.path);
      hide Trail;
      BudgetsOfPaths(r.path);
      var (name, p) := BudgetOf(r.path).value;
      var (m, ok) := Spend(s.buckets, name, id.fingerprint, now, p);
      var e := Quota(rid, id.fingerprint, name, r.path, now, ok);
      TrailOtherBuckets(s, m);
      TrailsGrow(s.log, e);
      assert (s.log + [e])[|s.log|] == e;
      TrailMove(s.(buckets := m), rid, Ended(Some(id.fingerprint)), e);
    }
  }

  lemma {:induction false} TrailRun(cfg: Config, s: State, run: seq<Action>)
    requires Trail(s)
    ensures Trail(Exec(cfg, s, run))
    decreases |run|
  {
    if run != [] {
      TrailStep(cfg, s, run[0]);
      TrailRun(cfg, Apply(cfg, s, run[0]), run[1..]);
    }
  }

  /** In every run: CLN is asked only about requests that were admitted, method quota is
      spent only by requests whose rune was valid, and nothing reaches the handler without
      being charged. */
  lemma NothingIsSkipped(cfg: Config, run: seq<Action>, i: nat)
    requires i < |Exec(cfg, START, run).log|
    ensures EntryTrail(Exec(cfg, START, run).log, i)
  {
    TrailRun(cfg, START, run);
  }

  // ---- calls of check_rune ----

  predicate IsRuneCall(e: Entry, fp: string, a: nat, w: nat) {
    e.RuneCheck? && e.fingerprint == fp && In(e.admittedAt, a, w)
  }

  /** Calls of `check_rune` for requests admitted in `[a, a + w)`. */
  function RuneCalls(log: seq<Entry>, fp: string, a: nat, w: nat): nat {
    if log == [] then 0
    else RuneCalls(log[..|log| - 1], fp, a, w) + if IsRuneCall(log[|log| - 1], fp, a, w) then 1 else 0
  }

  ghost function IsWaiting(fp: string, a: nat, w: nat): Stage -> bool {
    (s: Stage) => s.Waiting? && s.id.fingerprint == fp && In(s.at, a, w)
  }

  predicate IsGrant(e: Entry, name: string, fp: string, a: nat, w: nat) {
    Draws(e, name, fp) && e.ok && In(e.now, a, w)
  }

  lemma CountsAppended(log: seq<Entry>, e: Entry, fp: string, a: nat, w: nat)
    ensures RuneCalls(log + [e], fp, a, w) == RuneCalls(log, fp, a, w) + if IsRuneCall(e, fp, a, w) then 1 else 0
    ensures Granted(log + [e], ADMIT, fp, a, w)
        == Granted(log, ADMIT, fp, a, w) + if IsGrant(e, ADMIT, fp, a, w) then 1 else 0
  {
    assert (log + [e])[..|log|] == log;
  }

  /** Each admission pays for one rune check at most, and what is not spent yet is waiting. */
  ghost predicate CallsArePaid(s: State, fp: string, a: nat, w: nat) {
    RuneCalls(s.log, fp, a, w) + Count(s.stages, IsWaiting(fp, a, w)) <= Granted(s.log, ADMIT, fp, a, w)
  }

  lemma CallsMove(s: State, rid: Rid, stage: Stage, e: Entry, fp: string, a: nat, w: nat)
    requires CallsArePaid(s, fp, a, w)
    requires var waiting := IsWaiting(fp, a, w);
             One(waiting(stage)) + One(IsRuneCall(e, fp, a, w))
             <= One(IsGrant(e, ADMIT, fp, a, w)) + One(rid in s.stages && waiting(s.stages[rid]))
    ensures CallsArePaid(Move(s, rid, stage, e), fp, a, w)
  {
    CountsAppended(s.log, e, fp, a, w);
    if rid in s.stages {
      CountUpdate(s.stages, rid, stage, IsWaiting(fp, a, w));
    } else {
      CountInsert(s.stages, rid, stage, IsWaiting(fp, a, w));
    }
  }

  lemma CallsStep(cfg: Config, s: State, act: Action, fp: string, a: nat, w: nat)
    requires CallsArePaid(s, fp, a, w)
    ensures CallsArePaid(Apply(cfg, s, act), fp, a, w)
  {
    match act {
      case Arrive(rid, r, now) =>
        var id := Identify(r);
        if rid !in s.stages && id.None? {
          CallsMove(s, rid, Ended(None), Anonymous(rid), fp, a, w);
        } else if rid !in s.stages {
          var (m, ok) := Spend(s.buckets, ADMIT, id.value.fingerprint, now, cfg.admission);
          CallsMove(s.(buckets := m), rid, if ok then Waiting(id.value, r, now) else Ended(Some(id.value.fingerprint)),
                    Admission(rid, id.value.fingerprint, now, ok), fp, a, w);
        }
      case Authorize(rid, now) =>
        if rid in s.stages && s.stages[rid].Waiting? {
          var Waiting(id, r, at) := s.stages[rid];
          var g := Gate(r, cfg.maxBody);
          var e := if g.Err? then Rejected(rid, id.fingerprint, g.error)
                   else RuneCheck(rid, id.fingerprint, at, g.value, now, r.runeValid);
          CallsMove(s, rid, if g.Ok? && r.runeValid then Cleared(id, r) else Ended(Some(id.fingerprint)), e, fp, a, w);
        }
      case Meter(rid, now) =>
        if rid in s.stages && s.stages[rid].Cleared? {
          var Cleared(id, r) := s.stages[rid];
          var later := ApplyMeter(s, rid, now);
          var e := later.log[|s.log|];
          BudgetNotAdmit(r.path);
          assert later == Move(s.(buckets := later.buckets), rid, Ended(Some(id.fingerprint)), e);
          CallsMove(s.(buckets := later.buckets), rid, Ended(Some(id.fingerprint)), e, fp, a, w);
        }
      case Clean(now) =>
    }
  }

  lemma BudgetNotAdmit(path: string)
    ensures BudgetOf(path).Some? ==> BudgetOf(path).value.0 != ADMIT
  {
  }

  lemma {:induction false} CallsRun(cfg: Config, s: State, run: seq<Action>, fp: string, a: nat, w: nat)
    requires CallsArePaid(s, fp, a, w)
    ensures CallsArePaid(Exec(cfg, s, run), fp, a, w)
    decreases |run|
  {
    if run != [] {
      CallsStep(cfg, s, run[0], fp, a, w);
      CallsRun(cfg, Apply(cfg, s, run[0]), run[1..], fp, a, w);
    }
  }

  /** Requests admitted in one pre-auth window cause at most `2 * limit - 1` calls of
      `check_rune`, valid runes and invalid ones together. */
  lemma RuneCallsAreBounded(cfg: Config, run: seq<Action>, fp: string, a: nat)
    requires Timely(run) && Sane(cfg.admission)
    ensures RuneCalls(Exec(cfg, START, run).log, fp, a, cfg.admission.window) <= 2 * cfg.admission.limit - 1
  {
    var w := cfg.admission.window;
    CountNone(START.stages, IsWaiting(fp, a, w));
    CallsRun(cfg, START, run, fp, a, w);
    BudgetCeiling(cfg, run, ADMIT, fp, a);
  }

  /** Calls of `check_rune` made, not paid for, in `[a, a + w)`. */
  function CallsMade(log: seq<Entry>, fp: string, a: nat, w: nat): nat {
    if log == [] then 0
    else
      var e := log[|log| - 1];
      CallsMade(log[..|log| - 1], fp, a, w) + if e.RuneCheck? && e.fingerprint == fp && In(e.now, a, w) then 1 else 0
  }

  const PROBE := Request(None, Some(["f"]), None, "/cln.NodeServices/Getinfo", [Text("r")], [], false)

  /** One certificate's requests at the given times. */
  function Arrivals(times: seq<nat>): (run: seq<Action>)
    ensures |run| == |times| && forall i :: 0 <= i < |times| ==> run[i] == Arrive(i, PROBE, times[i])
  {
    if times == [] then []
    else
      var n := |times| - 1;
      Arrivals(times[..n]) + [Arrive(n, PROBE, times[n])]
  }

  /** The bodies of the first `n` of them arrive at the same time. */
  function Checks(n: nat, now: nat): (run: seq<Action>)
    ensures |run| == n && forall i :: 0 <= i < n ==> run[i] == Authorize(i, now)
  {
    if n == 0 then [] else Checks(n - 1, now) + [Authorize(n - 1, now)]
  }

  lemma {:induction false} ExecConcat(cfg: Config, s: State, run: seq<Action>, more: seq<Action>)
    ensures Exec(cfg, s, run + more) == Exec(cfg, Exec(cfg, s, run), more)
    decreases |run|
  {
    if run == [] {
      assert run + more == more;
    } else {
      assert (run + more)[1..] == run[1..] + more;
      ExecConcat(cfg, Apply(cfg, s, run[0]), run[1..], more);
    }
  }

  lemma ExecSnoc(cfg: Config, s: State, run: seq<Action>, a: Action)
    ensures Exec(cfg, s, run + [a]) == Apply(cfg, Exec(cfg, s, run), a)
  {
    ExecConcat(cfg, s, run, [a]);
    assert [a][1..] == [];
    assert Exec(cfg, Apply(cfg, Exec(cfg, s, run), a), []) == Apply(cfg, Exec(cfg, s, run), a);
  }

  lemma CallsAppended(log: seq<Entry>, e: Entry, fp: string, a: nat, w: nat)
    ensures CallsMade(log + [e], fp, a, w)
         == CallsMade(log, fp, a, w) + if e.RuneCheck? && e.fingerprint == fp && In(e.now, a, w) then 1 else 0
  {
    assert (log + [e])[..|log|] == log;
  }

  /** Every rune check is made within `d` ticks of the admission. */
  ghost predicate Prompt(log: seq<Entry>, d: nat) {
    forall i :: 0 <= i < |log| && log[i].RuneCheck? ==> log[i].now <= log[i].admittedAt + d
  }

  const PROBER := ClientIdentity("f", None)

  /** The requests made so far are `0 .. |times|`, they have been to the pre-auth budget at
      these times, and those from `from` on are waiting for their rune check. */
  ghost predicate Queued(cfg: Config, s: State, from: nat, times: seq<nat>) {
    && (forall rid :: rid in s.stages ==> rid < |times|)
    && (forall rid: nat :: from <= rid < |times| ==>
        rid in s.stages && s.stages[rid] == Waiting(PROBER, PROBE, times[rid]))
    && Get(s.buckets, KeyFor(ADMIT, "f")) == After(None, times, cfg.admission)
  }

  lemma {:induction false} AdmittedAtMostAll(b: Option<Bucket>, times: seq<nat>, p: Policy)
    ensures Admitted(b, times, p) <= |times|
    decreases |times|
  {
    if times != [] { AdmittedAtMostAll(Some(CheckBucket(b, times[0], p).0), times[1..], p); }
  }

  /** If all are admitted, so are all but the last, and then the last. */
  lemma LastIsAdmitted(times: seq<nat>, t: nat, p: Policy)
    requires Admitted(None, times + [t], p) == |times| + 1
    ensures Admitted(None, times, p) == |times| && CheckBucket(After(None, times, p), t, p).1
    ensures After(None, times + [t], p) == Some(CheckBucket(After(None, times, p), t, p).0)
  {
    AfterConcat(None, times, [t], p);
    AdmittedAtMostAll(None, times, p);
    hide CheckBucket;
    var b := After(None, times, p);
    assert Admitted(b, [t], p) == if CheckBucket(b, t, p).1 then 1 else 0;
    assert After(b, [t], p) == Some(CheckBucket(b, t, p).0);
  }

  lemma ProbeArrives(cfg: Config, s: State, n: nat, t: nat)
    requires n !in s.stages && CheckBucket(Get(s.buckets, KeyFor(ADMIT, "f")), t, cfg.admission).1
    ensures var r := ApplyArrive(cfg, s, n, PROBE, t);
            && r.stages == s.stages[n := Waiting(PROBER, PROBE, t)]
            && r.log == s.log + [Admission(n, "f", t, true)]
            && Get(r.buckets, KeyFor(ADMIT, "f"))
               == Some(CheckBucket(Get(s.buckets, KeyFor(ADMIT, "f")), t, cfg.admission).0)
  {
    assert Identify(PROBE) == Some(PROBER);
    hide CheckBucket, KeyFor;
  }

  lemma PromptGrows(log: seq<Entry>, e: Entry, d: nat)
    requires Prompt(log, d) && (e.RuneCheck? ==> e.now <= e.admittedAt + d)
    ensures Prompt(log + [e], d)
  {
  }

  /** One more request waiting, admitted at `t`. */
  lemma QueuedGrows(cfg: Config, s: State, from: nat, times: seq<nat>, t: nat, r: State)
    requires Queued(cfg, s, from, times) && from <= |times|
    requires r.stages == s.stages[|times| := Waiting(PROBER, PROBE, t)]
    requires Get(r.buckets, KeyFor(ADMIT, "f")) == After(None, times + [t], cfg.admission)
    ensures Queued(cfg, r, from, times + [t])
  {
    hide After, KeyFor, Get;
    var more := times + [t];
    forall rid: nat | from <= rid < |more|
      ensures rid in r.stages && r.stages[rid] == Waiting(PROBER, PROBE, more[rid])
    {
      assert rid < |times| ==> more[rid] == times[rid];
    }
  }

  lemma AdmitOne(cfg: Config, s: State, from: nat, times: seq<nat>, t: nat, a: nat, w: nat, d: nat)
    requires Queued(cfg, s, from, times) && from <= |times|
    requires Admitted(None, times + [t], cfg.admission) == |times| + 1
    ensures var r := ApplyArrive(cfg, s, |times|, PROBE, t);
            && Queued(cfg, r, from, times + [t])
            && CallsMade(r.log, "f", a, w) == CallsMade(s.log, "f", a, w) && (Prompt(s.log, d) ==> Prompt(r.log, d))
  {
    hide CheckBucket, KeyFor, CallsMade, After, Admitted, ApplyArrive, Prompt;
    var e := Admission(|times|, "f", t, true);
    LastIsAdmitted(times, t, cfg.admission);
    ProbeArrives(cfg, s, |times|, t);
    QueuedGrows(cfg, s, from, times, t, ApplyArrive(cfg, s, |times|, PROBE, t));
    hide Queued;
    CallsAppended(s.log, e, "f", a, w);
    if Prompt(s.log, d) { PromptGrows(s.log, e, d); }
  }

  lemma {:induction false} AllAdmitted(cfg: Config, times: seq<nat>, a: nat, w: nat, d: nat)
    requires Admitted(None, times, cfg.admission) == |times|
    ensures var s := Exec(cfg, START, Arrivals(times));
            Queued(cfg, s, 0, times) && CallsMade(s.log, "f", a, w) == 0 && Prompt(s.log, d)
    decreases |times|
  {
    if times == [] {
      assert Exec(cfg, START, []) == START;
    } else {
      var n := |times| - 1;
      assert times == times[..n] + [times[n]];
      LastIsAdmitted(times[..n], times[n], cfg.admission);
      AllAdmitted(cfg, times[..n], a, w, d);
      ExecSnoc(cfg, START, Arrivals(times[..n]), Arrive(n, PROBE, times[n]));
      hide Exec, KeyFor, CallsMade, ApplyArrive, Queued, Prompt, After, Admitted;
      AdmitOne(cfg, Exec(cfg, START, Arrivals(times[..n])), 0, times[..n], times[n], a, w, d);
    }
  }

  lemma ProbeIsAsked(cfg: Config)
    ensures Gate(PROBE, cfg.maxBody) == Ok("getinfo")
  {
  }

  lemma AskOne(cfg: Config, s: State, k: nat, times: seq<nat>, now: nat, a: nat, w: nat, d: nat)
    requires Queued(cfg, s, k, times) && k < |times| && In(now, a, w)
    ensures var r := ApplyAuthorize(cfg, s, k, now);
            && Queued(cfg, r, k + 1, times)
            && CallsMade(r.log, "f", a, w) == CallsMade(s.log, "f", a, w) + 1
            && (Prompt(s.log, d) && now <= times[k] + d ==> Prompt(r.log, d))
  {
    ProbeIsAsked(cfg);
    hide Gate, CallsMade, KeyFor, After;
    var e := RuneCheck(k, "f", times[k], "getinfo", now, false);
    assert ApplyAuthorize(cfg, s, k, now) == Move(s, k, Ended(Some("f")), e);
    CallsAppended(s.log, e, "f", a, w);
  }

  lemma {:induction false} AllAsked(cfg: Config, s: State, m: nat, times: seq<nat>, now: nat, a: nat, w: nat, d: nat)
    requires Queued(cfg, s, 0, times) && m <= |times| && In(now, a, w)
    ensures var r := Exec(cfg, s, Checks(m, now));
            && Queued(cfg, r, m, times)
            && CallsMade(r.log, "f", a, w) == CallsMade(s.log, "f", a, w) + m
            && (Prompt(s.log, d) && (forall i :: 0 <= i < m ==> now <= times[i] + d) ==> Prompt(r.log, d))
    decreases m
  {
    if m == 0 {
      assert Exec(cfg, s, []) == s;
    } else {
      AllAsked(cfg, s, m - 1, times, now, a, w, d);
      ExecSnoc(cfg, s, Checks(m - 1, now), Authorize(m - 1, now));
      hide Exec, CallsMade, ApplyAuthorize, Queued, Prompt;
      AskOne(cfg, Exec(cfg, s, Checks(m - 1, now)), m - 1, times, now, a, w, d);
    }
  }

  // -- no bound by the time of the call --

  /** One request per window. */
  function Spaced(n: nat, window: nat): (times: seq<nat>)
    ensures |times| == n && forall i :: 0 <= i < n ==> times[i] == i * window
  {
    if n == 0 then [] else Spaced(n - 1, window) + [(n - 1) * window]
  }

  /** The probe's bucket after `n` requests, each a window after the one before. */
  function ProbeBucket(p: Policy, n: nat): Option<Bucket>
    requires Sane(p)
  {
    if n == 0 then None else Some(Bucket(p.limit - 1, p.limit, p.window, (n - 1) * p.window))
  }

  /** A bucket that saw its last request one window ago is full again. */
  lemma FullAgain(p: Policy, n: nat)
    requires Sane(p)
    ensures ProbeBucket(p, n + 1).Some?
    ensures CheckBucket(ProbeBucket(p, n), n * p.window, p) == (ProbeBucket(p, n + 1).value, true)
  {
    if n == 0 {
      FirstCheck(0, p);
    } else {
      assert n * p.window - (n - 1) * p.window == p.window;
    }
  }

  lemma {:induction false} SpacedAreAdmitted(n: nat, p: Policy)
    requires Sane(p)
    ensures Admitted(None, Spaced(n, p.window), p) == n && After(None, Spaced(n, p.window), p) == ProbeBucket(p, n)
  {
    if n > 0 {
      var m := n - 1;
      SpacedAreAdmitted(m, p);
      FullAgain(p, m);
      hide CheckBucket, ProbeBucket, Sane;
      AfterConcat(None, Spaced(m, p.window), [m * p.window], p);
      var b := ProbeBucket(p, m);
      assert Admitted(b, [m * p.window], p) == 1 && After(b, [m * p.window], p) == ProbeBucket(p, n);
    }
  }

  lemma BurstIsTimely(n: nat, window: nat)
    ensures Timely(Arrivals(Spaced(n, window)) + Checks(n, n * window))
  {
    var run := Arrivals(Spaced(n, window)) + Checks(n, n * window);
    forall i, j | 0 <= i < j < |run| ensures run[i].now <= run[j].now {
      if i < n {
        MulMono(i, if j < n then j else n, window);
        assert run[i].now == i * window;
      } else {
        assert run[i].now == run[j].now == n * window;
      }
    }
  }

  /** The bound is on admissions and does not carry over to the calls themselves: a request
      whose body is slow to come is checked long after it was admitted. Whatever the policy
      and however large `n`, one certificate can cause `n` calls within one tick. */
  lemma SlowBodiesBunchCalls(cfg: Config, n: nat)
    requires Sane(cfg.admission)
    ensures var now := n * cfg.admission.window;
            var run := Arrivals(Spaced(n, cfg.admission.window)) + Checks(n, now);
            Timely(run) && CallsMade(Exec(cfg, START, run).log, "f", now, 1) == n
  {
    var times := Spaced(n, cfg.admission.window);
    var now := n * cfg.admission.window;
    SpacedAreAdmitted(n, cfg.admission);
    BurstIsTimely(n, cfg.admission.window);
    hide Exec, Queued, CallsMade, Timely, Prompt, Sane, Admitted, After;
    AllAdmitted(cfg, times, now, 1, 0);
    AllAsked(cfg, Exec(cfg, START, Arrivals(times)), n, times, now, now, 1, 0);
    ExecConcat(cfg, START, Arrivals(times), Checks(n, now));
  }

  // ---- calls that follow their admission soon ----

  /** No request is checked before it was admitted. */
  ghost predicate Stamped(s: State, t: nat) {
    && (forall rid :: rid in s.stages && s.stages[rid].Waiting? ==> s.stages[rid].at <= t)
    && (forall i :: 0 <= i < |s.log| && s.log[i].RuneCheck? ==> s.log[i].admittedAt <= s.log[i].now)
  }

  lemma StampedMove(s: State, t: nat, now: nat, rid: Rid, stage: Stage, e: Entry)
    requires Stamped(s, t) && t <= now
    requires stage.Waiting? ==> stage.at <= now
    requires e.RuneCheck? ==> e.admittedAt <= e.now
    ensures Stamped(Move(s, rid, stage, e), now)
  {
  }

  lemma StampedStep(cfg: Config, s: State, act: Action, t: nat)
    requires Stamped(s, t) && t <= act.now
    ensures Stamped(Apply(cfg, s, act), act.now)
  {
    hide Gate, Spend, BudgetOf, Identify;
    match act {
      case Arrive(rid, r, now) =>
        var id := Identify(r);
        if rid !in s.stages && id.None? {
          StampedMove(s, t, now, rid, Ended(None), Anonymous(rid));
        } else if rid !in s.stages {
          var (m, ok) := Spend(s.buckets, ADMIT, id.value.fingerprint, now, cfg.admission);
          StampedMove(s.(buckets := m), t, now, rid,
                      if ok then Waiting(id.value, r, now) else Ended(Some(id.value.fingerprint)),
                      Admission(rid, id.value.fingerprint, now, ok));
        }
      case Authorize(rid, now) =>
        if rid in s.stages && s.stages[rid].Waiting? {
          var Waiting(id, r, at) := s.stages[rid];
          var g := Gate(r, cfg.maxBody);
          StampedMove(s, t, now, rid, if g.Ok? && r.runeValid then Cleared(id, r) else Ended(Some(id.fingerprint)),
                      if g.Err? then Rejected(rid, id.fingerprint, g.error)
                      else RuneCheck(rid, id.fingerprint, at, g.value, now, r.runeValid));
        }
      case Meter(rid, now) =>
        var later := ApplyMeter(s, rid, now);
        if later != s {
          var id := s.stages[rid].id;
          StampedMove(s.(buckets := later.buckets), t, now, rid, Ended(Some(id.fingerprint)), later.log[|s.log|]);
        }
      case Clean(now) =>
    }
  }

  lemma {:induction false} StampedRun(cfg: Config, s: State, run: seq<Action>, t: nat)
    requires Stamped(s, t) && Timely(run) && (run != [] ==> t <= run[0].now)
    ensures Stamped(Exec(cfg, s, run), if run == [] then t else run[|run| - 1].now)
    decreases |run|
  {
    hide Stamped, Apply;
    if run != [] {
      StampedStep(cfg, s, run[0], t);
      StampedRun(cfg, Apply(cfg, s, run[0]), run[1..], run[0].now);
    }
  }

  /** Calls made in one interval are calls paid for in another. */
  lemma {:induction false} CallsMadeWerePaid(log: seq<Entry>, fp: string, a: nat, t: nat, b: nat, w: nat)
    requires forall i :: 0 <= i < |log| && log[i].RuneCheck? && In(log[i].now, a, t) ==> In(log[i].admittedAt, b, w)
    ensures CallsMade(log, fp, a, t) <= RuneCalls(log, fp, b, w)
  {
    if log != [] {
      var n := |log| - 1;
      assert log[n].RuneCheck? && In(log[n].now, a, t) ==> In(log[n].admittedAt, b, w);
      CallsMadeWerePaid(log[..n], fp, a, t, b, w);
    }
  }

  lemma SaneWindow(p: Policy)
    requires Sane(p)
    ensures p.window > 0
  {
  }

  /** A bound on the delay from admission to check, as a request timeout would give, bounds
      the calls of `check_rune` in any interval of `t` ticks: to what the pre-auth budget
      grants in `t + d`. */
  lemma PromptCallsAreBounded(cfg: Config, run: seq<Action>, fp: string, a: nat, t: nat, d: nat)
    requires Timely(run) && Sane(cfg.admission) && t > 0 && Prompt(Exec(cfg, START, run).log, d)
    ensures CallsMade(Exec(cfg, START, run).log, fp, a, t) <= IntervalMax(t + d, cfg.admission)
  {
    hide Sane, IntervalMax, CallsMade;
    var s := Exec(cfg, START, run);
    var b := if a >= d then a - d else 0;
    var w := a + t - b;
    StampedRun(cfg, START, run, 0);
    forall i | 0 <= i < |s.log| && s.log[i].RuneCheck? && In(s.log[i].now, a, t) ensures In(s.log[i].admittedAt, b, w) {
      assert s.log[i].admittedAt <= s.log[i].now <= s.log[i].admittedAt + d;
    }
    CallsMadeWerePaid(s.log, fp, a, t, b, w);
    CountNone(START.stages, IsWaiting(fp, b, w));
    CallsRun(cfg, START, run, fp, b, w);
    hide Exec;
    BudgetInInterval(cfg, run, ADMIT, fp, b, w);
    SaneWindow(cfg.admission);
    IntervalGrows(w, t + d, cfg.admission);
  }

  // -- and no smaller one --

  /** Requests that are checked as soon as they are admitted. */
  function Pairs(times: seq<nat>, from: nat, n: nat): (run: seq<Action>)
    requires from <= n <= |times|
    decreases n
  {
    if n == from then []
    else Pairs(times, from, n - 1) + [Arrive(n - 1, PROBE, times[n - 1])] + [Authorize(n - 1, times[n - 1])]
  }

  lemma OnePair(cfg: Config, s: State, times: seq<nat>, m: nat, a: nat, w: nat, d: nat)
    requires m < |times| && Queued(cfg, s, m, times[..m]) && Prompt(s.log, d)
    requires Admitted(None, times, cfg.admission) == |times| && In(times[m], a, w)
    ensures var r := ApplyAuthorize(cfg, ApplyArrive(cfg, s, m, PROBE, times[m]), m, times[m]);
            && Queued(cfg, r, m + 1, times[..m + 1]) && Prompt(r.log, d)
            && CallsMade(r.log, "f", a, w) == CallsMade(s.log, "f", a, w) + 1
  {
    var t := times[m];
    assert times[..m + 1] == times[..m] + [t];
    PrefixAdmitted(times, m + 1, cfg.admission);
    hide CallsMade, ApplyAuthorize, ApplyArrive, Queued, Prompt, Admitted, After;
    AdmitOne(cfg, s, m, times[..m], t, a, w, d);
    AskOne(cfg, ApplyArrive(cfg, s, m, PROBE, t), m, times[..m + 1], t, a, w, d);
  }

  lemma PairRuns(cfg: Config, s: State, times: seq<nat>, from: nat, m: nat)
    requires from <= m < |times|
    ensures Exec(cfg, s, Pairs(times, from, m + 1))
         == ApplyAuthorize(cfg, ApplyArrive(cfg, Exec(cfg, s, Pairs(times, from, m)), m, PROBE, times[m]), m, times[m])
  {
    var before := Pairs(times, from, m);
    ExecSnoc(cfg, s, before, Arrive(m, PROBE, times[m]));
    ExecSnoc(cfg, s, before + [Arrive(m, PROBE, times[m])], Authorize(m, times[m]));
    hide Exec, ApplyAuthorize, ApplyArrive;
  }

  lemma {:induction false} PairsAsked(
      cfg: Config, s: State, times: seq<nat>, from: nat, n: nat, a: nat, w: nat, d: nat)
    requires from <= n <= |times| && Queued(cfg, s, from, times[..from]) && Prompt(s.log, d)
    requires Admitted(None, times, cfg.admission) == |times|
    requires forall i :: from <= i < n ==> In(times[i], a, w)
    ensures var r := Exec(cfg, s, Pairs(times, from, n));
            && Queued(cfg, r, n, times[..n]) && Prompt(r.log, d)
            && CallsMade(r.log, "f", a, w) == CallsMade(s.log, "f", a, w) + (n - from)
    decreases n
  {
    if n == from {
      assert Exec(cfg, s, []) == s;
    } else {
      hide Exec, CallsMade, ApplyAuthorize, ApplyArrive, Queued, Prompt, Admitted, After, Pairs, In;
      var m := n - 1;
      PairsAsked(cfg, s, times, from, m, a, w, d);
      PairRuns(cfg, s, times, from, m);
      OnePair(cfg, Exec(cfg, s, Pairs(times, from, m)), times, m, a, w, d);
    }
  }

  lemma PrefixAdmitted(times: seq<nat>, n: nat, p: Policy)
    requires n <= |times| && Admitted(None, times, p) == |times|
    ensures Admitted(None, times[..n], p) == n
  {
    assert times == times[..n] + times[n..];
    AfterConcat(None, times[..n], times[n..], p);
    AdmittedAtMostAll(None, times[..n], p);
    AdmittedAtMostAll(After(None, times[..n], p), times[n..], p);
  }

  lemma TimelyConcat(run: seq<Action>, more: seq<Action>, t: nat)
    requires Timely(run) && Timely(more)
    requires (forall i :: 0 <= i < |run| ==> run[i].now <= t) && (forall i :: 0 <= i < |more| ==> t <= more[i].now)
    ensures Timely(run + more)
  {
  }

  lemma {:induction false} PairsAreTimely(times: seq<nat>, from: nat, n: nat, d: nat)
    requires Sorted(times) && from <= n <= |times| && forall i :: from <= i < n ==> d <= times[i]
    ensures var run := Pairs(times, from, n);
            && Timely(run)
            && (forall i :: 0 <= i < |run| ==> d <= run[i].now && from < n && run[i].now <= times[n - 1])
    decreases n
  {
    if n > from {
      PairsAreTimely(times, from, n - 1, d);
      var run, t := Pairs(times, from, n - 1), times[n - 1];
      TimelyConcat(run, [Arrive(n - 1, PROBE, t)], t);
      TimelyConcat(run + [Arrive(n - 1, PROBE, t)], [Authorize(n - 1, t)], t);
    }
  }

  /** Requests at the given times, each checked when it is admitted but not before `d`. */
  function DelayedRun(times: seq<nat>, d: nat): seq<Action> {
    var from := CountBelow(times, d);
    Arrivals(times[..from]) + Checks(from, d) + Pairs(times, from, |times|)
  }

  lemma DelayedRunIsTimely(times: seq<nat>, d: nat)
    requires Sorted(times)
    ensures Timely(DelayedRun(times, d))
  {
    var from := CountBelow(times, d);
    CountBelowSplits(times, d);
    PairsAreTimely(times, from, |times|, d);
    assert Timely(Arrivals(times[..from])) && Timely(Checks(from, d));
    TimelyConcat(Arrivals(times[..from]), Checks(from, d), d);
    TimelyConcat(Arrivals(times[..from]) + Checks(from, d), Pairs(times, from, |times|), d);
  }

  lemma DelayedRunCalls(cfg: Config, times: seq<nat>, t: nat, d: nat)
    requires Sorted(times) && Admitted(None, times, cfg.admission) == |times| && t > 0 && Within(times, 0, t + d)
    ensures var log := Exec(cfg, START, DelayedRun(times, d)).log;
            Prompt(log, d) && CallsMade(log, "f", d, t) == |times|
  {
    var from := CountBelow(times, d);
    CountBelowSplits(times, d);
    PrefixAdmitted(times, from, cfg.admission);
    var early := times[..from];
    AllAdmitted(cfg, early, d, t, d);
    var s1 := Exec(cfg, START, Arrivals(early));
    AllAsked(cfg, s1, from, early, d, d, t, d);
    var s2 := Exec(cfg, s1, Checks(from, d));
    PairsAsked(cfg, s2, times, from, |times|, d, t, d);
    hide Exec, CallsMade, Queued, Prompt, Admitted;
    ExecConcat(cfg, START, Arrivals(early), Checks(from, d));
    ExecConcat(cfg, START, Arrivals(early) + Checks(from, d), Pairs(times, from, |times|));
  }

  ghost predicate PromptCallsAtMost(cfg: Config, t: nat, d: nat, n: nat) {
    forall run: seq<Action>, fp: string, a: nat :: Timely(run) && Prompt(Exec(cfg, START, run).log, d) ==>
      CallsMade(Exec(cfg, START, run).log, fp, a, t) <= n
  }

  /** What a bound `d` on the delay buys, exactly: a number bounds the calls of one
      certificate in every interval of `t` ticks if and only if it is at least what the
      pre-auth budget grants in `t + d`. */
  lemma PromptCallsExactly(cfg: Config, t: nat, d: nat, n: nat)
    requires Sane(cfg.admission) && t > 0
    ensures PromptCallsAtMost(cfg, t, d, n) <==> IntervalMax(t + d, cfg.admission) <= n
  {
    if IntervalMax(t + d, cfg.admission) <= n {
      forall run: seq<Action>, fp: string, a: nat | Timely(run) && Prompt(Exec(cfg, START, run).log, d)
        ensures CallsMade(Exec(cfg, START, run).log, fp, a, t) <= n
      {
        PromptCallsAreBounded(cfg, run, fp, a, t, d);
      }
    } else {
      var times := Densest(t + d, cfg.admission);
      DensestAllAdmitted(t + d, cfg.admission);
      DelayedRunIsTimely(times, d);
      DelayedRunCalls(cfg, times, t, d);
    }
  }

  ghost predicate AdmissionsAtMost(cfg: Config, t: nat, n: nat) {
    forall run: seq<Action>, fp: string, a: nat :: Timely(run) ==>
      Granted(Exec(cfg, START, run).log, ADMIT, fp, a, t) <= n
  }

  /** The same for what the pre-auth budget itself grants. */
  lemma AdmissionsExactly(cfg: Config, t: nat, n: nat)
    requires Sane(cfg.admission) && t > 0
    ensures AdmissionsAtMost(cfg, t, n) <==> IntervalMax(t, cfg.admission) <= n
  {
    if IntervalMax(t, cfg.admission) <= n {
      forall run: seq<Action>, fp: string, a: nat | Timely(run)
        ensures Granted(Exec(cfg, START, run).log, ADMIT, fp, a, t) <= n
      {
        BudgetInInterval(cfg, run, ADMIT, fp, a, t);
      }
    } else {
      var times := Densest(t, cfg.admission);
      var run := DelayedRun(times, 0);
      DensestAllAdmitted(t, cfg.admission);
      DelayedRunIsTimely(times, 0);
      DelayedRunCalls(cfg, times, t, 0);
      CallsWithinGrants(cfg, run, "f", 0, t);
    }
  }

  /** Without delay each call falls into the interval of its admission. */
  lemma CallsWithinGrants(cfg: Config, run: seq<Action>, fp: string, a: nat, t: nat)
    requires Timely(run) && Prompt(Exec(cfg, START, run).log, 0)
    ensures var log := Exec(cfg, START, run).log; CallsMade(log, fp, a, t) <= Granted(log, ADMIT, fp, a, t)
  {
    var s := Exec(cfg, START, run);
    StampedRun(cfg, START, run, 0);
    CallsMadeWerePaid(s.log, fp, a, t, a, t);
    CountNone(START.stages, IsWaiting(fp, a, t));
    CallsRun(cfg, START, run, fp, a, t);
  }
}
