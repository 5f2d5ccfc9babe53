/** How often one certificate gets through to the handler of a method. */
module QuotaBounds {
  import opened Wrappers
  import opened AuthGate
  import opened RateLimiter
  import opened RateBounds
  import opened RateService
  import opened Pipeline
  import opened PipelineBudgets

  /** How often the handler was reached through one of these paths in `[a, a + w)`. */
  function Handled(log: seq<Entry>, paths: set<string>, fp: string, a: nat, w: nat): nat {
    if log == [] then 0
    else
      var e := log[|log| - 1];
      Handled(log[..|log| - 1], paths, fp, a, w)
      + if e.Quota? && e.ok && e.path in paths && e.fingerprint == fp && In(e.now, a, w) then 1 else 0
  }

  lemma {:induction false} HandledIsGranted(
      log: seq<Entry>, paths: set<string>, name: string, fp: string, a: nat, w: nat)
    requires forall i :: 0 <= i < |log| && log[i].Quota? ==> RuneMethodForPath(log[i].path) == Some(log[i].name)
    requires forall path :: path in paths ==> RuneMethodForPath(path) == Some(name)
    ensures Handled(log, paths, fp, a, w) <= Granted(log, name, fp, a, w)
  {
    if log != [] {
      assert log[|log| - 1].Quota? && log[|log| - 1].path in paths ==> log[|log| - 1].name == name;
      HandledIsGranted(log[..|log| - 1], paths, name, fp, a, w);
    }
  }

  function QuotaOf(name: string): (p: Policy)
    requires PolicyForMethod(name).Some?
    ensures Sane(p)
  {
    PolicyForMethod(name).value
  }

  /** All of these paths belong to one limited method. */
  ghost predicate PathsOf(paths: set<string>, name: string) {
    PolicyForMethod(name).Some? && forall path :: path in paths ==> RuneMethodForPath(path) == Some(name)
  }

  /** All paths of one method share its budget. */
  lemma MethodInInterval(cfg: Config, run: seq<Action>, paths: set<string>, name: string, fp: string, a: nat, t: nat)
    requires Timely(run) && PathsOf(paths, name) && t > 0
    ensures Handled(Exec(cfg, START, run).log, paths, fp, a, t) <= IntervalMax(t, QuotaOf(name))
  {
    var log := Exec(cfg, START, run).log;
    forall i | 0 <= i < |log| && log[i].Quota? ensures RuneMethodForPath(log[i].path) == Some(log[i].name) {
      NothingIsSkipped(cfg, run, i);
    }
    assert name != ADMIT && Sane(QuotaOf(name));
    HandledIsGranted(log, paths, name, fp, a, t);
    BudgetInInterval(cfg, run, name, fp, a, t);
  }

  lemma MethodCeiling(cfg: Config, run: seq<Action>, paths: set<string>, name: string, fp: string, a: nat)
    requires Timely(run) && PathsOf(paths, name)
    ensures var p := QuotaOf(name);
            Handled(Exec(cfg, START, run).log, paths, fp, a, p.window) <= 2 * p.limit - 1
  {
    var p := QuotaOf(name);
    MethodInInterval(cfg, run, paths, name, fp, a, p.window);
    PartialRefillIsSmall(p.window - 1, p.window, p.limit);
  }

  // ---- and no less: the densest run ----

  function Later(times: seq<nat>, c: nat): (later: seq<nat>)
    ensures |later| == |times| && forall i :: 0 <= i < |times| ==> later[i] == times[i] + c
  {
    seq(|times|, i requires 0 <= i < |times| => times[i] + c)
  }

  function LaterBucket(b: Option<Bucket>, c: nat): Option<Bucket> {
    match b case None => None case Some(x) => Some(x.(lastRefill := x.lastRefill + c))
  }

  /** The limiter does not care when the clock started. */
  lemma LaterCheck(b: Option<Bucket>, now: nat, c: nat, p: Policy)
    requires p.window > 0
    ensures CheckBucket(LaterBucket(b, c), now + c, p).1 == CheckBucket(b, now, p).1
    ensures Some(CheckBucket(LaterBucket(b, c), now + c, p).0) == LaterBucket(Some(CheckBucket(b, now, p).0), c)
  {
    hide RefillTokens, AddU32;
    var b0 := if b.Some? then b.value else Bucket(p.limit, p.limit, p.window, now);
    assert Elapsed(now + c, b0.lastRefill + c) == Elapsed(now, b0.lastRefill);
  }

  lemma {:induction false} LaterAdmitted(b: Option<Bucket>, times: seq<nat>, c: nat, p: Policy)
    requires p.window > 0
    ensures Admitted(LaterBucket(b, c), Later(times, c), p) == Admitted(b, times, p)
    decreases |times|
  {
    if times != [] {
      hide CheckBucket, LaterBucket;
      LaterCheck(b, times[0], c, p);
      assert Later(times, c)[0] == times[0] + c;
      assert Later(times, c)[1..] == Later(times[1..], c);
      LaterAdmitted(Some(CheckBucket(b, times[0], p).0), times[1..], c, p);
    }
  }

  /** A request with a valid rune. */
  function Call(path: string): Request {
    Request(None, Some(["f"]), None, path, [Text("r")], [], true)
  }

  /** `n` of them get past the rune check, one in each pre-auth window, and wait. */
  function Enter(path: string, n: nat, window: nat): seq<Action> {
    if n == 0 then []
    else
      Enter(path, n - 1, window)
      + [Arrive(n - 1, Call(path), (n - 1) * window)] + [Authorize(n - 1, (n - 1) * window)]
  }

  /** The first `n` of them reach the quota check at these times. */
  function Meters(times: seq<nat>, n: nat): (run: seq<Action>)
    requires n <= |times|
    ensures |run| == n && forall i :: 0 <= i < n ==> run[i] == Meter(i, times[i])
  {
    if n == 0 then [] else Meters(times, n - 1) + [Meter(n - 1, times[n - 1])]
  }

  /** The calls `from .. to` are cleared and those are all. */
  ghost predicate Cleared(s: State, path: string, from: nat, to: nat) {
    && (forall rid :: rid in s.stages ==> rid < to)
    && (forall rid :: from <= rid < to ==> rid in s.stages && s.stages[rid] == Stage.Cleared(PROBER, Call(path)))
  }

  lemma HandledAppended(log: seq<Entry>, e: Entry, paths: set<string>, a: nat, w: nat)
    ensures Handled(log + [e], paths, "f", a, w) == Handled(log, paths, "f", a, w)
         + if e.Quota? && e.ok && e.path in paths && e.fingerprint == "f" && In(e.now, a, w) then 1 else 0
  {
    assert (log + [e])[..|log|] == log;
  }

  lemma CallArrives(cfg: Config, s: State, path: string, n: nat, t: nat)
    requires n !in s.stages && CheckBucket(Get(s.buckets, KeyFor(ADMIT, "f")), t, cfg.admission).1
    requires RuneMethodForPath(path).Some?
    ensures var b := CheckBucket(Get(s.buckets, KeyFor(ADMIT, "f")), t, cfg.admission).0;
            var name := RuneMethodForPath(path).value;
            ApplyAuthorize(cfg, ApplyArrive(cfg, s, n, Call(path), t), n, t)
            == State(s.buckets[KeyFor(ADMIT, "f") := b], s.stages[n := Stage.Cleared(PROBER, Call(path))],
                     s.log + [Admission(n, "f", t, true)] + [RuneCheck(n, "f", t, name, t, true)])
  {
    assert Identify(Call(path)) == Some(PROBER);
    assert Gate(Call(path), cfg.maxBody) == Ok(RuneMethodForPath(path).value);
    hide CheckBucket, KeyFor, Gate, Identify, RuneMethodForPath;
  }

  /** The first `n` calls are past the rune check, and only the pre-auth budget is touched. */
  ghost predicate Entered(cfg: Config, s: State, path: string, n: nat, paths: set<string>, a: nat, w: nat)
    requires Sane(cfg.admission)
  {
    && Cleared(s, path, 0, n) && Handled(s.log, paths, "f", a, w) == 0
    && Get(s.buckets, KeyFor(ADMIT, "f")) == ProbeBucket(cfg.admission, n)
    && s.buckets.Keys <= {KeyFor(ADMIT, "f")}
  }

  lemma ClearedGrows(s: State, path: string, m: nat, r: State)
    requires Cleared(s, path, 0, m) && r.stages == s.stages[m := Stage.Cleared(PROBER, Call(path))]
    ensures Cleared(r, path, 0, m + 1)
  {
    hide Call;
  }

  lemma NothingHandled(log: seq<Entry>, e: Entry, e': Entry, paths: set<string>, a: nat, w: nat)
    requires !e.Quota? && !e'.Quota?
    ensures Handled(log + [e] + [e'], paths, "f", a, w) == Handled(log, paths, "f", a, w)
  {
    hide Handled;
    HandledAppended(log, e, paths, a, w);
    HandledAppended(log + [e], e', paths, a, w);
  }

  lemma OneEnters(cfg: Config, s: State, path: string, m: nat, paths: set<string>, a: nat, w: nat)
    requires Sane(cfg.admission) && RuneMethodForPath(path).Some? && Entered(cfg, s, path, m, paths, a, w)
    ensures var t := m * cfg.admission.window;
            Entered(cfg, ApplyAuthorize(cfg, ApplyArrive(cfg, s, m, Call(path), t), m, t), path, m + 1, paths, a, w)
  {
    var t := m * cfg.admission.window;
    FullAgain(cfg.admission, m);
    assert m !in s.stages;
    hide CheckBucket, KeyFor, Handled, ApplyArrive, ApplyAuthorize, ProbeBucket, RuneMethodForPath, Sane, Cleared;
    CallArrives(cfg, s, path, m, t);
    var r := ApplyAuthorize(cfg, ApplyArrive(cfg, s, m, Call(path), t), m, t);
    ClearedGrows(s, path, m, r);
    NothingHandled(s.log, Admission(m, "f", t, true),
                   RuneCheck(m, "f", t, RuneMethodForPath(path).value, t, true), paths, a, w);
  }

  lemma EnterRuns(cfg: Config, path: string, m: nat)
    ensures var W := cfg.admission.window;
            var s := Exec(cfg, START, Enter(path, m, W));
            Exec(cfg, START, Enter(path, m + 1, W))
              == ApplyAuthorize(cfg, ApplyArrive(cfg, s, m, Call(path), m * W), m, m * W)
  {
    var W := cfg.admission.window;
    var before := Enter(path, m, W);
    ExecSnoc(cfg, START, before, Arrive(m, Call(path), m * W));
    ExecSnoc(cfg, START, before + [Arrive(m, Call(path), m * W)], Authorize(m, m * W));
    hide Exec, ApplyAuthorize, ApplyArrive, Call;
  }

  lemma {:induction false} AllEnter(cfg: Config, path: string, n: nat, paths: set<string>, a: nat, w: nat)
    requires Sane(cfg.admission) && RuneMethodForPath(path).Some?
    ensures Entered(cfg, Exec(cfg, START, Enter(path, n, cfg.admission.window)), path, n, paths, a, w)
  {
    if n == 0 {
      assert Exec(cfg, START, []) == START;
    } else {
      hide Exec, Entered, ApplyArrive, ApplyAuthorize, RuneMethodForPath, Sane, Call, Enter;
      AllEnter(cfg, path, n - 1, paths, a, w);
      EnterRuns(cfg, path, n - 1);
      OneEnters(cfg, Exec(cfg, START, Enter(path, n - 1, cfg.admission.window)), path, n - 1, paths, a, w);
    }
  }

  lemma OneMetered(s: State, path: string, m: nat, n: nat, now: nat, p: Policy, paths: set<string>, a: nat, w: nat)
    requires Cleared(s, path, m, n) && m < n && path in paths && In(now, a, w)
    requires BudgetOf(path).Some? && BudgetOf(path).value.1 == p
    requires CheckBucket(Get(s.buckets, KeyFor(BudgetOf(path).value.0, "f")), now, p).1
    ensures var r := ApplyMeter(s, m, now); var key := KeyFor(BudgetOf(path).value.0, "f");
            && Cleared(r, path, m + 1, n)
            && Handled(r.log, paths, "f", a, w) == Handled(s.log, paths, "f", a, w) + 1
            && Get(r.buckets, key) == Some(CheckBucket(Get(s.buckets, key), now, p).0)
  {
    hide CheckBucket, KeyFor, Handled, BudgetOf;
    HandledAppended(s.log, Quota(m, "f", BudgetOf(path).value.0, path, now, true), paths, a, w);
  }

  lemma LastOfPrefix(times: seq<nat>, n: nat, p: Policy)
    requires 0 < n <= |times| && Admitted(None, times, p) == |times|
    ensures var b := After(None, times[..n - 1], p); var (next, ok) := CheckBucket(b, times[n - 1], p);
            ok && After(None, times[..n], p) == Some(next)
  {
    hide Admitted, After, CheckBucket;
    assert times[..n] == times[..n - 1] + [times[n - 1]];
    PrefixAdmitted(times, n, p);
    LastIsAdmitted(times[..n - 1], times[n - 1], p);
  }

  lemma {:induction false} AllMetered(
      cfg: Config, s: State, path: string, times: seq<nat>, n: nat, p: Policy, paths: set<string>, a: nat, w: nat)
    requires n <= |times| && Admitted(None, times, p) == |times|
    requires forall i :: 0 <= i < |times| ==> In(times[i], a, w)
    requires Cleared(s, path, 0, |times|) && path in paths && BudgetOf(path).Some? && BudgetOf(path).value.1 == p
    requires Get(s.buckets, KeyFor(BudgetOf(path).value.0, "f")) == None
    ensures var r := Exec(cfg, s, Meters(times, n));
            && Cleared(r, path, n, |times|)
            && Handled(r.log, paths, "f", a, w) == Handled(s.log, paths, "f", a, w) + n
            && Get(r.buckets, KeyFor(BudgetOf(path).value.0, "f")) == After(None, times[..n], p)
    decreases n
  {
    if n == 0 {
      assert Exec(cfg, s, []) == s;
    } else {
      var m := n - 1;
      assert Exec(cfg, s, Meters(times, n)) == ApplyMeter(Exec(cfg, s, Meters(times, m)), m, times[m]) by {
        ExecSnoc(cfg, s, Meters(times, m), Meter(m, times[m]));
      }
      hide CheckBucket, KeyFor, Handled, BudgetOf, Exec, ApplyMeter, Cleared, Admitted, After, In, Meters;
      AllMetered(cfg, s, path, times, m, p, paths, a, w);
      LastOfPrefix(times, n, p);
      OneMetered(Exec(cfg, s, Meters(times, m)), path, m, |times|, times[m], p, paths, a, w);
    }
  }

  /** The calls enter one after the other and then use up the quota as fast as they can. */
  function QuotaRun(path: string, times: seq<nat>, window: nat): seq<Action> {
    Enter(path, |times|, window) + Meters(Later(times, |times| * window), |times|)
  }

  lemma {:induction false} EnterIsTimely(path: string, n: nat, window: nat)
    ensures var run := Enter(path, n, window);
            Timely(run) && forall i :: 0 <= i < |run| ==> n > 0 && run[i].now <= (n - 1) * window
  {
    if n > 0 {
      EnterIsTimely(path, n - 1, window);
      var before, t := Enter(path, n - 1, window), (n - 1) * window;
      if n > 1 { assert t == (n - 2) * window + window; }
      TimelyConcat(before, [Arrive(n - 1, Call(path), t)], t);
      TimelyConcat(before + [Arrive(n - 1, Call(path), t)], [Authorize(n - 1, t)], t);
    }
  }

  lemma QuotaRunIsTimely(path: string, times: seq<nat>, window: nat)
    requires Sorted(times)
    ensures Timely(QuotaRun(path, times, window))
  {
    var n := |times|;
    EnterIsTimely(path, n, window);
    if n > 0 { assert n * window == (n - 1) * window + window; }
    TimelyConcat(Enter(path, n, window), Meters(Later(times, n * window), n), n * window);
  }

  lemma QuotaRunHandles(cfg: Config, path: string, times: seq<nat>, paths: set<string>, name: string, t: nat)
    requires Sane(cfg.admission) && PathsOf(paths, name) && path in paths && Within(times, 0, t)
    requires Admitted(None, times, QuotaOf(name)) == |times|
    ensures var W := cfg.admission.window;
            Handled(Exec(cfg, START, QuotaRun(path, times, W)).log, paths, "f", |times| * W, t) == |times|
  {
    var W, p, n := cfg.admission.window, QuotaOf(name), |times|;
    var later := Later(times, n * W);
    AllEnter(cfg, path, n, paths, n * W, t);
    LaterAdmitted(None, times, n * W, p);
    KeysDiffer(ADMIT, "f", name, "f");
    assert BudgetOf(path) == Some((name, p));
    hide Exec, Handled, Cleared, Admitted, KeyFor, BudgetOf, ProbeBucket;
    AllMetered(cfg, Exec(cfg, START, Enter(path, n, W)), path, later, n, p, paths, n * W, t);
    ExecConcat(cfg, START, Enter(path, n, W), Meters(later, n));
  }

  ghost predicate HandledAtMost(cfg: Config, paths: set<string>, t: nat, n: nat) {
    forall run: seq<Action>, fp: string, a: nat :: Timely(run) ==>
      Handled(Exec(cfg, START, run).log, paths, fp, a, t) <= n
  }

  /** For every method and every length, exactly: a number bounds how often one certificate
      reaches the handler in an interval of `t` ticks if and only if it is at least what the
      method's budget grants. The pre-auth budget lowers it for no length, because admitted
      requests may wait. */
  lemma MethodExactly(cfg: Config, paths: set<string>, name: string, t: nat, n: nat)
    requires Sane(cfg.admission) && PathsOf(paths, name) && paths != {} && t > 0
    ensures HandledAtMost(cfg, paths, t, n) <==> IntervalMax(t, QuotaOf(name)) <= n
  {
    hide Exec, Handled, Timely, QuotaRun, Densest, PolicyForMethod, RuneMethodForPath, QuotaOf;
    var p := QuotaOf(name);
    if IntervalMax(t, p) <= n {
      forall run: seq<Action>, fp: string, a: nat | Timely(run)
        ensures Handled(Exec(cfg, START, run).log, paths, fp, a, t) <= n
      {
        MethodInInterval(cfg, run, paths, name, fp, a, t);
      }
    } else {
      var path :| path in paths;
      var run, a := DenseQuotaRun(cfg, path, paths, name, p, t);
    }
  }

  lemma DenseQuotaRun(cfg: Config, path: string, paths: set<string>, name: string, p: Policy, t: nat)
      returns (run: seq<Action>, a: nat)
    requires Sane(cfg.admission) && PathsOf(paths, name) && path in paths && t > 0
    requires Sane(p) && p == QuotaOf(name)
    ensures Timely(run) && Handled(Exec(cfg, START, run).log, paths, "f", a, t) == IntervalMax(t, p)
  {
    hide Densest, Exec, Handled, Timely, QuotaRun, Admitted, Within, Sorted, PolicyForMethod, RuneMethodForPath;
    hide PathsOf, RefillTokens;
    var times := Densest(t, p);
    run, a := QuotaRun(path, times, cfg.admission.window), |times| * cfg.admission.window;
    DensestAllAdmitted(t, p);
    QuotaRunIsTimely(path, times, cfg.admission.window);
    QuotaRunHandles(cfg, path, times, paths, name, t);
  }

  const HOUR: nat := 3600 * TICKS_PER_SECOND

  const INVOICE_PATHS := {"/cln.NodeServices/Invoice", "/cln.NodeServices/InvoiceStream"}
  const XPAY_PATHS := {"/cln.NodeServices/Xpay", "/cln.NodeServices/XpayStreamWatch"}

  /** In any hour one certificate gets at most five invoices made, and at most five payments,
      whichever of the two paths it uses for each. */
  lemma PaymentsPerHour(cfg: Config, run: seq<Action>, fp: string, a: nat)
    requires Timely(run)
    ensures var log := Exec(cfg, START, run).log;
            Handled(log, INVOICE_PATHS, fp, a, HOUR) <= 5 && Handled(log, XPAY_PATHS, fp, a, HOUR) <= 5
  {
    MethodCeiling(cfg, run, INVOICE_PATHS, "invoice", fp, a);
    MethodCeiling(cfg, run, XPAY_PATHS, "xpay", fp, a);
  }

  /** And no fewer: five in an hour do happen, although the policy says three. */
  lemma PaymentsExactly(cfg: Config, n: nat)
    requires Sane(cfg.admission)
    ensures HandledAtMost(cfg, INVOICE_PATHS, HOUR, n) <==> 5 <= n
    ensures HandledAtMost(cfg, XPAY_PATHS, HOUR, n) <==> 5 <= n
  {
    assert "/cln.NodeServices/Invoice" in INVOICE_PATHS && "/cln.NodeServices/Xpay" in XPAY_PATHS;
    MethodExactly(cfg, INVOICE_PATHS, "invoice", HOUR, n);
    MethodExactly(cfg, XPAY_PATHS, "xpay", HOUR, n);
    assert IntervalMax(HOUR, PAYMENT_POLICY) == 5;
  }

  /** What the policies amount to in an hour. */
  lemma HourlyNumbers()
    ensures IntervalMax(HOUR, PAYMENT_POLICY) == 5 && IntervalMax(HOUR, GETINFO_POLICY) == 119
    ensures IntervalMax(HOUR, STREAM_POLICY) == 23
  {
  }

  lemma PolicyOfCall(i: nat)
    requires i < |RPCS|
    ensures PathsOf({SERVICE + RPCS[i]}, ClnMethod(RPCS[i]))
    ensures QuotaOf(ClnMethod(RPCS[i])) ==
      if i == 1 then GETINFO_POLICY else if i in {0, 2, 3, 4} then PAYMENT_POLICY else STREAM_POLICY
  {
    NamedPath(i);
    MethodNames(i);
    hide RuneMethodForPath, ClnMethod;
  }

  /** Every call by itself: 119 calls of `Getinfo`, 5 of each of the four paths of invoices and
      payments, and 23 of each of the other five streams are the least bounds on what a
      certificate gets through in an hour. */
  lemma CallsPerHourExactly(cfg: Config, i: nat, n: nat)
    requires Sane(cfg.admission) && i < |RPCS|
    ensures HandledAtMost(cfg, {SERVICE + RPCS[i]}, HOUR, n) <==>
            (if RPCS[i] == "Getinfo" then 119
             else if RPCS[i] in {"Invoice", "InvoiceStream", "Xpay", "XpayStreamWatch"} then 5 else 23) <= n
  {
    PolicyOfCall(i);
    HourlyNumbers();
    hide QuotaOf, PathsOf, ClnMethod, IntervalMax, HandledAtMost, RuneMethodForPath, PolicyForMethod;
    MethodExactly(cfg, {SERVICE + RPCS[i]}, ClnMethod(RPCS[i]), HOUR, n);
    WhichCall(i);
  }

  lemma WhichCall(i: nat)
    requires i < |RPCS|
    ensures RPCS[i] == "Getinfo" <==> i == 1
    ensures RPCS[i] in {"Invoice", "InvoiceStream", "Xpay", "XpayStreamWatch"} <==> i in {0, 2, 3, 4}
  {
  }

  // ---- what each budget has to grant ----

  /** The first `limit` requests of a certificate that draw on a budget are granted, whoever
      else uses the server and whenever they come. */
  lemma FirstOfBudgetPass(cfg: Config, run: seq<Action>, name: string, fp: string, i: nat)
    requires IsBudget(name) && Timely(run) && (name == ADMIT ==> Sane(cfg.admission) && Fits(cfg.admission))
    requires i < |Answers(Exec(cfg, START, run).log, name, fp)| && i < PolicyOf(cfg, name).limit
    ensures Answers(Exec(cfg, START, run).log, name, fp)[i]
  {
    var log := Exec(cfg, START, run).log;
    if name != ADMIT { MethodsFit(name); }
    BudgetsAreSeparate(cfg, run, name, fp);
    SoloSize(None, Times(log, name, fp), PolicyOf(cfg, name));
    hide Exec, Times, Answers, Solo;
    FirstRequestsPass(Times(log, name, fp), i, PolicyOf(cfg, name));
  }

  /** The policies of the methods meet the condition on refills. */
  lemma MethodsFit(name: string)
    requires PolicyForMethod(name).Some?
    ensures IsBudget(name) && Sane(PolicyForMethod(name).value) && Fits(PolicyForMethod(name).value)
  {
    var p := PolicyForMethod(name).value;
    PartialRefillIsSmall(p.window - 1, p.window, p.limit);
  }
}
