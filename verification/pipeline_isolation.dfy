/** Non-interference in the request pipeline: what the server decides for one certificate
    depends on that certificate's requests alone, and not on what they claim to be. */
module PipelineIsolation {
  import opened Wrappers
  import opened AuthGate
  import opened RateLimiter
  import opened RateBounds
  import opened Pipeline
  import opened PipelineBudgets

  type Owners = map<Rid, Option<string>>

  function OwnersAfter(owners: Owners, a: Action): Owners {
    if a.Arrive? && a.rid !in owners then owners[a.rid := FingerprintOf(a.request)] else owners
  }

  /** Whether the action belongs to a request of the certificate. */
  predicate Mine(owners: Owners, a: Action, fp: string) {
    match a
    case Arrive(rid, r, _) => rid !in owners && FingerprintOf(r) == Some(fp)
    case Authorize(rid, _) => rid in owners && owners[rid] == Some(fp)
    case Meter(rid, _) => rid in owners && owners[rid] == Some(fp)
    case Clean(_) => false
  }

  function Unclaimed(a: Action): Action {
    if a.Arrive? then a.(request := WithoutClaims(a.request)) else a
  }

  /** The run as one certificate knows it: its own requests, without cleanups and without
      what they claim about themselves. */
  function OwnRun(owners: Owners, run: seq<Action>, fp: string): seq<Action>
    decreases |run|
  {
    if run == [] then []
    else
      (if Mine(owners, run[0], fp) then [Unclaimed(run[0])] else [])
      + OwnRun(OwnersAfter(owners, run[0]), run[1..], fp)
  }

  predicate About(e: Entry, fp: string) {
    !e.Anonymous? && e.fingerprint == fp
  }

  function LogFor(log: seq<Entry>, fp: string): seq<Entry> {
    if log == [] then []
    else LogFor(log[..|log| - 1], fp) + if About(log[|log| - 1], fp) then [log[|log| - 1]] else []
  }

  lemma LogForAppended(log: seq<Entry>, e: Entry, fp: string)
    ensures LogFor(log + [e], fp) == LogFor(log, fp) + if About(e, fp) then [e] else []
  {
    assert (log + [e])[..|log|] == log;
  }

  function NoClaim(id: ClientIdentity): ClientIdentity {
    id.(claimed := None)
  }

  function Plain(stage: Stage): Stage {
    match stage
    case Waiting(id, r, at) => Waiting(NoClaim(id), WithoutClaims(r), at)
    case Cleared(id, r) => Cleared(NoClaim(id), WithoutClaims(r))
    case Ended(fp) => Ended(fp)
  }

  function OwnerOf(stage: Stage): Option<string> {
    match stage
    case Waiting(id, _, _) => Some(id.fingerprint)
    case Cleared(id, _) => Some(id.fingerprint)
    case Ended(fp) => fp
  }

  ghost predicate Tracked(s: State, owners: Owners) {
    owners.Keys == s.stages.Keys && forall rid :: rid in s.stages ==> owners[rid] == OwnerOf(s.stages[rid])
  }

  /** `t` is a server on which only this certificate is served. */
  ghost predicate SameStages(s: State, t: State, fp: string) {
    && (forall rid :: rid in t.stages <==> rid in s.stages && OwnerOf(s.stages[rid]) == Some(fp))
    && (forall rid :: rid in t.stages ==> t.stages[rid] == Plain(s.stages[rid]))
  }

  ghost predicate SameBuckets(cfg: Config, m: map<string, Bucket>, n: map<string, Bucket>, fp: string, now: nat) {
    forall name | IsBudget(name) :: Alike(Get(m, KeyFor(name, fp)), Get(n, KeyFor(name, fp)), now, PolicyOf(cfg, name))
  }

  ghost predicate SameView(cfg: Config, s: State, t: State, fp: string, now: nat) {
    SameStages(s, t, fp) && SameBuckets(cfg, s.buckets, t.buckets, fp, now) && LogFor(s.log, fp) == t.log
  }

  // ---- the shared map ----

  lemma SpendSame(cfg: Config, m: map<string, Bucket>, n: map<string, Bucket>, name: string, fp: string, now: nat)
    requires IsBudget(name) && SameBuckets(cfg, m, n, fp, now)
    ensures Spend(m, name, fp, now, PolicyOf(cfg, name)).1 == Spend(n, name, fp, now, PolicyOf(cfg, name)).1
    ensures SameBuckets(cfg, Spend(m, name, fp, now, PolicyOf(cfg, name)).0,
        Spend(n, name, fp, now, PolicyOf(cfg, name)).0, fp, now)
  {
    var p := PolicyOf(cfg, name);
    var m', n' := Spend(m, name, fp, now, p).0, Spend(n, name, fp, now, p).0;
    assert Alike(Get(m, KeyFor(name, fp)), Get(n, KeyFor(name, fp)), now, p);
    AlikeCheck(Get(m, KeyFor(name, fp)), Get(n, KeyFor(name, fp)), now, now, p);
    forall other | IsBudget(other)
      ensures Alike(Get(m', KeyFor(other, fp)), Get(n', KeyFor(other, fp)), now, PolicyOf(cfg, other))
    {
      if other != name {
        KeysDiffer(other, fp, name, fp);
        assert Alike(Get(m, KeyFor(other, fp)), Get(n, KeyFor(other, fp)), now, PolicyOf(cfg, other));
      }
    }
  }

  lemma SpendOther(
      cfg: Config, m: map<string, Bucket>, n: map<string, Bucket>, name: string, other: string, fp: string, now: nat)
    requires IsBudget(name) && other != fp && SameBuckets(cfg, m, n, fp, now)
    ensures SameBuckets(cfg, Spend(m, name, other, now, PolicyOf(cfg, name)).0, n, fp, now)
  {
    var m' := Spend(m, name, other, now, PolicyOf(cfg, name)).0;
    forall mine | IsBudget(mine)
      ensures Alike(Get(m', KeyFor(mine, fp)), Get(n, KeyFor(mine, fp)), now, PolicyOf(cfg, mine))
    {
      KeysDiffer(mine, fp, name, other);
      assert Alike(Get(m, KeyFor(mine, fp)), Get(n, KeyFor(mine, fp)), now, PolicyOf(cfg, mine));
    }
  }

  lemma CleanSame(cfg: Config, m: map<string, Bucket>, n: map<string, Bucket>, fp: string, now: nat)
    requires SameBuckets(cfg, m, n, fp, now)
    ensures SameBuckets(cfg, Retain(m, now), n, fp, now)
  {
    forall name | IsBudget(name)
      ensures Alike(Get(Retain(m, now), KeyFor(name, fp)), Get(n, KeyFor(name, fp)), now, PolicyOf(cfg, name))
    {
      assert Alike(Get(m, KeyFor(name, fp)), Get(n, KeyFor(name, fp)), now, PolicyOf(cfg, name));
      AlikeRetain(m, KeyFor(name, fp), Get(n, KeyFor(name, fp)), now, now, PolicyOf(cfg, name));
    }
  }

  lemma LaterSame(cfg: Config, m: map<string, Bucket>, n: map<string, Bucket>, fp: string, t: nat, now: nat)
    requires SameBuckets(cfg, m, n, fp, t) && t <= now
    ensures SameBuckets(cfg, m, n, fp, now)
  {
    forall name | IsBudget(name)
      ensures Alike(Get(m, KeyFor(name, fp)), Get(n, KeyFor(name, fp)), now, PolicyOf(cfg, name))
    {
      assert Alike(Get(m, KeyFor(name, fp)), Get(n, KeyFor(name, fp)), t, PolicyOf(cfg, name));
    }
  }

  // ---- one step ----

  /** A step of both servers for the same request. */
  lemma MoveBoth(cfg: Config, s: State, t: State, fp: string, now: nat, rid: Rid, stage: Stage, e: Entry)
    requires SameView(cfg, s, t, fp, now)
    requires OwnerOf(stage) == Some(fp) && About(e, fp)
    ensures SameView(cfg, Move(s, rid, stage, e), Move(t, rid, Plain(stage), e), fp, now)
  {
    LogForAppended(s.log, e, fp);
  }

  /** A step for someone else's request. */
  lemma MoveOne(cfg: Config, s: State, t: State, fp: string, now: nat, rid: Rid, stage: Stage, e: Entry)
    requires SameView(cfg, s, t, fp, now)
    requires rid !in t.stages && OwnerOf(stage) != Some(fp) && !About(e, fp)
    ensures SameView(cfg, Move(s, rid, stage, e), t, fp, now)
  {
    LogForAppended(s.log, e, fp);
  }

  lemma ArriveMine(cfg: Config, s: State, t: State, fp: string, rid: Rid, r: Request, now: nat)
    requires SameView(cfg, s, t, fp, now) && rid !in s.stages && FingerprintOf(r) == Some(fp)
    ensures SameView(cfg, ApplyArrive(cfg, s, rid, r, now), ApplyArrive(cfg, t, rid, WithoutClaims(r), now), fp, now)
  {
    ClaimsDoNotIdentify(r, None);
    var id := Identify(r).value;
    assert Identify(WithoutClaims(r)) == Some(NoClaim(id));
    SpendSame(cfg, s.buckets, t.buckets, ADMIT, fp, now);
    var (m, ok) := Spend(s.buckets, ADMIT, fp, now, cfg.admission);
    var n := Spend(t.buckets, ADMIT, fp, now, cfg.admission).0;
    var stage := if ok then Waiting(id, r, now) else Ended(Some(fp));
    hide SameBuckets, Spend;
    MoveBoth(cfg, s.(buckets := m), t.(buckets := n), fp, now, rid, stage, Admission(rid, fp, now, ok));
  }

  lemma ArriveOther(cfg: Config, s: State, t: State, fp: string, rid: Rid, r: Request, now: nat)
    requires SameView(cfg, s, t, fp, now) && FingerprintOf(r) != Some(fp)
    ensures SameView(cfg, ApplyArrive(cfg, s, rid, r, now), t, fp, now)
  {
    if rid !in s.stages {
      var id := Identify(r);
      hide SameBuckets, Spend;
      if id.None? {
        MoveOne(cfg, s, t, fp, now, rid, Ended(None), Anonymous(rid));
      } else {
        var other := id.value.fingerprint;
        SpendOther(cfg, s.buckets, t.buckets, ADMIT, other, fp, now);
        var (m, ok) := Spend(s.buckets, ADMIT, other, now, cfg.admission);
        var stage := if ok then Waiting(id.value, r, now) else Ended(Some(other));
        MoveOne(cfg, s.(buckets := m), t, fp, now, rid, stage, Admission(rid, other, now, ok));
      }
    }
  }

  lemma GateIgnoresClaims(r: Request, max: nat)
    ensures Gate(WithoutClaims(r), max) == Gate(r, max)
  {
  }

  lemma AuthorizeMine(cfg: Config, s: State, t: State, fp: string, rid: Rid, now: nat)
    requires SameView(cfg, s, t, fp, now) && rid in s.stages && OwnerOf(s.stages[rid]) == Some(fp)
    ensures SameView(cfg, ApplyAuthorize(cfg, s, rid, now), ApplyAuthorize(cfg, t, rid, now), fp, now)
  {
    hide SameBuckets;
    if s.stages[rid].Waiting? {
      var Waiting(id, r, at) := s.stages[rid];
      GateIgnoresClaims(r, cfg.maxBody);
      var g := Gate(r, cfg.maxBody);
      hide Gate;
      if g.Err? {
        MoveBoth(cfg, s, t, fp, now, rid, Ended(Some(fp)), Rejected(rid, fp, g.error));
      } else {
        MoveBoth(cfg, s, t, fp, now, rid, if r.runeValid then Cleared(id, r) else Ended(Some(fp)),
                 RuneCheck(rid, fp, at, g.value, now, r.runeValid));
      }
    }
  }

  lemma AuthorizeOther(cfg: Config, s: State, t: State, fp: string, rid: Rid, now: nat)
    requires SameView(cfg, s, t, fp, now) && rid in s.stages && OwnerOf(s.stages[rid]) != Some(fp)
    ensures SameView(cfg, ApplyAuthorize(cfg, s, rid, now), t, fp, now)
  {
    hide SameBuckets;
    if s.stages[rid].Waiting? {
      var Waiting(id, r, at) := s.stages[rid];
      var g := Gate(r, cfg.maxBody);
      hide Gate;
      if g.Err? {
        MoveOne(cfg, s, t, fp, now, rid, Ended(Some(id.fingerprint)), Rejected(rid, id.fingerprint, g.error));
      } else {
        MoveOne(cfg, s, t, fp, now, rid, if r.runeValid then Cleared(id, r) else Ended(Some(id.fingerprint)),
                RuneCheck(rid, id.fingerprint, at, g.value, now, r.runeValid));
      }
    }
  }

  lemma BudgetIsBudget(cfg: Config, path: string)
    requires BudgetOf(path).Some?
    ensures IsBudget(BudgetOf(path).value.0) && PolicyOf(cfg, BudgetOf(path).value.0) == BudgetOf(path).value.1
  {
    BudgetsOfPaths(path);
  }

  lemma MeterMine(cfg: Config, s: State, t: State, fp: string, rid: Rid, now: nat)
    requires SameView(cfg, s, t, fp, now) && rid in s.stages && OwnerOf(s.stages[rid]) == Some(fp)
    ensures SameView(cfg, ApplyMeter(s, rid, now), ApplyMeter(t, rid, now), fp, now)
  {
    hide SameBuckets, Spend;
    if s.stages[rid].Cleared? {
      var path := s.stages[rid].request.path;
      if BudgetOf(path).None? {
        MoveBoth(cfg, s, t, fp, now, rid, Ended(Some(fp)), Unmetered(rid, fp, path));
      } else {
        BudgetIsBudget(cfg, path);
        var (name, p) := BudgetOf(path).value;
        hide BudgetOf, IsBudget, PolicyOf;
        SpendSame(cfg, s.buckets, t.buckets, name, fp, now);
        var (m, ok) := Spend(s.buckets, name, fp, now, p);
        var n := Spend(t.buckets, name, fp, now, p).0;
        MoveBoth(cfg, s.(buckets := m), t.(buckets := n), fp, now, rid, Ended(Some(fp)),
                 Quota(rid, fp, name, path, now, ok));
      }
    }
  }

  lemma MeterOther(cfg: Config, s: State, t: State, fp: string, rid: Rid, now: nat)
    requires SameView(cfg, s, t, fp, now) && rid in s.stages && OwnerOf(s.stages[rid]) != Some(fp)
    ensures SameView(cfg, ApplyMeter(s, rid, now), t, fp, now)
  {
    hide SameBuckets, Spend;
    if s.stages[rid].Cleared? {
      var path := s.stages[rid].request.path;
      var other := s.stages[rid].id.fingerprint;
      if BudgetOf(path).None? {
        MoveOne(cfg, s, t, fp, now, rid, Ended(Some(other)), Unmetered(rid, other, path));
      } else {
        BudgetIsBudget(cfg, path);
        var (name, p) := BudgetOf(path).value;
        hide BudgetOf, IsBudget, PolicyOf;
        SpendOther(cfg, s.buckets, t.buckets, name, other, fp, now);
        var (m, ok) := Spend(s.buckets, name, other, now, p);
        MoveOne(cfg, s.(buckets := m), t, fp, now, rid, Ended(Some(other)), Quota(rid, other, name, path, now, ok));
      }
    }
  }

  lemma SameViewLater(cfg: Config, s: State, t: State, fp: string, t0: nat, now: nat)
    requires SameView(cfg, s, t, fp, t0) && t0 <= now
    ensures SameView(cfg, s, t, fp, now)
  {
    LaterSame(cfg, s.buckets, t.buckets, fp, t0, now);
  }

  lemma SameViewClean(cfg: Config, s: State, t: State, fp: string, now: nat)
    requires SameView(cfg, s, t, fp, now)
    ensures SameView(cfg, Apply(cfg, s, Clean(now)), t, fp, now)
  {
    CleanSame(cfg, s.buckets, t.buckets, fp, now);
  }

  lemma TrackedStep(cfg: Config, s: State, owners: Owners, a: Action)
    requires Tracked(s, owners)
    ensures Tracked(Apply(cfg, s, a), OwnersAfter(owners, a))
  {
    hide Gate, Spend, BudgetOf;
  }

  /** The full server and the server of one certificate move together. */
  lemma SameViewStep(cfg: Config, s: State, t: State, owners: Owners, a: Action, fp: string, t0: nat)
    requires SameView(cfg, s, t, fp, t0) && Tracked(s, owners) && t0 <= a.now
    ensures SameView(cfg, Apply(cfg, s, a), if Mine(owners, a, fp) then Apply(cfg, t, Unclaimed(a)) else t, fp, a.now)
  {
    SameViewLater(cfg, s, t, fp, t0, a.now);
    hide SameView;
    match a {
      case Arrive(rid, r, now) =>
        if rid !in s.stages {
          if FingerprintOf(r) == Some(fp) {
            ArriveMine(cfg, s, t, fp, rid, r, now);
          } else {
            ArriveOther(cfg, s, t, fp, rid, r, now);
          }
        }
      case Authorize(rid, now) =>
        if rid in s.stages {
          if OwnerOf(s.stages[rid]) == Some(fp) {
            AuthorizeMine(cfg, s, t, fp, rid, now);
          } else {
            AuthorizeOther(cfg, s, t, fp, rid, now);
          }
        }
      case Meter(rid, now) =>
        if rid in s.stages {
          if OwnerOf(s.stages[rid]) == Some(fp) {
            MeterMine(cfg, s, t, fp, rid, now);
          } else {
            MeterOther(cfg, s, t, fp, rid, now);
          }
        }
      case Clean(now) => SameViewClean(cfg, s, t, fp, now);
    }
  }

  lemma {:induction false} SameViewRun(
      cfg: Config, s: State, t: State, owners: Owners, run: seq<Action>, fp: string, t0: nat)
    requires SameView(cfg, s, t, fp, t0) && Tracked(s, owners)
    requires Timely(run) && (run != [] ==> t0 <= run[0].now)
    ensures LogFor(Exec(cfg, s, run).log, fp) == Exec(cfg, t, OwnRun(owners, run, fp)).log
    decreases |run|
  {
    if run != [] {
      var a := run[0];
      SameViewStep(cfg, s, t, owners, a, fp, t0);
      TrackedStep(cfg, s, owners, a);
      hide SameView, Tracked, Apply;
      var owners' := OwnersAfter(owners, a);
      var own := OwnRun(owners, run, fp);
      if Mine(owners, a, fp) {
        assert own[0] == Unclaimed(a) && own[1..] == OwnRun(owners', run[1..], fp);
        SameViewRun(cfg, Apply(cfg, s, a), Apply(cfg, t, Unclaimed(a)), owners', run[1..], fp, a.now);
      } else {
        assert own == OwnRun(owners', run[1..], fp);
        SameViewRun(cfg, Apply(cfg, s, a), t, owners', run[1..], fp, a.now);
      }
    }
  }

  /** Everything the server does for one certificate is what it would do if that certificate
      were its only client, sent no claims, and no bucket were ever cleaned up. */
  lemma ServedAlone(cfg: Config, run: seq<Action>, fp: string)
    requires Timely(run)
    ensures LogFor(Exec(cfg, START, run).log, fp) == Exec(cfg, START, OwnRun(map[], run, fp)).log
  {
    SameViewRun(cfg, START, START, map[], run, fp, 0);
  }

  /** Non-interference: two runs in which the certificate's own requests agree up to claims
      end with the same decisions for it, whatever anyone else does in either. */
  lemma NonInterference(cfg: Config, run: seq<Action>, other: seq<Action>, fp: string)
    requires Timely(run) && Timely(other)
    requires OwnRun(map[], run, fp) == OwnRun(map[], other, fp)
    ensures LogFor(Exec(cfg, START, run).log, fp) == LogFor(Exec(cfg, START, other).log, fp)
  {
    ServedAlone(cfg, run, fp);
    ServedAlone(cfg, other, fp);
  }

  /** The run with other `x-client-id` headers. */
  function Reclaimed(run: seq<Action>, header: Rid -> Option<HeaderValue>): (other: seq<Action>)
    ensures |other| == |run| && forall i :: 0 <= i < |run| ==> other[i].now == run[i].now
  {
    if run == [] then []
    else
      var a := run[0];
      [if a.Arrive? then a.(request := a.request.(clientId := header(a.rid))) else a] + Reclaimed(run[1..], header)
  }

  lemma {:induction false} OwnRunIgnoresClaims(
      owners: Owners, run: seq<Action>, header: Rid -> Option<HeaderValue>, fp: string)
    ensures OwnRun(owners, Reclaimed(run, header), fp) == OwnRun(owners, run, fp)
    decreases |run|
  {
    if run != [] {
      var a, b := run[0], Reclaimed(run, header)[0];
      if a.Arrive? { ClaimsDoNotIdentify(a.request, header(a.rid)); }
      assert OwnersAfter(owners, b) == OwnersAfter(owners, a) && Unclaimed(b) == Unclaimed(a);
      assert Reclaimed(run, header)[1..] == Reclaimed(run[1..], header);
      OwnRunIgnoresClaims(OwnersAfter(owners, a), run[1..], header, fp);
    }
  }

  /** Whatever `x-client-id` values are sent, every certificate is treated the same. */
  lemma ClaimsAreInvisible(cfg: Config, run: seq<Action>, header: Rid -> Option<HeaderValue>, fp: string)
    requires Timely(run)
    ensures LogFor(Exec(cfg, START, Reclaimed(run, header)).log, fp) == LogFor(Exec(cfg, START, run).log, fp)
  {
    OwnRunIgnoresClaims(map[], run, header, fp);
    NonInterference(cfg, Reclaimed(run, header), run, fp);
  }

  // ---- the certificates behind the leaf ----

  function RechainedRun(run: seq<Action>, chain: Rid -> seq<string>): (other: seq<Action>)
    ensures |other| == |run|
  {
    seq(|run|, i requires 0 <= i < |run| =>
      if run[i].Arrive? then run[i].(request := Rechained(run[i].request, chain(run[i].rid))) else run[i])
  }

  predicate SameButChain(x: Stage, y: Stage) {
    match x
    case Waiting(id, r, at) =>
      y.Waiting? && y.id == id && y.at == at && y.request == r.(peerCerts := y.request.peerCerts)
    case Cleared(id, r) => y.Cleared? && y.id == id && y.request == r.(peerCerts := y.request.peerCerts)
    case Ended(_) => y == x
  }

  ghost predicate SameButChains(s: State, t: State) {
    && s.buckets == t.buckets && s.log == t.log && s.stages.Keys == t.stages.Keys
    && forall rid :: rid in s.stages ==> SameButChain(s.stages[rid], t.stages[rid])
  }

  lemma GateIgnoresChain(r: Request, q: Request, max: nat)
    requires q == r.(peerCerts := q.peerCerts)
    ensures Gate(q, max) == Gate(r, max)
  {
    hide ReadBody, RuneMethodForPath, IsWellFormedRune;
  }

  /** Both servers make the same entry and go on to stages that differ in the chain alone. */
  lemma MoveChains(s: State, t: State, rid: Rid, x: Stage, y: Stage, e: Entry)
    requires SameButChains(s, t) && SameButChain(x, y)
    ensures SameButChains(Move(s, rid, x, e), Move(t, rid, y, e))
  {
  }

  lemma ChainArrive(cfg: Config, s: State, t: State, rid: Rid, r: Request, now: nat, rest: seq<string>)
    requires SameButChains(s, t)
    ensures SameButChains(ApplyArrive(cfg, s, rid, r, now), ApplyArrive(cfg, t, rid, Rechained(r, rest), now))
  {
    LeafIdentifies(r, rest);
    var q := Rechained(r, rest);
    assert q == r.(peerCerts := q.peerCerts);
    hide Identify, Rechained;
    if rid !in s.stages && Identify(r).None? {
      MoveChains(s, t, rid, Ended(None), Ended(None), Anonymous(rid));
    } else if rid !in s.stages {
      var id := Identify(r).value;
      var (m, ok) := Spend(s.buckets, ADMIT, id.fingerprint, now, cfg.admission);
      var out := Ended(Some(id.fingerprint));
      hide Spend;
      MoveChains(s.(buckets := m), t.(buckets := m), rid, if ok then Waiting(id, r, now) else out,
                 if ok then Waiting(id, q, now) else out, Admission(rid, id.fingerprint, now, ok));
    }
  }

  lemma ChainAuthorize(cfg: Config, s: State, t: State, rid: Rid, now: nat)
    requires SameButChains(s, t)
    ensures SameButChains(ApplyAuthorize(cfg, s, rid, now), ApplyAuthorize(cfg, t, rid, now))
  {
    hide Gate;
    if rid in s.stages && s.stages[rid].Waiting? {
      var Waiting(id, r, at) := s.stages[rid];
      var q := t.stages[rid].request;
      GateIgnoresChain(r, q, cfg.maxBody);
      var g, out := Gate(r, cfg.maxBody), Ended(Some(id.fingerprint));
      if g.Err? {
        MoveChains(s, t, rid, out, out, Rejected(rid, id.fingerprint, g.error));
      } else {
        MoveChains(s, t, rid, if r.runeValid then Cleared(id, r) else out, if r.runeValid then Cleared(id, q) else out,
                   RuneCheck(rid, id.fingerprint, at, g.value, now, r.runeValid));
      }
    }
  }

  lemma ChainMeter(s: State, t: State, rid: Rid, now: nat)
    requires SameButChains(s, t)
    ensures SameButChains(ApplyMeter(s, rid, now), ApplyMeter(t, rid, now))
  {
    hide BudgetOf;
    if rid in s.stages && s.stages[rid].Cleared? {
      var Cleared(id, r) := s.stages[rid];
      var out, budget := Ended(Some(id.fingerprint)), BudgetOf(r.path);
      assert t.stages[rid].request.path == r.path;
      if budget.None? {
        MoveChains(s, t, rid, out, out, Unmetered(rid, id.fingerprint, r.path));
      } else {
        var (name, p) := budget.value;
        var (m, ok) := Spend(s.buckets, name, id.fingerprint, now, p);
        hide Spend;
        MoveChains(s.(buckets := m), t.(buckets := m), rid, out, out,
                   Quota(rid, id.fingerprint, name, r.path, now, ok));
      }
    }
  }

  lemma ChainStep(cfg: Config, s: State, t: State, a: Action, rest: seq<string>)
    requires SameButChains(s, t)
    ensures var b := if a.Arrive? then a.(request := Rechained(a.request, rest)) else a;
            SameButChains(Apply(cfg, s, a), Apply(cfg, t, b))
  {
    hide ApplyArrive, ApplyAuthorize, ApplyMeter, Rechained, Retain;
    match a
    case Arrive(rid, r, now) => ChainArrive(cfg, s, t, rid, r, now, rest);
    case Authorize(rid, now) => ChainAuthorize(cfg, s, t, rid, now);
    case Meter(rid, now) => ChainMeter(s, t, rid, now);
    case Clean(_) =>
  }

  lemma {:induction false} ChainRun(cfg: Config, s: State, t: State, run: seq<Action>, chain: Rid -> seq<string>)
    requires SameButChains(s, t)
    ensures Exec(cfg, s, run).log == Exec(cfg, t, RechainedRun(run, chain)).log
    decreases |run|
  {
    if run != [] {
      var other := RechainedRun(run, chain);
      assert other[1..] == RechainedRun(run[1..], chain);
      ChainStep(cfg, s, t, run[0], if run[0].Arrive? then chain(run[0].rid) else []);
      hide Apply, SameButChains, Rechained;
      ChainRun(cfg, Apply(cfg, s, run[0]), Apply(cfg, t, other[0]), run[1..], chain);
    }
  }

  /** Other certificates behind the leaves of a whole run change nothing that is done. */
  lemma OnlyLeavesMatter(cfg: Config, run: seq<Action>, chain: Rid -> seq<string>)
    ensures Exec(cfg, START, RechainedRun(run, chain)).log == Exec(cfg, START, run).log
  {
    ChainRun(cfg, START, START, run, chain);
  }
}
