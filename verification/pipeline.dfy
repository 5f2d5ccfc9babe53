/** The path of a request through the server (`src/grpc/server.rs`): identity, pre-auth
    admission, rune check, method quota, handler. Admission and quota draw on one and the
    same limiter.

    A request takes three steps: the admission check and the quota check are atomic under
    the limiter's lock, the rune check is between them, and anything may happen in other
    requests meanwhile. */
module Pipeline {
  import opened Wrappers
  import opened AuthGate
  import opened RateLimiter

  datatype Config = Config(admission: Policy, maxBody: nat)

  type Rid = nat

  const ADMIT := "admit"

  /** The bucket of one budget of one certificate. */
  function KeyFor(name: string, fingerprint: string): string {
    name + ":" + fingerprint
  }

  /** What the server did, in order. A `RuneCheck` is one call of CLN's `check_rune`; the
      handler runs after a `Quota` that is `ok` and after an `Unmetered`. */
  datatype Entry =
    | Anonymous(rid: Rid)
    | Admission(rid: Rid, fingerprint: string, now: nat, ok: bool)
    | Rejected(rid: Rid, fingerprint: string, why: Refusal)
    | RuneCheck(rid: Rid, fingerprint: string, admittedAt: nat, name: string, now: nat, ok: bool)
    | Quota(rid: Rid, fingerprint: string, name: string, path: string, now: nat, ok: bool)
    | Unmetered(rid: Rid, fingerprint: string, path: string)

  datatype Stage =
    | Waiting(id: ClientIdentity, request: Request, at: nat)
    | Cleared(id: ClientIdentity, request: Request)
    | Ended(fingerprint: Option<string>)

  datatype State = State(buckets: map<string, Bucket>, stages: map<Rid, Stage>, log: seq<Entry>)

  datatype Action =
    | Arrive(rid: Rid, request: Request, now: nat)
    | Authorize(rid: Rid, now: nat)
    | Meter(rid: Rid, now: nat)
    | Clean(now: nat)

  const START := State(map[], map[], [])

  /** One check of the shared limiter. */
  function Spend(
      m: map<string, Bucket>, name: string, fingerprint: string, now: nat, p: Policy): (map<string, Bucket>, bool) {
    var key := KeyFor(name, fingerprint);
    var (b, ok) := CheckBucket(Get(m, key), now, p);
    (m[key := b], ok)
  }

  function Move(s: State, rid: Rid, stage: Stage, e: Entry): State {
    s.(stages := s.stages[rid := stage], log := s.log + [e])
  }

  /** The identity layer, then the admission layer. A handle names one request. */
  function ApplyArrive(cfg: Config, s: State, rid: Rid, r: Request, now: nat): State {
    if rid in s.stages then s
    else
      match Identify(r)
      case None => Move(s, rid, Ended(None), Anonymous(rid))
      case Some(id) =>
        var (m, ok) := Spend(s.buckets, ADMIT, id.fingerprint, now, cfg.admission);
        Move(s.(buckets := m), rid,
             if ok then Waiting(id, r, now) else Ended(Some(id.fingerprint)),
             Admission(rid, id.fingerprint, now, ok))
  }

  /** The auth layer. */
  function ApplyAuthorize(cfg: Config, s: State, rid: Rid, now: nat): State {
    if rid !in s.stages || !s.stages[rid].Waiting? then s
    else
      var Waiting(id, r, at) := s.stages[rid];
      match Gate(r, cfg.maxBody)
      case Err(why) => Move(s, rid, Ended(Some(id.fingerprint)), Rejected(rid, id.fingerprint, why))
      case Ok(name) =>
        Move(s, rid,
             if r.runeValid then Cleared(id, r) else Ended(Some(id.fingerprint)),
             RuneCheck(rid, id.fingerprint, at, name, now, r.runeValid))
  }

  /** The budget that a request for this path draws on, if any. */
  function BudgetOf(path: string): Option<(string, Policy)> {
    match RuneMethodForPath(path)
    case None => None
    case Some(name) =>
      match PolicyForMethod(name)
      case None => None
      case Some(p) => Some((name, p))
  }

  /** The rate-limit layer, then the handler. */
  function ApplyMeter(s: State, rid: Rid, now: nat): State {
    if rid !in s.stages || !s.stages[rid].Cleared? then s
    else
      var Cleared(id, r) := s.stages[rid];
      var done := Ended(Some(id.fingerprint));
      match BudgetOf(r.path)
      case None => Move(s, rid, done, Unmetered(rid, id.fingerprint, r.path))
      case Some((name, p)) =>
        var (m, ok) := Spend(s.buckets, name, id.fingerprint, now, p);
        Move(s.(buckets := m), rid, done, Quota(rid, id.fingerprint, name, r.path, now, ok))
  }

  function Apply(cfg: Config, s: State, a: Action): State {
    match a
    case Arrive(rid, r, now) => ApplyArrive(cfg, s, rid, r, now)
    case Authorize(rid, now) => ApplyAuthorize(cfg, s, rid, now)
    case Meter(rid, now) => ApplyMeter(s, rid, now)
    case Clean(now) => s.(buckets := Retain(s.buckets, now))
  }

  function Exec(cfg: Config, s: State, run: seq<Action>): State
    decreases |run|
  {
    if run == [] then s else Exec(cfg, Apply(cfg, s, run[0]), run[1..])
  }

  /** Checks read the clock under the limiter's lock, so times never go back. */
  ghost predicate Timely(run: seq<Action>) {
    forall i, j :: 0 <= i < j < |run| ==> run[i].now <= run[j].now
  }

  // ---- the layers as objects ----

  datatype Verdict = Forward | Exhausted | NoIdentity

  class AdmissionService {
    const fallback: InMemoryRateLimiter
    const policy: Policy

    constructor (fallback: InMemoryRateLimiter, policy: Policy)
      ensures this.fallback == fallback && this.policy == policy
    {
      this.fallback := fallback;
      this.policy := policy;
    }

    method Call(identity: Option<ClientIdentity>, now: nat) returns (v: Verdict)
      modifies fallback
      ensures identity.None? ==> v == NoIdentity && fallback.buckets == old(fallback.buckets)
      ensures identity.Some? ==>
        var (m, ok) := Spend(old(fallback.buckets), ADMIT, identity.value.fingerprint, now, policy);
        fallback.buckets == m && v == if ok then Forward else Exhausted
    {
      if identity.None? {
        return NoIdentity;
      }
      var key := "admit:" + identity.value.fingerprint;
      assert key == KeyFor(ADMIT, identity.value.fingerprint);
      var allowed := fallback.Check(key, policy, now);
      return if allowed then Forward else Exhausted;
    }
  }

  class RateLimitService {
    const fallback: InMemoryRateLimiter

    constructor (fallback: InMemoryRateLimiter)
      ensures this.fallback == fallback
    {
      this.fallback := fallback;
    }

    method Call(identity: Option<ClientIdentity>, path: string, now: nat) returns (v: Verdict)
      modifies fallback
      ensures BudgetOf(path).None? ==> v == Forward
      ensures BudgetOf(path).Some? && identity.None? ==> v == NoIdentity
      ensures BudgetOf(path).None? || identity.None? ==> fallback.buckets == old(fallback.buckets)
      ensures BudgetOf(path).Some? && identity.Some? ==>
        var (name, p) := BudgetOf(path).value;
        var (m, ok) := Spend(old(fallback.buckets), name, identity.value.fingerprint, now, p);
        fallback.buckets == m && v == if ok then Forward else Exhausted
    {
      var name := RuneMethodForPath(path);
      if name.None? {
        return Forward;
      }
      var policy := PolicyForMethod(name.value);
      if policy.None? {
        return Forward;
      }
      if identity.None? {
        return NoIdentity;
      }
      var key := name.value + ":" + identity.value.fingerprint;
      var allowed := fallback.Check(key, policy.value, now);
      return if allowed then Forward else Exhausted;
    }
  }

  /** The layers stacked as `serve` stacks them, around one limiter. */
  class Server {
    const cfg: Config
    const limiter: InMemoryRateLimiter
    const admission: AdmissionService
    const rateLimit: RateLimitService
    var stages: map<Rid, Stage>
    var log: seq<Entry>

    ghost predicate Valid() {
      admission.fallback == limiter && admission.policy == cfg.admission && rateLimit.fallback == limiter
    }

    ghost function View(): State
      reads this, limiter
    {
      State(limiter.buckets, stages, log)
    }

    constructor (cfg: Config)
      ensures Valid() && this.cfg == cfg && View() == START && fresh(limiter)
    {
      this.cfg := cfg;
      var shared := new InMemoryRateLimiter();
      limiter := shared;
      admission := new AdmissionService(shared, cfg.admission);
      rateLimit := new RateLimitService(shared);
      stages := map[];
      log := [];
    }

    method Record(rid: Rid, stage: Stage, e: Entry)
      modifies this
      ensures stages == old(stages)[rid := stage] && log == old(log) + [e]
    {
      stages := stages[rid := stage];
      log := log + [e];
    }

    method Receive(rid: Rid, r: Request, now: nat)
      requires Valid() && rid !in stages
      modifies this, limiter
      ensures View() == ApplyArrive(cfg, old(View()), rid, r, now)
    {
      var identity := Identify(r);
      if identity.None? {
        Record(rid, Ended(None), Anonymous(rid));
        return;
      }
      var id := identity.value;
      var v := admission.Call(identity, now);
      Record(rid, if v == Forward then Waiting(id, r, now) else Ended(Some(id.fingerprint)),
             Admission(rid, id.fingerprint, now, v == Forward));
    }

    method CheckRune(rid: Rid, now: nat)
      requires Valid() && rid in stages && stages[rid].Waiting?
      modifies this
      ensures View() == ApplyAuthorize(cfg, old(View()), rid, now)
    {
      var Waiting(id, r, at) := stages[rid];
      var g := CheckRequest(r, cfg.maxBody);
      match g {
        case Err(why) => Record(rid, Ended(Some(id.fingerprint)), Rejected(rid, id.fingerprint, why));
        case Ok(name) =>
          Record(rid, if r.runeValid then Cleared(id, r) else Ended(Some(id.fingerprint)),
                 RuneCheck(rid, id.fingerprint, at, name, now, r.runeValid));
      }
    }

    method Serve(rid: Rid, now: nat)
      requires Valid() && rid in stages && stages[rid].Cleared?
      modifies this, limiter
      ensures View() == ApplyMeter(old(View()), rid, now)
    {
      var Cleared(id, r) := stages[rid];
      var v := rateLimit.Call(Some(id), r.path, now);
      var budget := BudgetOf(r.path);
      Record(rid, Ended(Some(id.fingerprint)),
             if budget.None? then Unmetered(rid, id.fingerprint, r.path)
             else Quota(rid, id.fingerprint, budget.value.0, r.path, now, v == Forward));
    }

    method Cleanup(now: nat)
      requires Valid()
      modifies limiter
      ensures View() == Apply(cfg, old(View()), Clean(now))
    {
      limiter.Cleanup(now);
    }
  }
}
