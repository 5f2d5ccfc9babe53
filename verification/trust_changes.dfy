/** Any sequence of `gcob init` and `certs renew` runs, on one certificate directory and on
    others, one run after the other: who may change the installed CA
    (`src/cli/certs.rs`, `src/cli/provision.rs`), and what the leaves beside it match. */
module TrustChanges {
  import opened Wrappers
  import opened AtomicPublish
  import opened PublishProofs
  import opened RepeatedTargets
  import opened CertRenewal
  import opened Provisioning

  datatype Step =
    | Renewal(req: RenewRequest, env: Env, fails: nat -> bool)
    | Setup(init: InitRequest, initEnv: InitEnv, fails: nat -> bool)

  function Perform(d: Disk, step: Step): (Disk, RenewOutcome) {
    match step
    case Renewal(req, env, fails) => Renew(d, fails, req, env)
    case Setup(req, env, fails) => Provision(d, fails, req, env)
  }

  function After(d: Disk, steps: seq<Step>): Disk
    decreases |steps|
  {
    if steps == [] then d else After(Perform(d, steps[0]).0, steps[1..])
  }

  /** The CA that a run has validated. */
  function CaOf(step: Step): string {
    match step
    case Renewal(_, env, _) => env.ca
    case Setup(_, env, _) => env.ca
  }

  /** The run's temporary directories are neither this one nor one of its own targets. */
  ghost predicate Aside(step: Step, dir: string) {
    match step
    case Renewal(_, env, _) => env.stage != dir
    case Setup(req, env, _) => RoomyInit(req, env) && env.haproxyStage != dir && env.apiStage != dir
  }

  /** The run installs its CA in this directory, and was told to rotate the one it found, or
      found none where it may install a first one. */
  predicate Told(d: Disk, step: Step, dir: string) {
    var found := InstalledCa(d.files, dir);
    match step
    case Renewal(req, _, _) =>
      req.certDir == dir && ((req.rotateCa && found.Pinned?) || (req.initCa && found.Absent?))
    case Setup(req, env, _) =>
      dir in {CaDir(req), req.apiDir} && ((req.rotateCa && found.Pinned?) || found == Pinned(env.ca) || found.Absent?)
  }

  // ---- the CA ----

  lemma UntouchedBySetup(d: Disk, fails: nat -> bool, req: InitRequest, env: InitEnv, p: Path)
    requires !InStage(p, env) && p.name != [] && p.name[|p.name| - 1] == 'm'
    requires forall j: nat :: j < 8 ==> p != Path(TargetDir(req, j), TARGET_NAMES[j])
    ensures At(Provision(d, fails, req, env).0.files, p) == At(d.files, p)
  {
    var job := InitJob(d, req, env);
    SetupAt(d, fails, req, env, p);
    StageTouchesStages(d, env, 8, p);
    OtherPathsNeverChange(job, StageUpTo(d, env, 8), fails);
    hide StageUpTo, Publish, Provision, InitPlan;
    forall j: nat | j < |job.plan| ensures p != job.T(j) && p != job.S(j) && p != job.B(j) {
      InitPaths(d, req, env, j);
      BackupNameEnds(job.T(j), env.stamp);
    }
    assert !job.Touched(p);
  }

  lemma StagedCa(d: Disk, req: InitRequest, env: InitEnv, i: nat, p: Path)
    requires RoomyInit(req, env) && i < |InitJob(d, req, env).plan| && p.name == "ca.pem"
    requires InitJob(d, req, env).T(i) == p
    ensures At(InitJob(d, req, env).before, InitJob(d, req, env).S(i)) == Some(Cert(env.ca, env.ca))
  {
    InitPaths(d, req, env, i);
    OnlyCaNames(i);
    TargetBefore(d, req, env, i);
  }

  /** Even if several operations of a set-up run fail, its rollback among them, no foreign CA
      appears. */
  lemma CaAfterSetup(d: Disk, fails: nat -> bool, req: InitRequest, env: InitEnv, dir: string)
    requires RoomyInit(req, env) && dir in {CaDir(req), req.apiDir}
    ensures InstalledCa(Provision(d, fails, req, env).0.files, dir)
              in {InstalledCa(d.files, dir), Pinned(env.ca), Absent}
  {
    var job, p := InitJob(d, req, env), CaPath(dir);
    var j := if dir == req.apiDir then 3 else 0;
    InitPaths(d, req, env, j);
    assert job.T(j) == p && !InStage(p, env);
    SetupAt(d, fails, req, env, p);
    StageTouchesStages(d, env, 8, p);
    InitIsStagedApart(d, req, env);
    TargetsHoldNothingForeign(job, StageUpTo(d, env, 8), fails);
    var f := Publish(StageUpTo(d, env, 8), fails, job.plan, env.stamp).0.files;
    hide StageUpTo, Publish, Provision, StagedApart, RoomyInit, InStage, InitPlan;
    assert Ours(job, p, At(f, p));
    if FromPlan(job, p, At(f, p)) {
      var i: nat :| i < |job.plan| && job.T(i) == p && At(f, p) == At(job.before, job.S(i));
      StagedCa(d, req, env, i, p);
    }
  }

  lemma SetupGates(d: Disk, fails: nat -> bool, req: InitRequest, env: InitEnv, dir: string)
    requires dir in {CaDir(req), req.apiDir}
    requires var o := Provision(d, fails, req, env).1; o.Done? || o.Failed?
    ensures PinAllows(InstalledCa(d.files, dir), env.ca, req.rotateCa)
  {
    hide StageUpTo, Publish, InstalledCa, SomeTargetExists;
  }

  lemma SetupKeepsCa(d: Disk, step: Step, dir: string)
    requires step.Setup? && Aside(step, dir)
    ensures var (r, o) := Perform(d, step); var after := InstalledCa(r.files, dir);
            after == InstalledCa(d.files, dir) || (Told(d, step, dir) && NewOrLost(after, CaOf(step), o))
  {
    var Setup(req, env, fails) := step;
    var (r, o) := Perform(d, step);
    if dir in {CaDir(req), req.apiDir} {
      var j := if dir == req.apiDir then 3 else 0;
      assert Path(TargetDir(req, j), TARGET_NAMES[j]) == CaPath(dir);
      if o.Done? {
        SetupGates(d, fails, req, env, dir);
        CompletedRunIsPinned(d, fails, req, env);
        assert InstalledCa(r.files, dir) == Pinned(env.ca);
      } else if o == Failed(false) {
        SetupGates(d, fails, req, env, dir);
        CaAfterSetup(d, fails, req, env, dir);
      } else {
        TargetBackAfterSetup(d, fails, req, env, j);
      }
    } else {
      forall j: nat | j < 8 ensures CaPath(dir) != Path(TargetDir(req, j), TARGET_NAMES[j]) {
        OnlyCaNames(j);
      }
      UntouchedBySetup(d, fails, req, env, CaPath(dir));
    }
  }

  lemma RenewalKeepsCa(d: Disk, step: Step, dir: string)
    requires step.Renewal? && Aside(step, dir)
    ensures var (r, o) := Perform(d, step); var after := InstalledCa(r.files, dir);
            after == InstalledCa(d.files, dir) || (Told(d, step, dir) && NewOrLost(after, CaOf(step), o))
  {
    var Renewal(req, env, fails) := step;
    var decision := InstallDecision(InstalledCa(d.files, req.certDir), env.ca, req.rotateCa, req.initCa);
    if decision.Some? { LockedKeepsCa(d, fails, req, env, decision.value, dir); }
    hide RenewLocked;
  }

  lemma OneStepKeepsCa(d: Disk, step: Step, dir: string)
    requires Aside(step, dir)
    ensures var (r, o) := Perform(d, step); var after := InstalledCa(r.files, dir);
            after == InstalledCa(d.files, dir) || (Told(d, step, dir) && NewOrLost(after, CaOf(step), o))
  {
    hide Perform, Told, InstalledCa, Aside;
    if step.Setup? { SetupKeepsCa(d, step, dir); } else { RenewalKeepsCa(d, step, dir); }
  }

  lemma {:induction false} AfterStep(d: Disk, steps: seq<Step>, i: nat)
    requires i < |steps|
    ensures After(d, steps[..i + 1]) == Perform(After(d, steps[..i]), steps[i]).0
    decreases i
  {
    hide Perform;
    if i == 0 {
      assert steps[..0] == [] && steps[..1][1..] == [];
    } else {
      assert steps[..i][1..] == steps[1..][..i - 1] && steps[..i + 1][1..] == steps[1..][..i];
      AfterStep(Perform(d, steps[0]).0, steps[1..], i - 1);
    }
  }

  /** In any sequence of runs, on this directory and on others, completed, refused, rolled
      back or half rolled back under any number of faults, every single change of the CA
      installed here is the work of a run that was told to make it: it puts that run's CA in
      place, or loses the CA because its rollback has failed. */
  lemma TrustChangesOnlyOnRequest(d: Disk, steps: seq<Step>, i: nat, dir: string)
    requires i < |steps| && Aside(steps[i], dir)
    ensures var before := After(d, steps[..i]); var after := InstalledCa(After(d, steps[..i + 1]).files, dir);
            after != InstalledCa(before.files, dir) ==>
              Told(before, steps[i], dir) && NewOrLost(after, CaOf(steps[i]), Perform(before, steps[i]).1)
  {
    AfterStep(d, steps, i);
    OneStepKeepsCa(After(d, steps[..i]), steps[i], dir);
  }

  ghost predicate Installs(d: Disk, steps: seq<Step>, i: nat, dir: string, ca: string)
    requires i < |steps|
  {
    Told(After(d, steps[..i]), steps[i], dir) && CaOf(steps[i]) == ca
  }

  /** So no sequence of runs ends with a CA that was not there at the start and that no run
      was told to install. */
  lemma {:induction false} NoForeignCa(d: Disk, steps: seq<Step>, dir: string, ca: string)
    requires forall i: nat :: i < |steps| ==> Aside(steps[i], dir)
    requires InstalledCa(After(d, steps).files, dir) == Pinned(ca)
    ensures InstalledCa(d.files, dir) == Pinned(ca) || exists i: nat :: i < |steps| && Installs(d, steps, i, dir, ca)
    decreases |steps|
  {
    if steps != [] {
      hide Perform, Told, InstalledCa, Aside;
      var n := |steps| - 1;
      var init := steps[..n];
      assert steps[..n + 1] == steps;
      TrustChangesOnlyOnRequest(d, steps, n, dir);
      if InstalledCa(After(d, init).files, dir) == Pinned(ca) {
        NoForeignCa(d, init, dir, ca);
        if i: nat :| i < |init| && Installs(d, init, i, dir, ca) {
          assert init[..i] == steps[..i] && init[i] == steps[i];
          assert Installs(d, steps, i, dir, ca);
        }
      } else {
        assert Installs(d, steps, n, dir, ca);
      }
    }
  }

  // ---- the leaves ----

  /** The run publishes a CA or leaves in this directory. */
  predicate On(step: Step, dir: string) {
    match step
    case Renewal(req, _, _) => req.certDir == dir
    case Setup(req, _, _) => dir in {CaDir(req), req.apiDir}
  }

  /** A run on this directory is followed by the next only when its rollback, if any, has
      succeeded, and no set-up run uses the directory for HAProxy's CA alone. */
  ghost predicate OrderlyStep(d: Disk, step: Step, dir: string) {
    && Aside(step, dir)
    && (On(step, dir) ==> Perform(d, step).1 != Failed(false))
    && (step.Setup? && CaDir(step.init) == dir ==> step.init.apiDir == dir)
  }

  ghost predicate Orderly(d: Disk, steps: seq<Step>, dir: string)
    decreases |steps|
  {
    steps == [] || (OrderlyStep(d, steps[0], dir) && Orderly(Perform(d, steps[0]).0, steps[1..], dir))
  }

  ghost predicate SameLeaves(before: Files, after: Files, dir: string) {
    && At(after, CaPath(dir)) == At(before, CaPath(dir))
    && At(after, Path(dir, "server.pem")) == At(before, Path(dir, "server.pem"))
    && At(after, Path(dir, "client.pem")) == At(before, Path(dir, "client.pem"))
  }

  lemma SameLeavesMatch(before: Files, after: Files, dir: string)
    requires SameLeaves(before, after, dir)
    ensures LeavesMatchCa(after, dir) == LeavesMatchCa(before, dir)
  {
  }

  lemma UntouchedByRenewal(d: Disk, step: Step, p: Path)
    requires step.Renewal? && p.dir != step.env.stage && p.dir != step.req.certDir
    ensures At(Perform(d, step).0.files, p) == At(d.files, p)
  {
    var Renewal(req, env, fails) := step;
    StagedContent(d, env);
    var decision := InstallDecision(InstalledCa(d.files, req.certDir), env.ca, req.rotateCa, req.initCa);
    if decision.Some? {
      var job := StagedJob(d, req, env, decision.value);
      OtherPathsNeverChange(job, Staged(d, env), fails);
      hide Staged, Publish, PlanFor, InstalledCa;
      forall j: nat | j < |job.plan| ensures p != job.T(j) && p != job.S(j) && p != job.B(j) {
        PathsOfRenewal(d, req, env, decision.value, 0);
        PathsOfRenewal(d, req, env, decision.value, j);
      }
      assert !job.Touched(p);
    }
  }

  lemma RenewalLeaves(d: Disk, step: Step, dir: string)
    requires step.Renewal? && OrderlyStep(d, step, dir) && !(On(step, dir) && Perform(d, step).1.Done?)
    ensures SameLeaves(d.files, Perform(d, step).0.files, dir)
  {
    var Renewal(req, env, fails) := step;
    if req.certDir != dir {
      UntouchedByRenewal(d, step, CaPath(dir));
      UntouchedByRenewal(d, step, Path(dir, "server.pem"));
      UntouchedByRenewal(d, step, Path(dir, "client.pem"));
    } else {
      RenewalIsPinned(d, fails, req, env);
      var (r, o) := Renew(d, fails, req, env);
      hide Renew, BackupsFree;
      if o == Failed(true) {
        assert Names(true)[0] == "server.pem" && Names(true)[2] == "client.pem" && Names(true)[4] == "ca.pem";
        assert SameCertificates(d.files, r.files, dir);
      }
    }
  }

  lemma SetupLeaves(d: Disk, step: Step, dir: string)
    requires step.Setup? && OrderlyStep(d, step, dir) && !(On(step, dir) && Perform(d, step).1.Done?)
    ensures SameLeaves(d.files, Perform(d, step).0.files, dir)
  {
    var Setup(req, env, fails) := step;
    if req.apiDir == dir {
      TargetBackAfterSetup(d, fails, req, env, 3);
      TargetBackAfterSetup(d, fails, req, env, 4);
      TargetBackAfterSetup(d, fails, req, env, 6);
    } else {
      forall j: nat, name | j < 8 && name in {"ca.pem", "server.pem", "client.pem"}
        ensures Path(dir, name) != Path(TargetDir(req, j), TARGET_NAMES[j])
      {
        ApiNames(req, j, name);
      }
      UntouchedBySetup(d, fails, req, env, CaPath(dir));
      UntouchedBySetup(d, fails, req, env, Path(dir, "server.pem"));
      UntouchedBySetup(d, fails, req, env, Path(dir, "client.pem"));
    }
  }

  lemma ApiNames(req: InitRequest, j: nat, name: string)
    requires j < 8 && name in {"ca.pem", "server.pem", "client.pem"}
    ensures TARGET_NAMES[j] == name ==> TargetDir(req, j) in {CaDir(req), req.apiDir}
  {
  }

  lemma OneStepLeaves(d: Disk, step: Step, dir: string)
    requires OrderlyStep(d, step, dir)
    ensures (On(step, dir) && Perform(d, step).1.Done?) || LeavesMatchCa(d.files, dir) ==>
              LeavesMatchCa(Perform(d, step).0.files, dir)
  {
    var r := Perform(d, step).0.files;
    if On(step, dir) && Perform(d, step).1.Done? {
      if step.Renewal? {
        RenewalIsPinned(d, step.fails, step.req, step.env);
      } else {
        CompletedRunIsPinned(d, step.fails, step.init, step.initEnv);
      }
      hide Renew, Provision, InstalledCa;
    } else {
      hide Renew, Provision, OrderlyStep, LeavesMatchCa, SameLeaves;
      if step.Renewal? { RenewalLeaves(d, step, dir); } else { SetupLeaves(d, step, dir); }
      SameLeavesMatch(d.files, r, dir);
    }
  }

  ghost predicate Completes(d: Disk, steps: seq<Step>, i: nat, dir: string)
    requires i < |steps|
  {
    On(steps[i], dir) && Perform(After(d, steps[..i]), steps[i]).1.Done?
  }

  /** From the first completed run on this directory on, or from the start, the installed
      leaves match the installed CA, whatever the directories held and whatever seconds the
      runs fell into. */
  lemma {:induction false} LeavesFollowTheCa(d: Disk, steps: seq<Step>, dir: string)
    requires Orderly(d, steps, dir)
    requires LeavesMatchCa(d.files, dir) || exists i: nat :: i < |steps| && Completes(d, steps, i, dir)
    ensures LeavesMatchCa(After(d, steps).files, dir)
    decreases |steps|
  {
    if steps != [] {
      hide LeavesMatchCa, Perform, OrderlyStep, On;
      var r, rest := Perform(d, steps[0]).0, steps[1..];
      OneStepLeaves(d, steps[0], dir);
      if !LeavesMatchCa(r.files, dir) {
        var i: nat :| i < |steps| && Completes(d, steps, i, dir);
        assert steps[..0] == [];
        if i > 0 {
          assert steps[..i][1..] == rest[..i - 1] && steps[i] == rest[i - 1];
          assert Completes(r, rest, i - 1, dir);
        }
      }
      LeavesFollowTheCa(r, rest, dir);
    }
  }
}
