/** `gcob init` (`src/cli/provision.rs`): pinning over two CA files, the force, dry-run and
    confirmation gates, and one publication of eight files into three directories. */
module Provisioning {
  import opened Wrappers
  import opened AtomicPublish
  import opened PublishProofs
  import opened CertRenewal
  import opened RepeatedTargets
  import Decimal

  datatype InitRequest = InitRequest(haproxyDir: string, apiDir: string, force: bool, rotateCa: bool, dryRun: bool)

  /** What a run meets; `server`, `client` and `apiClient` are the new leaves. */
  datatype InitEnv = InitEnv(
    ca: string, server: string, client: string, apiClient: string,
    haproxyStage: string, apiStage: string, stamp: nat,
    checksPass: bool, lockFree: bool, stagingOk: bool, modesOk: bool, confirmed: bool)

  function CaDir(req: InitRequest): string {
    req.haproxyDir + "/ca-certs"
  }

  /** `None` is a refusal. */
  predicate PinAllows(installed: Pin, ca: string, rotateCa: bool) {
    match installed
    case Absent => true
    case Unreadable => false
    case Pinned(fp) => fp == ca || rotateCa
  }

  const TARGET_NAMES := [
    "ca.pem", "cert_server_concat.pem", "cert_client_concat.pem",
    "ca.pem", "server.pem", "server-key.pem", "client.pem", "client-key.pem"]

  const STAGED_NAMES := [
    "ca.pem", "server_concat.pem", "client_concat.pem",
    "ca.pem", "server.pem", "server-key.pem", "client.pem", "client-key.pem"]

  function TargetDir(req: InitRequest, i: nat): string {
    if i == 0 then CaDir(req) else if i < 3 then req.haproxyDir else req.apiDir
  }

  function StageDir(env: InitEnv, i: nat): string {
    if i < 3 then env.haproxyStage else env.apiStage
  }

  function InitPlan(req: InitRequest, env: InitEnv): seq<PlannedFile> {
    seq(8, i requires 0 <= i < 8 =>
      PlannedFile(Path(StageDir(env, i), STAGED_NAMES[i]), Path(TargetDir(req, i), TARGET_NAMES[i])))
  }

  /** `concat_cert_key`. */
  function Concat(cert: Content, key: Content): Content {
    if cert.Certificate? && key.Key? then cert.(key := Some(key.leaf)) else Blob("")
  }

  function StagedFor(env: InitEnv, i: nat): Content {
    if i == 0 || i == 3 then Cert(env.ca, env.ca)
    else if i == 1 then Concat(Cert(env.server, env.ca), Key(env.server))
    else if i == 2 then Concat(Cert(env.client, env.ca), Key(env.client))
    else if i == 4 then Cert(env.server, env.ca)
    else if i == 5 then Key(env.server)
    else if i == 6 then Cert(env.apiClient, env.ca)
    else Key(env.apiClient)
  }

  /** The files of the plan are written into the staging directories; the loose leaf and
      key files that the concatenations are made from are staged beside them. */
  function StageUpTo(d: Disk, env: InitEnv, n: nat): Disk
    requires n <= 8
  {
    if n == 0 then
      var d1 := Write(d, Path(env.haproxyStage, "server.pem"), Cert(env.server, env.ca));
      var d2 := Write(d1, Path(env.haproxyStage, "server-key.pem"), Key(env.server));
      var d3 := Write(d2, Path(env.haproxyStage, "client.pem"), Cert(env.client, env.ca));
      Write(d3, Path(env.haproxyStage, "client-key.pem"), Key(env.client))
    else Write(StageUpTo(d, env, n - 1), Path(StageDir(env, n - 1), STAGED_NAMES[n - 1]), StagedFor(env, n - 1))
  }

  function Unstage(d: Disk, env: InitEnv): Disk {
    WithoutDir(WithoutDir(d, env.apiStage), env.haproxyStage)
  }

  predicate SomeTargetExists(d: Disk, plan: seq<PlannedFile>) {
    exists i :: 0 <= i < |plan| && plan[i].target in d.files
  }

  function Provision(d: Disk, fails: nat -> bool, req: InitRequest, env: InitEnv): (Disk, RenewOutcome) {
    if !env.checksPass
       || !PinAllows(InstalledCa(d.files, CaDir(req)), env.ca, req.rotateCa)
       || !PinAllows(InstalledCa(d.files, req.apiDir), env.ca, req.rotateCa)
       || !env.lockFree
    then (d, Refused)
    else
      var staged := StageUpTo(d, env, 8);
      var plan := InitPlan(req, env);
      if !env.stagingOk || !env.modesOk then (Unstage(staged, env), Refused)
      else if !req.force && SomeTargetExists(staged, plan) then (Unstage(staged, env), Refused)
      else if req.dryRun then (Unstage(staged, env), DryRun)
      else if !env.confirmed then (Unstage(staged, env), Refused)
      else
        var (r, o) := Publish(staged, fails, plan, env.stamp);
        (Unstage(r, env), match o case Published(b) => Done(b) case RolledBack(clean) => Failed(clean))
  }

  /** `provision_server`. */
  method ProvisionServer(fs: FileSystem, req: InitRequest, env: InitEnv) returns (r: Result<bool, IoError>)
    modifies fs
    ensures var (d, o) := Provision(old(fs.View()), fs.fails, req, env);
            && fs.View() == d
            && (r.Ok? <==> o.DryRun? || o.Done?) && (r.Ok? ==> r.value == o.DryRun?)
  {
    if !env.checksPass {
      return Err(IoError);
    }
    var existing := [CaPath(CaDir(req)), CaPath(req.apiDir)];
    for i := 0 to 2
      invariant fs.View() == old(fs.View())
      invariant i > 0 ==> PinAllows(InstalledCa(fs.files, CaDir(req)), env.ca, req.rotateCa)
      invariant i > 1 ==> PinAllows(InstalledCa(fs.files, req.apiDir), env.ca, req.rotateCa)
    {
      if existing[i] in fs.files {
        if !fs.files[existing[i]].Certificate? {
          return Err(IoError);
        }
        if fs.files[existing[i]].fingerprint != env.ca && !req.rotateCa {
          return Err(IoError);
        }
      }
    }
    if !env.lockFree {
      return Err(IoError);
    }
    fs.WriteFile(Path(env.haproxyStage, "server.pem"), Cert(env.server, env.ca));
    fs.WriteFile(Path(env.haproxyStage, "server-key.pem"), Key(env.server));
    fs.WriteFile(Path(env.haproxyStage, "client.pem"), Cert(env.client, env.ca));
    fs.WriteFile(Path(env.haproxyStage, "client-key.pem"), Key(env.client));
    for i := 0 to 8
      invariant fs.View() == StageUpTo(old(fs.View()), env, i)
    {
      fs.WriteFile(Path(StageDir(env, i), STAGED_NAMES[i]), StagedFor(env, i));
    }
    var plan := InitPlan(req, env);
    if !env.stagingOk || !env.modesOk {
      DropStages(fs, env);
      return Err(IoError);
    }
    if !req.force {
      var taken := false;
      for i := 0 to |plan|
        invariant fs.View() == StageUpTo(old(fs.View()), env, 8)
        invariant taken <==> exists k :: 0 <= k < i && plan[k].target in fs.files
      {
        taken := taken || plan[i].target in fs.files;
      }
      if taken {
        DropStages(fs, env);
        return Err(IoError);
      }
    }
    if req.dryRun {
      DropStages(fs, env);
      return Ok(true);
    }
    if !env.confirmed {
      DropStages(fs, env);
      return Err(IoError);
    }
    var published := PublishFiles(fs, plan, env.stamp);
    DropStages(fs, env);
    return if published.Ok? then Ok(false) else Err(IoError);
  }

  method DropStages(fs: FileSystem, env: InitEnv)
    modifies fs
    ensures fs.View() == Unstage(old(fs.View()), env)
  {
    fs.RemoveDir(env.apiStage);
    fs.RemoveDir(env.haproxyStage);
  }

  // ---- the plan ----

  /** Two staging directories that are not among the target directories. */
  ghost predicate RoomyInit(req: InitRequest, env: InitEnv) {
    && env.haproxyStage != env.apiStage
    && (forall i: nat :: i < 8 ==> TargetDir(req, i) != env.haproxyStage && TargetDir(req, i) != env.apiStage)
  }

  /** No backup path of this second is taken. */
  ghost predicate InitBackupsFree(files: Files, req: InitRequest, env: InitEnv) {
    (forall i: nat :: i < 8 ==> BackupPath(Path(TargetDir(req, i), TARGET_NAMES[i]), env.stamp) !in files)
  }

  function InitJob(d: Disk, req: InitRequest, env: InitEnv): Job {
    Job(StageUpTo(d, env, 8).files, InitPlan(req, env), env.stamp)
  }

  predicate InStage(p: Path, env: InitEnv) {
    p.dir == env.haproxyStage || p.dir == env.apiStage
  }

  lemma {:induction false} StageTouchesStages(d: Disk, env: InitEnv, n: nat, p: Path)
    requires n <= 8 && !InStage(p, env)
    ensures p in StageUpTo(d, env, n).files <==> p in d.files
    ensures p in d.files ==> StageUpTo(d, env, n).files[p] == d.files[p]
    decreases n
  {
    if n > 0 { StageTouchesStages(d, env, n - 1, p); }
  }

  lemma NamesDiffer(i: nat, j: nat)
    requires i < j < 8
    ensures TARGET_NAMES[i] != TARGET_NAMES[j] || (i == 0 && j == 3)
    ensures STAGED_NAMES[i] != STAGED_NAMES[j] || (i == 0 && j == 3)
  {
  }

  lemma TargetNameEnds(i: nat)
    requires i < 8
    ensures TARGET_NAMES[i] != [] && TARGET_NAMES[i][|TARGET_NAMES[i]| - 1] == 'm'
  {
  }

  lemma {:induction false} StageHolds(d: Disk, env: InitEnv, n: nat, i: nat)
    requires i < n <= 8 && env.haproxyStage != env.apiStage
    ensures var p := Path(StageDir(env, i), STAGED_NAMES[i]);
            p in StageUpTo(d, env, n).files && StageUpTo(d, env, n).files[p] == StagedFor(env, i)
    decreases n
  {
    if i < n - 1 {
      StageHolds(d, env, n - 1, i);
      assert STAGED_NAMES[i] != STAGED_NAMES[n - 1] || (i == 0 && n - 1 == 3);
    }
  }

  // ---- one run ----

  ghost predicate SameOutsideStages(before: Files, after: Files, env: InitEnv) {
    forall p: Path :: !InStage(p, env) ==> (p in after <==> p in before) && (p in after ==> after[p] == before[p])
  }

  /** Both CA files hold the validated CA, and every published leaf was issued by it. */
  ghost predicate Provisioned(files: Files, req: InitRequest, ca: string) {
    && InstalledCa(files, CaDir(req)) == Pinned(ca) && InstalledCa(files, req.apiDir) == Pinned(ca)
    && IssuedBy(files, Path(req.haproxyDir, "cert_server_concat.pem"), ca)
    && IssuedBy(files, Path(req.haproxyDir, "cert_client_concat.pem"), ca)
    && IssuedBy(files, Path(req.apiDir, "server.pem"), ca)
    && IssuedBy(files, Path(req.apiDir, "client.pem"), ca)
  }

  // -- whatever the directories hold, and even if two of them are one --

  lemma InitIsStagedApart(d: Disk, req: InitRequest, env: InitEnv)
    requires RoomyInit(req, env)
    ensures StagedApart(InitJob(d, req, env))
  {
    hide StageUpTo;
    var job := InitJob(d, req, env);
    forall i: nat, j: nat | i < |job.plan| && j < |job.plan| ensures StagedPairApart(job, i, j) {
      if i < j { NamesDiffer(i, j); }
      TargetNameEnds(j);
      BackupNameEnds(job.T(i), env.stamp);
      assert job.T(i) == Path(TargetDir(req, i), TARGET_NAMES[i]);
    }
  }

  lemma OnlyTheCaIsRepeated(d: Disk, req: InitRequest, env: InitEnv, j: nat)
    requires j < 8 && (j == 0 ==> CaDir(req) != req.apiDir)
    ensures LastForTarget(InitJob(d, req, env), j)
  {
    var job := InitJob(d, req, env);
    hide StageUpTo;
    forall i: nat | j < i < 8 ensures job.T(i) != job.T(j) {
      NamesDiffer(j, i);
    }
  }

  lemma PublishedFile(d: Disk, fails: nat -> bool, req: InitRequest, env: InitEnv, j: nat)
    requires RoomyInit(req, env) && j < 8
    requires Publish(StageUpTo(d, env, 8), fails, InitPlan(req, env), env.stamp).1.Published?
    ensures var f := Unstage(Publish(StageUpTo(d, env, 8), fails, InitPlan(req, env), env.stamp).0, env).files;
            var p := Path(TargetDir(req, j), TARGET_NAMES[j]);
            p in f && f[p] == StagedFor(env, j)
  {
    var job := InitJob(d, req, env);
    InitIsStagedApart(d, req, env);
    var last := if j == 0 && CaDir(req) == req.apiDir then 3 else j;
    OnlyTheCaIsRepeated(d, req, env, last);
    StageHolds(d, env, 8, last);
    hide StageUpTo, StagedApart, LastForTarget, Publish;
    LastFileWins(job, StageUpTo(d, env, 8), fails, last);
    assert job.T(last) == Path(TargetDir(req, last), TARGET_NAMES[last]);
    assert job.S(last) == Path(StageDir(env, last), STAGED_NAMES[last]);
  }

  lemma PublishedEverywhere(d: Disk, fails: nat -> bool, req: InitRequest, env: InitEnv)
    requires RoomyInit(req, env)
    requires Publish(StageUpTo(d, env, 8), fails, InitPlan(req, env), env.stamp).1.Published?
    ensures Provisioned(Unstage(Publish(StageUpTo(d, env, 8), fails, InitPlan(req, env), env.stamp).0, env).files,
                        req, env.ca)
  {
    PublishedFile(d, fails, req, env, 0);
    PublishedFile(d, fails, req, env, 1);
    PublishedFile(d, fails, req, env, 2);
    PublishedFile(d, fails, req, env, 3);
    PublishedFile(d, fails, req, env, 4);
    PublishedFile(d, fails, req, env, 6);
    hide Publish, StageUpTo, Unstage;
  }

  /** A completed run, whatever the directories held before and even when the API directory
      is the HAProxy CA directory: both CA files hold the validated CA, the published leaves
      were issued by it, a different CA was replaced only under `rotate_ca`, and no existing
      target was touched without `force`. */
  lemma CompletedRunIsPinned(d: Disk, fails: nat -> bool, req: InitRequest, env: InitEnv)
    requires RoomyInit(req, env) && Provision(d, fails, req, env).1.Done?
    ensures Provisioned(Provision(d, fails, req, env).0.files, req, env.ca) && env.confirmed && !req.dryRun
    ensures forall dir :: dir in [CaDir(req), req.apiDir] ==>
              InstalledCa(d.files, dir) == Absent || InstalledCa(d.files, dir) == Pinned(env.ca) ||
              (req.rotateCa && InstalledCa(d.files, dir).Pinned?)
    ensures !req.force ==> !SomeTargetExists(d, InitPlan(req, env))
  {
    var (r, o) := Publish(StageUpTo(d, env, 8), fails, InitPlan(req, env), env.stamp);
    assert o.Published? && Provision(d, fails, req, env).0 == Unstage(r, env);
    PublishedEverywhere(d, fails, req, env);
    ForceGate(d, req, env);
    hide Publish, StageUpTo, Unstage, Provisioned, InitPlan, SomeTargetExists, InstalledCa;
  }

  /** Which leaf and which key lie where. */
  ghost predicate InitPublished(files: Files, req: InitRequest, env: InitEnv) {
    var api, haproxy := req.apiDir, req.haproxyDir;
    && At(files, Path(haproxy + "/ca-certs", "ca.pem")) == Some(Certificate(env.ca, env.ca, None))
    && At(files, Path(haproxy, "cert_server_concat.pem")) == Some(Certificate(env.server, env.ca, Some(env.server)))
    && At(files, Path(haproxy, "cert_client_concat.pem")) == Some(Certificate(env.client, env.ca, Some(env.client)))
    && At(files, Path(api, "ca.pem")) == Some(Certificate(env.ca, env.ca, None))
    && At(files, Path(api, "server.pem")) == Some(Certificate(env.server, env.ca, None))
    && At(files, Path(api, "server-key.pem")) == Some(Key(env.server))
    && At(files, Path(api, "client.pem")) == Some(Certificate(env.apiClient, env.ca, None))
    && At(files, Path(api, "client-key.pem")) == Some(Key(env.apiClient))
  }

  /** After a completed run every target holds its own certificate or key: HAProxy's server
      and client certificates each with their key, the API's server certificate the same one
      as HAProxy's, and the API's client certificate one of its own. */
  lemma CompletedRunPublishes(d: Disk, fails: nat -> bool, req: InitRequest, env: InitEnv)
    requires RoomyInit(req, env) && Provision(d, fails, req, env).1.Done?
    ensures InitPublished(Provision(d, fails, req, env).0.files, req, env)
  {
    var (r, o) := Publish(StageUpTo(d, env, 8), fails, InitPlan(req, env), env.stamp);
    assert o.Published? && Provision(d, fails, req, env).0 == Unstage(r, env);
    PublishedFile(d, fails, req, env, 0);
    PublishedFile(d, fails, req, env, 1);
    PublishedFile(d, fails, req, env, 2);
    PublishedFile(d, fails, req, env, 3);
    PublishedFile(d, fails, req, env, 4);
    PublishedFile(d, fails, req, env, 5);
    PublishedFile(d, fails, req, env, 6);
    PublishedFile(d, fails, req, env, 7);
    hide Publish, StageUpTo, Unstage, Provision;
  }

  /** No run leaves its staged files behind, the private keys among them. */
  lemma NothingStaysStaged(d: Disk, fails: nat -> bool, req: InitRequest, env: InitEnv)
    requires forall p: Path :: p in d.files ==> !InStage(p, env)
    ensures forall p: Path :: p in Provision(d, fails, req, env).0.files ==> !InStage(p, env)
  {
    hide StageUpTo, Publish, InitPlan, InstalledCa, SomeTargetExists;
  }

  /** The CA that may be in the way: there is none, or it is this one, or it may be rotated. */
  predicate CaMayStay(files: Files, p: Path, ca: string, rotateCa: bool) {
    match At(files, p)
    case None => true
    case Some(c) => c.Certificate? && (c.fingerprint == ca || rotateCa)
  }

  /** Everything that a run asks for before it publishes or says what it would publish. */
  ghost predicate MaySetUp(d: Disk, req: InitRequest, env: InitEnv) {
    && env.checksPass && env.lockFree && env.stagingOk && env.modesOk
    && CaMayStay(d.files, Path(req.haproxyDir + "/ca-certs", "ca.pem"), env.ca, req.rotateCa)
    && CaMayStay(d.files, Path(req.apiDir, "ca.pem"), env.ca, req.rotateCa)
    && (req.force || forall j: nat :: j < 8 ==> Path(TargetDir(req, j), TARGET_NAMES[j]) !in d.files)
  }

  lemma ForceGateIs(d: Disk, req: InitRequest, env: InitEnv)
    requires RoomyInit(req, env)
    ensures SomeTargetExists(StageUpTo(d, env, 8), InitPlan(req, env)) <==>
            exists j: nat :: j < 8 && Path(TargetDir(req, j), TARGET_NAMES[j]) in d.files
  {
    ForceGate(d, req, env);
    var plan := InitPlan(req, env);
    assert forall j: nat :: j < 8 ==> plan[j].target == Path(TargetDir(req, j), TARGET_NAMES[j]);
    if j: nat :| j < 8 && Path(TargetDir(req, j), TARGET_NAMES[j]) in d.files {
      assert plan[j].target in d.files;
    }
    hide StageUpTo, InitPlan;
  }

  /** When a run goes ahead: exactly when nothing stands in its way and it is confirmed, and
      without faults it then completes; a dry run gets as far as the confirmation. */
  lemma SetupGoesAheadExactly(d: Disk, fails: nat -> bool, req: InitRequest, env: InitEnv)
    requires RoomyInit(req, env)
    ensures var o := Provision(d, fails, req, env).1;
            && (o.DryRun? <==> MaySetUp(d, req, env) && req.dryRun)
            && (o.Done? || o.Failed? <==> MaySetUp(d, req, env) && !req.dryRun && env.confirmed)
            && ((forall c: nat :: !fails(c)) ==> !o.Failed?)
  {
    ForceGateIs(d, req, env);
    InitIsStagedApart(d, req, env);
    StagedAll(d, req, env);
    if forall c: nat :: !fails(c) { FaultFreeCompletes(InitJob(d, req, env), StageUpTo(d, env, 8), fails); }
    hide StageUpTo, Publish, SomeTargetExists, StagedApart, InitPlan, RoomyInit;
  }

  lemma UnstagedInit(d: Disk, env: InitEnv)
    ensures SameOutsideStages(d.files, Unstage(StageUpTo(d, env, 8), env).files, env)
  {
    forall p: Path | !InStage(p, env)
      ensures p in StageUpTo(d, env, 8).files <==> p in d.files
      ensures p in d.files ==> StageUpTo(d, env, 8).files[p] == d.files[p]
    {
      StageTouchesStages(d, env, 8, p);
    }
  }

  lemma StagedAll(d: Disk, req: InitRequest, env: InitEnv)
    requires RoomyInit(req, env)
    ensures InitJob(d, req, env).StagedExist()
  {
    var job := InitJob(d, req, env);
    forall j: nat | j < 8 ensures job.S(j) in job.before && job.before[job.S(j)] == StagedFor(env, j) {
      StageHolds(d, env, 8, j);
    }
  }

  lemma SameAsStagedOn(d: Disk, req: InitRequest, env: InitEnv, r: Disk, p: Path)
    requires !InStage(p, env)
    ensures InitJob(d, req, env).Same(r.files, p) <==> At(Unstage(r, env).files, p) == At(d.files, p)
  {
    StageTouchesStages(d, env, 8, p);
    hide StageUpTo;
  }

  lemma PathsOfInit(d: Disk, req: InitRequest, env: InitEnv, j: nat)
    requires RoomyInit(req, env) && j < 8
    ensures var job := InitJob(d, req, env); !InStage(job.T(j), env) && InStage(job.S(j), env)
  {
    var job := InitJob(d, req, env);
    hide StageUpTo;
    assert job.T(j) == Path(TargetDir(req, j), TARGET_NAMES[j]);
    assert job.S(j) == Path(StageDir(env, j), STAGED_NAMES[j]);
  }

  /** Outside the staging directories a rollback has left everything as it was exactly if it
      has left the targets so, and the files that are not part of the plan. */
  lemma TargetsDecide(d: Disk, req: InitRequest, env: InitEnv, r: Disk, m: nat)
    requires RoomyInit(req, env)
    requires var job := InitJob(d, req, env); Undone(job, r.files, m) && OthersSame(job, r.files)
    ensures SameOutsideStages(d.files, Unstage(r, env).files, env) <==>
            TargetsAsBefore(InitJob(d, req, env), r.files) && BystandersSame(InitJob(d, req, env), r.files)
  {
    var job := InitJob(d, req, env);
    forall j: nat | j < 8 ensures !InStage(job.T(j), env) && InStage(job.S(j), env) {
      PathsOfInit(d, req, env, j);
    }
    forall p: Path | !InStage(p, env)
      ensures job.Same(r.files, p) <==> At(Unstage(r, env).files, p) == At(d.files, p)
    {
      SameAsStagedOn(d, req, env, r, p);
    }
    hide StageUpTo, Undone, RoomyInit, InStage, Unstage, InitPlan;
    if TargetsAsBefore(job, r.files) && BystandersSame(job, r.files) {
      forall p: Path | !InStage(p, env) ensures job.Same(r.files, p) {
        UndonePath(job, r.files, m, p);
      }
    }
    if SameOutsideStages(d.files, Unstage(r, env).files, env) {
      forall p: Path | p in job.before && (forall j: nat :: j < |job.plan| ==> p != job.T(j) && p != job.S(j))
        ensures job.Same(r.files, p)
      {
        if InStage(p, env) { BackupsOutsideStages(d, req, env, p); }
      }
    }
  }

  /** A path that is not staged, after a rollback that has kept targets and other files. */
  lemma UndonePath(job: Job, files: Files, m: nat, p: Path)
    requires Undone(job, files, m) && OthersSame(job, files)
    requires TargetsAsBefore(job, files) && BystandersSame(job, files)
    requires forall j: nat :: j < |job.plan| ==> p != job.S(j)
    ensures job.Same(files, p)
  {
    hide BackedUp, AtBackup;
    if job.Touched(p) && p !in job.before {
      var j: nat :| j < |job.plan| && (p == job.T(j) || p == job.S(j) || p == job.B(j));
      assert UndoneFile(job, files, m, j);
    }
  }

  lemma BackupsOutsideStages(d: Disk, req: InitRequest, env: InitEnv, p: Path)
    requires RoomyInit(req, env) && InStage(p, env)
    requires var job := InitJob(d, req, env); forall j: nat :: j < |job.plan| ==> p != job.T(j) && p != job.S(j)
    ensures !InitJob(d, req, env).Touched(p)
  {
    var job := InitJob(d, req, env);
    hide StageUpTo;
    forall j: nat | j < |job.plan| ensures p != job.B(j) {
      assert job.T(j) == Path(TargetDir(req, j), TARGET_NAMES[j]);
    }
  }

  lemma RolledBackInit(d: Disk, fails: nat -> bool, req: InitRequest, env: InitEnv)
    requires RoomyInit(req, env) && InitBackupsFree(d.files, req, env)
    ensures var (r, o) := Publish(StageUpTo(d, env, 8), fails, InitPlan(req, env), env.stamp);
            o.RolledBack? && o.clean ==> SameOutsideStages(d.files, Unstage(r, env).files, env)
  {
    var job, staged := InitJob(d, req, env), StageUpTo(d, env, 8);
    InitIsStagedApart(d, req, env);
    PublicationEnds(job, staged, fails);
    OtherPathsNeverChange(job, staged, fails);
    var (r, o) := Publish(staged, fails, job.plan, env.stamp);
    var m := Reached(staged, fails, job.plan, env.stamp, 0);
    if o.RolledBack? && o.clean {
      CleanRollbackRestoresTargets(job, staged, fails);
      forall j: nat | j < 8 ensures job.B(j) !in job.before {
        InitBackup(d, req, env, j);
      }
      hide StageUpTo, Publish, Reached, InitBackupsFree;
      BystandersExactly(job, r.files, m);
      TargetsDecide(d, req, env, r, m);
    }
  }

  lemma InitBackup(d: Disk, req: InitRequest, env: InitEnv, j: nat)
    requires RoomyInit(req, env) && j < 8
    ensures var job := InitJob(d, req, env);
            && job.B(j) == BackupPath(Path(TargetDir(req, j), TARGET_NAMES[j]), env.stamp)
            && (job.B(j) in job.before <==> job.B(j) in d.files)
  {
    var job := InitJob(d, req, env);
    assert job.T(j) == Path(TargetDir(req, j), TARGET_NAMES[j]);
    StageTouchesStages(d, env, 8, job.B(j));
  }

  lemma ForceGate(d: Disk, req: InitRequest, env: InitEnv)
    requires RoomyInit(req, env)
    ensures SomeTargetExists(StageUpTo(d, env, 8), InitPlan(req, env)) <==> SomeTargetExists(d, InitPlan(req, env))
  {
    forall i | 0 <= i < 8
      ensures InitPlan(req, env)[i].target in StageUpTo(d, env, 8).files <==> InitPlan(req, env)[i].target in d.files
    {
      StageTouchesStages(d, env, 8, InitPlan(req, env)[i].target);
    }
  }

  /** Outside the staging directories a run changes a path as its publication does, if it
      gets that far. */
  lemma SetupAt(d: Disk, fails: nat -> bool, req: InitRequest, env: InitEnv, p: Path)
    requires !InStage(p, env)
    ensures var (r, o) := Provision(d, fails, req, env);
            if o.Done? || o.Failed? then
              var (q, out) := Publish(StageUpTo(d, env, 8), fails, InitPlan(req, env), env.stamp);
              && At(r.files, p) == At(q.files, p) && (o.Done? <==> out.Published?)
              && (o.Failed? ==> out == RolledBack(o.clean))
            else At(r.files, p) == At(d.files, p)
  {
    StageTouchesStages(d, env, 8, p);
    hide StageUpTo, Publish, InstalledCa, SomeTargetExists;
  }

  lemma InitPaths(d: Disk, req: InitRequest, env: InitEnv, j: nat)
    requires j < |InitJob(d, req, env).plan|
    ensures var job := InitJob(d, req, env);
            && j < 8 && job.T(j) == Path(TargetDir(req, j), TARGET_NAMES[j]) && InStage(job.S(j), env)
  {
    hide StageUpTo;
  }

  lemma TargetBackAfterSetup(d: Disk, fails: nat -> bool, req: InitRequest, env: InitEnv, j: nat)
    requires RoomyInit(req, env) && j < 8
    requires var o := Provision(d, fails, req, env).1; !o.Done? && o != Failed(false)
    ensures var p := Path(TargetDir(req, j), TARGET_NAMES[j]);
            At(Provision(d, fails, req, env).0.files, p) == At(d.files, p)
  {
    var job, p := InitJob(d, req, env), Path(TargetDir(req, j), TARGET_NAMES[j]);
    assert !InStage(p, env);
    SetupAt(d, fails, req, env, p);
    StageTouchesStages(d, env, 8, p);
    InitIsStagedApart(d, req, env);
    InitPaths(d, req, env, j);
    hide StageUpTo, Publish, Provision, StagedApart, RoomyInit, InStage;
    if Provision(d, fails, req, env).1.Failed? {
      CleanRollbackRestoresTargets(job, StageUpTo(d, env, 8), fails);
      assert job.Same(Publish(StageUpTo(d, env, 8), fails, job.plan, env.stamp).0.files, job.T(j));
    }
  }

  /** All targets are as they were. */
  ghost predicate SameTargets(before: Files, after: Files, req: InitRequest) {
    forall j: nat :: j < 8 ==>
      At(after, Path(TargetDir(req, j), TARGET_NAMES[j])) == At(before, Path(TargetDir(req, j), TARGET_NAMES[j]))
  }

  lemma SameTargetsAfterSetup(d: Disk, fails: nat -> bool, req: InitRequest, env: InitEnv)
    requires RoomyInit(req, env)
    requires var o := Provision(d, fails, req, env).1; !o.Done? && o != Failed(false)
    ensures SameTargets(d.files, Provision(d, fails, req, env).0.files, req)
  {
    hide Provision, RoomyInit;
    forall j: nat | j < 8
      ensures var p := Path(TargetDir(req, j), TARGET_NAMES[j]);
              At(Provision(d, fails, req, env).0.files, p) == At(d.files, p)
    {
      TargetBackAfterSetup(d, fails, req, env, j);
    }
  }

  /** One provisioning run.  When it completes, both CA files hold the validated CA and the
      published leaves were issued by it; a different CA was replaced only under
      `rotate_ca`, and no existing target was touched without `force`.  A run that is
      refused, dry or not confirmed leaves everything as it was, and one that rolls back
      without a failing step all targets, and everything else if no backup path was taken. */
  lemma ProvisioningIsPinned(d: Disk, fails: nat -> bool, req: InitRequest, env: InitEnv)
    requires RoomyInit(req, env)
    ensures var (r, o) := Provision(d, fails, req, env);
            && (o.Done? ==>
                  && Provisioned(r.files, req, env.ca) && env.confirmed && !req.dryRun
                  && (forall dir :: dir in [CaDir(req), req.apiDir] ==>
                        InstalledCa(d.files, dir) == Absent || InstalledCa(d.files, dir) == Pinned(env.ca) ||
                        (req.rotateCa && InstalledCa(d.files, dir).Pinned?))
                  && (!req.force ==> !SomeTargetExists(d, InitPlan(req, env))))
            && (o.Refused? || o.DryRun? ==> SameOutsideStages(d.files, r.files, env))
            && (o == Failed(true) ==>
                  && SameTargets(d.files, r.files, req)
                  && (InitBackupsFree(d.files, req, env) ==> SameOutsideStages(d.files, r.files, env)))
  {
    var o := Provision(d, fails, req, env).1;
    if o.Done? {
      CompletedRunIsPinned(d, fails, req, env);
    } else if o.Failed? {
      if o.clean { SameTargetsAfterSetup(d, fails, req, env); }
      if InitBackupsFree(d.files, req, env) { RolledBackInit(d, fails, req, env); }
      hide InitBackupsFree, Publish, StageUpTo, Unstage, InitPlan, SomeTargetExists, InstalledCa, SameTargets;
      var (r, out) := Publish(StageUpTo(d, env, 8), fails, InitPlan(req, env), env.stamp);
      assert Provision(d, fails, req, env).0 == Unstage(r, env);
    } else {
      UnstagedInit(d, env);
      hide InitBackupsFree, Publish, StageUpTo, Unstage, InitPlan, SomeTargetExists, InstalledCa;
    }
  }

  // ---- single faults ----

  /** Nothing keeps the run from publishing. */
  ghost predicate Publishes(d: Disk, req: InitRequest, env: InitEnv) {
    MaySetUp(d, req, env) && !req.dryRun && env.confirmed
  }

  /** The CA directories are two, or the CA that would be installed is there already. */
  predicate CaIsSafe(d: Disk, req: InitRequest, env: InitEnv) {
    CaDir(req) != req.apiDir || At(d.files, CaPath(req.apiDir)) == Some(Cert(env.ca, env.ca))
  }

  lemma TargetBefore(d: Disk, req: InitRequest, env: InitEnv, j: nat)
    requires RoomyInit(req, env) && j < 8
    ensures var job := InitJob(d, req, env);
            && At(job.before, job.T(j)) == At(d.files, Path(TargetDir(req, j), TARGET_NAMES[j]))
            && At(job.before, job.S(j)) == Some(StagedFor(env, j))
  {
    var job := InitJob(d, req, env);
    assert job.T(j) == Path(TargetDir(req, j), TARGET_NAMES[j]);
    StageTouchesStages(d, env, 8, job.T(j));
    StageHolds(d, env, 8, j);
  }

  lemma OnlyCaNames(i: nat)
    requires i < 8
    ensures TARGET_NAMES[i] == "ca.pem" <==> i == 0 || i == 3
  {
  }

  /** The backup paths that a run may use are free: those of targets that are there, and that
      of the CA file when the plan names it twice. */
  ghost predicate UsedPathsFree(d: Disk, req: InitRequest, env: InitEnv) {
    forall j: nat :: j < 8 && UsesBackup(d, req, j) ==>
      BackupPath(Path(TargetDir(req, j), TARGET_NAMES[j]), env.stamp) !in d.files
  }

  predicate UsesBackup(d: Disk, req: InitRequest, j: nat)
    requires j < 8
  {
    Path(TargetDir(req, j), TARGET_NAMES[j]) in d.files || (j == 3 && CaDir(req) == req.apiDir)
  }

  /** Only the CA file can be named twice, by files 0 and 3. */
  lemma NamedTwice(d: Disk, req: InitRequest, env: InitEnv, i: nat, j: nat)
    requires i < j < 8
    ensures var job := InitJob(d, req, env); job.T(i) == job.T(j) <==> i == 0 && j == 3 && CaDir(req) == req.apiDir
  {
    var job := InitJob(d, req, env);
    NamesDiffer(i, j);
    hide StageUpTo;
    assert job.T(i) == Path(TargetDir(req, i), TARGET_NAMES[i]) && job.T(j) == Path(TargetDir(req, j), TARGET_NAMES[j]);
  }

  lemma SafeMeansNothingNew(d: Disk, req: InitRequest, env: InitEnv)
    requires RoomyInit(req, env)
    ensures RepeatsFindOriginal(InitJob(d, req, env)) <==> CaIsSafe(d, req, env)
  {
    var job := InitJob(d, req, env);
    TargetBefore(d, req, env, 0);
    NamedTwice(d, req, env, 0, 3);
    hide StageUpTo, InitPlan;
    forall i: nat, j: nat | i < j < |job.plan| && job.T(i) == job.T(j) ensures i == 0 && j == 3 {
      NamedTwice(d, req, env, i, j);
    }
  }

  lemma UsedPaths(d: Disk, req: InitRequest, env: InitEnv, j: nat)
    requires RoomyInit(req, env) && j < 8
    ensures var job := InitJob(d, req, env); job.Existed(j) || Named(job, job.T(j), j) <==> UsesBackup(d, req, j)
  {
    var job := InitJob(d, req, env);
    TargetBefore(d, req, env, j);
    hide StageUpTo, InitPlan;
    assert job.T(j) in job.before <==> Path(TargetDir(req, j), TARGET_NAMES[j]) in d.files;
    if i: nat :| i < j && job.T(i) == job.T(j) { NamedTwice(d, req, env, i, j); }
    if j == 3 { NamedTwice(d, req, env, 0, j); }
  }

  lemma FreeMeansFree(d: Disk, req: InitRequest, env: InitEnv)
    requires RoomyInit(req, env)
    ensures UsedBackupsFree(InitJob(d, req, env)) <==> UsedPathsFree(d, req, env)
  {
    var job := InitJob(d, req, env);
    forall j: nat | j < 8
      ensures job.Existed(j) || Named(job, job.T(j), j) <==> UsesBackup(d, req, j)
      ensures job.B(j) == BackupPath(Path(TargetDir(req, j), TARGET_NAMES[j]), env.stamp)
      ensures job.B(j) in job.before <==> job.B(j) in d.files
    {
      UsedPaths(d, req, env, j);
      InitBackup(d, req, env, j);
    }
    hide StageUpTo, UsesBackup, Named, BackupPath;
  }

  /** The failing run in terms of its publication. */
  lemma FailedSetup(d: Disk, fails: nat -> bool, req: InitRequest, env: InitEnv)
    requires RoomyInit(req, env) && Publishes(d, req, env) && AtMostOneFault(fails)
    ensures var job, staged := InitJob(d, req, env), StageUpTo(d, env, 8);
            var f := Publish(staged, fails, job.plan, env.stamp).0.files;
            var (r, o) := Provision(d, fails, req, env);
            && (o.Failed? <==> UndoneByOneFault(job, staged, fails))
            && (o.Failed? ==> (SameOutsideStages(d.files, r.files, env) <==>
                  TargetsAsBefore(job, f) && BystandersSame(job, f)))
  {
    var job, staged := InitJob(d, req, env), StageUpTo(d, env, 8);
    InitIsStagedApart(d, req, env);
    StagedAll(d, req, env);
    PublicationEnds(job, staged, fails);
    OtherPathsNeverChange(job, staged, fails);
    SetupGoesAheadExactly(d, fails, req, env);
    var (r, o) := Publish(staged, fails, job.plan, env.stamp);
    assert Provision(d, fails, req, env).0 == Unstage(r, env);
    if o.RolledBack? {
      hide StageUpTo, Publish, Reached, Provision, Publishes;
      TargetsDecide(d, req, env, r, Reached(staged, fails, job.plan, env.stamp, 0));
    }
  }

  /** When both CA files are one, file 3 backs up what file 0 has put there. */
  lemma SharedCa(d: Disk, req: InitRequest, env: InitEnv)
    requires RoomyInit(req, env) && CaDir(req) == req.apiDir
    ensures var job := InitJob(d, req, env);
            && job.T(3) == CaPath(req.apiDir)
            && AtTarget(job, job.T(3), 3) == Some(Cert(env.ca, env.ca))
            && BackedUp(job, job.T(3), 4) && AtBackup(job, job.T(3), 4) == Some(Cert(env.ca, env.ca))
  {
    var job := InitJob(d, req, env);
    TargetBefore(d, req, env, 0);
    hide StageUpTo;
    assert job.T(0) == job.T(3) == CaPath(req.apiDir);
    assert job.T(1).name == "cert_server_concat.pem" && job.T(2).name == "cert_client_concat.pem";
    assert AtTarget(job, job.T(3), 1) == Some(Cert(env.ca, env.ca));
    assert AtTarget(job, job.T(3), 2) == AtTarget(job, job.T(3), 1);
  }

  /** One fault, and a run that fails leaves the new CA installed where it was not. */
  lemma FailedRunReplacesTheCa(d: Disk, req: InitRequest, env: InitEnv) returns (fails: nat -> bool)
    requires RoomyInit(req, env) && Publishes(d, req, env) && !CaIsSafe(d, req, env)
    ensures AtMostOneFault(fails)
    ensures var (r, o) := Provision(d, fails, req, env);
            && o.Failed? && !SameOutsideStages(d.files, r.files, env)
            && At(r.files, CaPath(req.apiDir)) == Some(Cert(env.ca, env.ca)) != At(d.files, CaPath(req.apiDir))
  {
    var job, staged := InitJob(d, req, env), StageUpTo(d, env, 8);
    InitIsStagedApart(d, req, env);
    StagedAll(d, req, env);
    SharedCa(d, req, env);
    TargetBefore(d, req, env, 3);
    var at := PutClock(job, DiskAfter(staged, job.plan, env.stamp, 3), 3);
    fails := (c: nat) => c == at;
    FaultInFile(job, staged, fails, 3);
    PublicationEnds(job, staged, fails);
    SetupGoesAheadExactly(d, fails, req, env);
    var (r, o) := Publish(staged, fails, job.plan, env.stamp);
    assert Provision(d, fails, req, env).0 == Unstage(r, env) && Provision(d, fails, req, env).1.Failed?;
    hide StageUpTo, Publish, Reached, Provision, BackedUp, AtBackup, AtTarget;
    assert UndoneFile(job, r.files, 4, 3);
    assert !InStage(CaPath(req.apiDir), env) by { assert TargetDir(req, 3) == req.apiDir; }
    assert At(Unstage(r, env).files, CaPath(req.apiDir)) == At(r.files, CaPath(req.apiDir));
  }

  /** A run that a single fault makes fail leaves everything as it was, wherever the fault
      is, if and only if the CA files are two or hold the CA of the run already, and no
      backup path that the run may use is taken. */
  lemma SingleFaultsAreUndoneExactly(d: Disk, req: InitRequest, env: InitEnv)
    requires RoomyInit(req, env) && Publishes(d, req, env)
    ensures (forall fails: nat -> bool :: AtMostOneFault(fails) && Provision(d, fails, req, env).1.Failed? ==>
               SameOutsideStages(d.files, Provision(d, fails, req, env).0.files, env))
            <==> CaIsSafe(d, req, env) && UsedPathsFree(d, req, env)
  {
    var job, staged := InitJob(d, req, env), StageUpTo(d, env, 8);
    InitIsStagedApart(d, req, env);
    StagedAll(d, req, env);
    SingleFaultsKeepExactly(job, staged);
    SafeMeansNothingNew(d, req, env);
    FreeMeansFree(d, req, env);
    forall fails: nat -> bool | AtMostOneFault(fails)
      ensures var f := Publish(staged, fails, job.plan, env.stamp).0.files;
              && (Provision(d, fails, req, env).1.Failed? <==> UndoneByOneFault(job, staged, fails))
              && (UndoneByOneFault(job, staged, fails) ==>
                    (SameOutsideStages(d.files, Provision(d, fails, req, env).0.files, env) <==>
                      TargetsAsBefore(job, f) && BystandersSame(job, f)))
    {
      FailedSetup(d, fails, req, env);
    }
    hide StageUpTo, Publish, Provision, Publishes, RoomyInit, CaIsSafe, UsedPathsFree, SameOutsideStages;
    hide TargetsAsBefore, BystandersSame, RepeatsFindOriginal, UsedBackupsFree;
  }
}
