/** `certs renew` (`src/cli/certs.rs`): the CA pinning decision, the plan and its
    publication.  Issuing and verifying certificates is outside the model: the validated
    CA is its fingerprint, and a leaf is a certificate that names its issuer. */
module CertRenewal {
  import opened Wrappers
  import opened AtomicPublish
  import opened PublishProofs
  import opened RepeatedTargets
  import Decimal

  datatype RenewRequest = RenewRequest(certDir: string, rotateCa: bool, initCa: bool, dryRun: bool)

  /** What a run meets: the validated CA and the new leaves, the staging directory, the
      time stamp, and whether the checks before pinning, the lock, the staging with its
      postconditions, and the owner and mode changes succeed. */
  datatype Env = Env(
    ca: string, server: string, client: string, stage: string, stamp: nat,
    checksPass: bool, lockFree: bool, stagingOk: bool, modesOk: bool)

  datatype RenewOutcome = Refused | DryRun | Done(backups: seq<Path>) | Failed(clean: bool)

  datatype Pin = Absent | Unreadable | Pinned(fingerprint: string)

  function CaPath(dir: string): Path { Path(dir, "ca.pem") }

  function InstalledCa(files: Files, dir: string): Pin {
    if CaPath(dir) !in files then Absent
    else if files[CaPath(dir)].Certificate? then Pinned(files[CaPath(dir)].fingerprint)
    else Unreadable
  }

  /** `None` is a refusal; otherwise whether the CA file is part of the plan. */
  function InstallDecision(installed: Pin, ca: string, rotateCa: bool, initCa: bool): Option<bool> {
    match installed
    case Absent => if initCa then Some(true) else None
    case Unreadable => None
    case Pinned(fp) => if fp == ca then Some(false) else if rotateCa then Some(true) else None
  }

  const LEAF_NAMES := ["server.pem", "server-key.pem", "client.pem", "client-key.pem"]

  function Names(installCa: bool): seq<string> {
    if installCa then LEAF_NAMES + ["ca.pem"] else LEAF_NAMES
  }

  function PlanFor(certDir: string, stage: string, names: seq<string>): seq<PlannedFile> {
    seq(|names|, i requires 0 <= i < |names| => PlannedFile(Path(stage, names[i]), Path(certDir, names[i])))
  }

  function Staged(d: Disk, env: Env): Disk {
    var d1 := Write(d, Path(env.stage, "server.pem"), Cert(env.server, env.ca));
    var d2 := Write(d1, Path(env.stage, "server-key.pem"), Key(env.server));
    var d3 := Write(d2, Path(env.stage, "client.pem"), Cert(env.client, env.ca));
    var d4 := Write(d3, Path(env.stage, "client-key.pem"), Key(env.client));
    Write(d4, CaPath(env.stage), Cert(env.ca, env.ca))
  }

  /** The part of a run under the lock, when the pinning decision has been taken. */
  function RenewLocked(
      d: Disk, fails: nat -> bool, req: RenewRequest, env: Env, installCa: bool): (Disk, RenewOutcome) {
    var staged := Staged(d, env);
    var plan := PlanFor(req.certDir, env.stage, Names(installCa));
    if !env.stagingOk || !env.modesOk then (WithoutDir(staged, env.stage), Refused)
    else if req.dryRun then (WithoutDir(staged, env.stage), DryRun)
    else
      var (r, o) := Publish(staged, fails, plan, env.stamp);
      (WithoutDir(r, env.stage), match o case Published(b) => Done(b) case RolledBack(clean) => Failed(clean))
  }

  function Renew(d: Disk, fails: nat -> bool, req: RenewRequest, env: Env): (Disk, RenewOutcome) {
    if !env.checksPass then (d, Refused)
    else
      var decision := InstallDecision(InstalledCa(d.files, req.certDir), env.ca, req.rotateCa, req.initCa);
      if decision.None? || !env.lockFree then (d, Refused)
      else RenewLocked(d, fails, req, env, decision.value)
  }

  lemma PlanWithCa(certDir: string, stage: string)
    ensures PlanFor(certDir, stage, Names(true))
         == PlanFor(certDir, stage, LEAF_NAMES) + [PlannedFile(CaPath(stage), CaPath(certDir))]
  {
  }

  method StageFiles(fs: FileSystem, env: Env)
    modifies fs`files
    ensures fs.View() == Staged(old(fs.View()), env)
  {
    fs.WriteFile(Path(env.stage, "server.pem"), Cert(env.server, env.ca));
    fs.WriteFile(Path(env.stage, "server-key.pem"), Key(env.server));
    fs.WriteFile(Path(env.stage, "client.pem"), Cert(env.client, env.ca));
    fs.WriteFile(Path(env.stage, "client-key.pem"), Key(env.client));
    fs.WriteFile(CaPath(env.stage), Cert(env.ca, env.ca));
  }

  /** `renew_certificates`. */
  method RenewCertificates(fs: FileSystem, req: RenewRequest, env: Env) returns (r: Result<bool, IoError>)
    modifies fs
    ensures var (d, o) := Renew(old(fs.View()), fs.fails, req, env);
            && fs.View() == d
            && (r.Ok? <==> o.DryRun? || o.Done?) && (r.Ok? ==> r.value == o.DryRun?)
  {
    if !env.checksPass {
      return Err(IoError);
    }
    var installed := CaPath(req.certDir);
    var installCa := true;
    if installed in fs.files {
      if !fs.files[installed].Certificate? {
        return Err(IoError);
      }
      if fs.files[installed].fingerprint != env.ca {
        if !req.rotateCa {
          return Err(IoError);
        }
      } else {
        installCa := false;
      }
    } else if !req.initCa {
      return Err(IoError);
    }
    if !env.lockFree {
      return Err(IoError);
    }
    hide Staged, WithoutDir, Publish, PlanFor;
    StageFiles(fs, env);
    if !env.stagingOk {
      fs.RemoveDir(env.stage);
      return Err(IoError);
    }
    var plan: seq<PlannedFile> := PlanFor(req.certDir, env.stage, LEAF_NAMES);
    if installCa {
      plan := plan + [PlannedFile(CaPath(env.stage), installed)];
    }
    PlanWithCa(req.certDir, env.stage);
    if !env.modesOk {
      fs.RemoveDir(env.stage);
      return Err(IoError);
    }
    if req.dryRun {
      fs.RemoveDir(env.stage);
      return Ok(true);
    }
    var published := PublishFiles(fs, plan, env.stamp);
    fs.RemoveDir(env.stage);
    return if published.Ok? then Ok(false) else Err(IoError);
  }

  // ---- the plan ----

  /** A backup name ends in a digit, a certificate or key name in `m`. */
  lemma BackupNameEnds(target: Path, stamp: nat)
    ensures var name := BackupPath(target, stamp).name; name != [] && Decimal.IsDigit(name[|name| - 1])
  {
    var digits := Decimal.Print(stamp);
    var name := BackupPath(target, stamp).name;
    assert name[|name| - 1] == digits[|digits| - 1];
  }

  function StagedJob(d: Disk, req: RenewRequest, env: Env, installCa: bool): Job {
    Job(Staged(d, env).files, PlanFor(req.certDir, env.stage, Names(installCa)), env.stamp)
  }

  lemma FileNames(installCa: bool, i: nat, j: nat)
    requires i < |Names(installCa)| && j < |Names(installCa)|
    ensures Names(installCa)[i] == Names(true)[i]
    ensures i != j ==> Names(installCa)[i] != Names(installCa)[j]
    ensures Names(installCa)[j] != [] && Names(installCa)[j][|Names(installCa)[j]| - 1] == 'm'
  {
  }

  lemma PathsOfRenewal(d: Disk, req: RenewRequest, env: Env, installCa: bool, i: nat)
    requires i < |Names(installCa)|
    ensures var job := StagedJob(d, req, env, installCa);
            && |job.plan| == |Names(installCa)|
            && job.T(i) == Path(req.certDir, Names(installCa)[i]) && job.S(i) == Path(env.stage, Names(installCa)[i])
            && job.B(i).dir == req.certDir
  {
    hide Staged;
  }

  lemma RenewalIsStagedApart(d: Disk, req: RenewRequest, env: Env, installCa: bool)
    requires env.stage != req.certDir
    ensures StagedApart(StagedJob(d, req, env, installCa))
  {
    var job := StagedJob(d, req, env, installCa);
    hide Staged, PlanFor, BackupPath;
    PathsOfRenewal(d, req, env, installCa, 0);
    forall i: nat, j: nat | i < |job.plan| && j < |job.plan| ensures StagedPairApart(job, i, j) {
      PathsOfRenewal(d, req, env, installCa, i);
      PathsOfRenewal(d, req, env, installCa, j);
      FileNames(installCa, i, j);
      BackupNameEnds(job.T(i), env.stamp);
    }
  }

  lemma EachTargetOnce(d: Disk, req: RenewRequest, env: Env, installCa: bool, j: nat)
    requires j < |Names(installCa)|
    ensures j < |StagedJob(d, req, env, installCa).plan| && LastForTarget(StagedJob(d, req, env, installCa), j)
  {
    var job := StagedJob(d, req, env, installCa);
    hide Staged, PlanFor;
    PathsOfRenewal(d, req, env, installCa, j);
    forall i: nat | j < i < |job.plan| ensures job.T(i) != job.T(j) {
      PathsOfRenewal(d, req, env, installCa, i);
      FileNames(installCa, i, j);
    }
  }

  /** The CA file of a directory is outside the plan of a run that does not install one there. */
  lemma CaNotInPlan(d: Disk, req: RenewRequest, env: Env, installCa: bool, dir: string)
    requires env.stage != dir && !(installCa && req.certDir == dir)
    ensures !StagedJob(d, req, env, installCa).Touched(CaPath(dir))
  {
    var job := StagedJob(d, req, env, installCa);
    hide Staged;
    forall j: nat | j < |job.plan|
      ensures CaPath(dir) != job.T(j) && CaPath(dir) != job.S(j) && CaPath(dir) != job.B(j)
    {
      BackupNameEnds(job.T(j), env.stamp);
      assert job.T(j) == Path(req.certDir, Names(installCa)[j]) && job.S(j).dir == env.stage;
    }
  }

  lemma StagedContent(d: Disk, env: Env)
    ensures var f := Staged(d, env).files;
            && (forall p: Path :: p.dir != env.stage ==> At(f, p) == At(d.files, p))
            && At(f, Path(env.stage, "server.pem")) == Some(Cert(env.server, env.ca))
            && At(f, Path(env.stage, "client.pem")) == Some(Cert(env.client, env.ca))
            && At(f, CaPath(env.stage)) == Some(Cert(env.ca, env.ca))
            && At(f, Path(env.stage, "server-key.pem")) == Some(Key(env.server))
            && At(f, Path(env.stage, "client-key.pem")) == Some(Key(env.client))
  {
  }

  // ---- one run ----

  /** All files outside the staging directory are as they were. */
  ghost predicate SameOutside(before: Files, after: Files, stage: string) {
    forall p: Path :: p.dir != stage ==> At(after, p) == At(before, p)
  }

  /** The certificates, keys and CA of a directory are as they were. */
  ghost predicate SameCertificates(before: Files, after: Files, dir: string) {
    forall i :: 0 <= i < |Names(true)| ==> At(after, Path(dir, Names(true)[i])) == At(before, Path(dir, Names(true)[i]))
  }

  /** No backup path of this second is taken. */
  ghost predicate BackupsFree(files: Files, req: RenewRequest, env: Env) {
    forall i :: 0 <= i < |Names(true)| ==> BackupPath(Path(req.certDir, Names(true)[i]), env.stamp) !in files
  }

  ghost predicate IssuedBy(files: Files, p: Path, ca: string) {
    p in files && files[p].Certificate? && files[p].issuer == ca
  }

  /** The installed leaves were issued by the installed CA. */
  ghost predicate LeavesMatchCa(files: Files, dir: string) {
    match InstalledCa(files, dir)
    case Pinned(fp) => IssuedBy(files, Path(dir, "server.pem"), fp) && IssuedBy(files, Path(dir, "client.pem"), fp)
    case _ => false
  }

  /** What the run publishes, seen after the staging directory is gone. */
  function Publication(d: Disk, fails: nat -> bool, req: RenewRequest, env: Env, installCa: bool): (Disk, Outcome) {
    Publish(Staged(d, env), fails, PlanFor(req.certDir, env.stage, Names(installCa)), env.stamp)
  }

  lemma PublishedFile(d: Disk, fails: nat -> bool, req: RenewRequest, env: Env, installCa: bool, j: nat)
    requires env.stage != req.certDir && j < |Names(installCa)|
    requires Publication(d, fails, req, env, installCa).1.Published?
    ensures At(Publication(d, fails, req, env, installCa).0.files, Path(req.certDir, Names(installCa)[j]))
         == At(Staged(d, env).files, Path(env.stage, Names(installCa)[j]))
  {
    var job := StagedJob(d, req, env, installCa);
    RenewalIsStagedApart(d, req, env, installCa);
    EachTargetOnce(d, req, env, installCa, j);
    PathsOfRenewal(d, req, env, installCa, j);
    hide Staged, PlanFor, StagedApart, LastForTarget, Publish;
    LastFileWins(job, Staged(d, env), fails, j);
  }

  /** A run that does not publish a CA leaves the one that is there alone. */
  lemma OtherCaStays(d: Disk, fails: nat -> bool, req: RenewRequest, env: Env, installCa: bool, dir: string)
    requires env.stage != dir && !(installCa && req.certDir == dir)
    ensures At(Publication(d, fails, req, env, installCa).0.files, CaPath(dir)) == At(d.files, CaPath(dir))
  {
    var job := StagedJob(d, req, env, installCa);
    StagedContent(d, env);
    CaNotInPlan(d, req, env, installCa, dir);
    OtherPathsNeverChange(job, Staged(d, env), fails);
    hide Staged, Publish, PlanFor;
    assert job.Same(Publication(d, fails, req, env, installCa).0.files, CaPath(dir));
  }

  /** A completed publication puts both leaves in place, and the CA file if it is in the plan. */
  lemma PublishedPin(d: Disk, fails: nat -> bool, req: RenewRequest, env: Env, installCa: bool)
    requires env.stage != req.certDir && Publication(d, fails, req, env, installCa).1.Published?
    ensures var f := WithoutDir(Publication(d, fails, req, env, installCa).0, env.stage).files;
            && InstalledCa(f, req.certDir) == (if installCa then Pinned(env.ca) else InstalledCa(d.files, req.certDir))
            && IssuedBy(f, Path(req.certDir, "server.pem"), env.ca)
            && IssuedBy(f, Path(req.certDir, "client.pem"), env.ca)
  {
    StagedContent(d, env);
    PublishedFile(d, fails, req, env, installCa, 0);
    PublishedFile(d, fails, req, env, installCa, 2);
    if installCa {
      PublishedFile(d, fails, req, env, installCa, 4);
    } else {
      OtherCaStays(d, fails, req, env, installCa, req.certDir);
    }
    hide Staged, Publication;
  }

  /** A clean rollback puts the certificates and keys back, and leaves everything else alone
      unless it made a backup over a file. */
  lemma RolledBackRun(d: Disk, fails: nat -> bool, req: RenewRequest, env: Env, installCa: bool)
    requires env.stage != req.certDir && Publication(d, fails, req, env, installCa).1 == RolledBack(true)
    ensures var f := WithoutDir(Publication(d, fails, req, env, installCa).0, env.stage).files;
            && SameCertificates(d.files, f, req.certDir)
            && (BackupsFree(d.files, req, env) ==> SameOutside(d.files, f, env.stage))
  {
    var job, staged := StagedJob(d, req, env, installCa), Staged(d, env);
    var r := Publication(d, fails, req, env, installCa).0;
    StagedContent(d, env);
    RenewalIsStagedApart(d, req, env, installCa);
    PublicationEnds(job, staged, fails);
    OtherPathsNeverChange(job, staged, fails);
    CleanRollbackRestoresTargets(job, staged, fails);
    PathsOfRenewal(d, req, env, installCa, 0);
    var m := Reached(staged, fails, job.plan, env.stamp, 0);
    hide Staged, Publish, Reached, PlanFor, StagedApart, Undone;
    CertificatesBack(d, fails, req, env, installCa);
    if BackupsFree(d.files, req, env) {
      forall p: Path | p.dir != env.stage ensures At(r.files, p) == At(d.files, p) {
        EverythingBack(d, req, env, installCa, r.files, m, p);
      }
    }
  }

  lemma CertificatesBack(d: Disk, fails: nat -> bool, req: RenewRequest, env: Env, installCa: bool)
    requires env.stage != req.certDir
    requires TargetsAsBefore(StagedJob(d, req, env, installCa), Publication(d, fails, req, env, installCa).0.files)
    ensures SameCertificates(d.files, Publication(d, fails, req, env, installCa).0.files, req.certDir)
  {
    var job := StagedJob(d, req, env, installCa);
    var r := Publication(d, fails, req, env, installCa).0;
    StagedContent(d, env);
    if !installCa { OtherCaStays(d, fails, req, env, installCa, req.certDir); }
    hide Staged, Publication, PlanFor;
    forall i | 0 <= i < |Names(true)|
      ensures At(r.files, Path(req.certDir, Names(true)[i])) == At(d.files, Path(req.certDir, Names(true)[i]))
    {
      if i < |Names(installCa)| {
        PathsOfRenewal(d, req, env, installCa, i);
        assert job.Same(r.files, job.T(i));
      }
    }
  }

  lemma EverythingBack(d: Disk, req: RenewRequest, env: Env, installCa: bool, r: Files, m: nat, p: Path)
    requires var job := StagedJob(d, req, env, installCa);
             Undone(job, r, m) && OthersSame(job, r) && TargetsAsBefore(job, r)
    requires BackupsFree(d.files, req, env) && env.stage != req.certDir && p.dir != env.stage
    ensures At(r, p) == At(d.files, p)
  {
    var job := StagedJob(d, req, env, installCa);
    StagedContent(d, env);
    PathsOfRenewal(d, req, env, installCa, 0);
    hide Staged, PlanFor;
    if job.Touched(p) {
      var j: nat :| j < |job.plan| && (p == job.T(j) || p == job.S(j) || p == job.B(j));
      PathsOfRenewal(d, req, env, installCa, j);
      FileNames(installCa, j, j);
      assert UndoneFile(job, r, m, j);
      assert job.B(j) !in job.before;
    }
    assert job.Same(r, p);
  }

  lemma SameAsItself(files: Files, stage: string)
    ensures SameOutside(files, files, stage)
  {
  }

  lemma UnstagedIsSame(d: Disk, env: Env)
    ensures SameOutside(d.files, WithoutDir(Staged(d, env), env.stage).files, env.stage)
  {
    StagedContent(d, env);
  }

  /** The part under the lock, whatever the pinning decision was based on. */
  lemma LockedRun(d: Disk, fails: nat -> bool, req: RenewRequest, env: Env, installCa: bool)
    requires env.stage != req.certDir
    ensures var (r, o) := RenewLocked(d, fails, req, env, installCa);
            && (o.Done? ==>
                  && InstalledCa(r.files, req.certDir)
                     == (if installCa then Pinned(env.ca) else InstalledCa(d.files, req.certDir))
                  && IssuedBy(r.files, Path(req.certDir, "server.pem"), env.ca)
                  && IssuedBy(r.files, Path(req.certDir, "client.pem"), env.ca))
            && (o.Refused? || o.DryRun? ==> SameOutside(d.files, r.files, env.stage))
            && (o == Failed(true) ==>
                  && SameCertificates(d.files, r.files, req.certDir)
                  && (BackupsFree(d.files, req, env) ==> SameOutside(d.files, r.files, env.stage)))
  {
    if env.stagingOk && env.modesOk && !req.dryRun {
      var (r, o) := Publication(d, fails, req, env, installCa);
      assert RenewLocked(d, fails, req, env, installCa).0 == WithoutDir(r, env.stage);
      assert RenewLocked(d, fails, req, env, installCa).1
        == match o case Published(b) => Done(b) case RolledBack(clean) => Failed(clean);
      hide Publication, SameOutside, SameCertificates, IssuedBy, BackupsFree, InstalledCa, RenewLocked;
      if o.Published? {
        PublishedPin(d, fails, req, env, installCa);
      } else if o.clean {
        RolledBackRun(d, fails, req, env, installCa);
      }
    } else {
      UnstagedIsSame(d, env);
    }
  }

  /** What a completed run promises: the validated CA and leaves issued by it, where a CA
      was replaced only under `rotate_ca` and a missing one installed only under `init_ca`. */
  ghost predicate KeepsPin(before: Files, after: Files, req: RenewRequest, ca: string) {
    && InstalledCa(after, req.certDir) == Pinned(ca) && LeavesMatchCa(after, req.certDir)
    && (InstalledCa(before, req.certDir) != Pinned(ca) ==>
          (req.rotateCa && InstalledCa(before, req.certDir).Pinned?) ||
          (req.initCa && InstalledCa(before, req.certDir).Absent?))
  }

  /** One renewal, whatever lies in the directory. A completed run keeps the promise, a
      refused or dry one changes nothing outside the staging directory, and one that rolls
      back without a failing step leaves the certificates, keys and CA as they were, and all
      other files too if no backup path was taken. */
  lemma RenewalIsPinned(d: Disk, fails: nat -> bool, req: RenewRequest, env: Env)
    requires env.stage != req.certDir
    ensures var (r, o) := Renew(d, fails, req, env);
            && (o.Done? ==> KeepsPin(d.files, r.files, req, env.ca))
            && (o.Refused? || o.DryRun? ==> SameOutside(d.files, r.files, env.stage))
            && (o == Failed(true) ==>
                  && SameCertificates(d.files, r.files, req.certDir)
                  && (BackupsFree(d.files, req, env) ==> SameOutside(d.files, r.files, env.stage)))
  {
    hide SameOutside, SameCertificates, IssuedBy, BackupsFree, RenewLocked, InstalledCa;
    var decision := InstallDecision(InstalledCa(d.files, req.certDir), env.ca, req.rotateCa, req.initCa);
    if env.checksPass && decision.Some? && env.lockFree {
      LockedRun(d, fails, req, env, decision.value);
    } else {
      SameAsItself(d.files, env.stage);
    }
  }

  /** The pin is checked before the lock is taken. A run that meets another directory under
      the lock than it decided on (`seen`) keeps the promise exactly when the CA it meets is
      the validated one, or when its plan has the CA and it would be allowed to install it
      there too. */
  lemma StalePin(seen: Pin, d: Disk, fails: nat -> bool, req: RenewRequest, env: Env, installCa: bool)
    requires env.stage != req.certDir
    requires InstallDecision(seen, env.ca, req.rotateCa, req.initCa) == Some(installCa)
    requires RenewLocked(d, fails, req, env, installCa).1.Done?
    ensures var r := RenewLocked(d, fails, req, env, installCa).0;
            var met := InstalledCa(d.files, req.certDir);
            KeepsPin(d.files, r.files, req, env.ca) <==>
              met == Pinned(env.ca) || (installCa && InstallDecision(met, env.ca, req.rotateCa, req.initCa).Some?)
  {
    hide SameOutside, SameCertificates, IssuedBy, BackupsFree, RenewLocked, InstalledCa;
    LockedRun(d, fails, req, env, installCa);
  }

  // ---- when a renewal goes ahead, and what it installs ----

  /** Everything that a run asks for: the installed CA is the validated one, or another that
      may be rotated, or missing and may be installed. */
  predicate MayRenew(d: Disk, req: RenewRequest, env: Env) {
    && env.checksPass && env.lockFree && env.stagingOk && env.modesOk
    && match At(d.files, Path(req.certDir, "ca.pem"))
       case None => req.initCa
       case Some(c) => c.Certificate? && (c.fingerprint == env.ca || req.rotateCa)
  }

  /** A run goes ahead exactly then, and without faults it completes; a dry run stops before
      the publication. */
  lemma RenewalGoesAheadExactly(d: Disk, fails: nat -> bool, req: RenewRequest, env: Env)
    requires env.stage != req.certDir
    ensures var o := Renew(d, fails, req, env).1;
            && (o.DryRun? <==> MayRenew(d, req, env) && req.dryRun)
            && (o.Done? || o.Failed? <==> MayRenew(d, req, env) && !req.dryRun)
            && ((forall c: nat :: !fails(c)) ==> !o.Failed?)
  {
    var decision := InstallDecision(InstalledCa(d.files, req.certDir), env.ca, req.rotateCa, req.initCa);
    if decision.Some? && Smooth(req, env) && forall c: nat :: !fails(c) {
      SmoothRunCompletes(d, fails, req, env, decision.value);
    }
    hide Staged, Publish, PlanFor, WithoutDir;
  }

  /** Each of the four files of a directory is the one that was issued for it. */
  ghost predicate OwnFiles(f: Files, dir: string, env: Env) {
    && At(f, Path(dir, "server.pem")) == Some(Certificate(env.server, env.ca, None))
    && At(f, Path(dir, "server-key.pem")) == Some(Key(env.server))
    && At(f, Path(dir, "client.pem")) == Some(Certificate(env.client, env.ca, None))
    && At(f, Path(dir, "client-key.pem")) == Some(Key(env.client))
  }

  lemma PublishedFiles(d: Disk, fails: nat -> bool, req: RenewRequest, env: Env, installCa: bool)
    requires env.stage != req.certDir && Publication(d, fails, req, env, installCa).1.Published?
    ensures var f := Publication(d, fails, req, env, installCa).0.files;
            && OwnFiles(f, req.certDir, env)
            && At(f, Path(req.certDir, "ca.pem"))
               == if installCa then Some(Certificate(env.ca, env.ca, None)) else At(d.files, CaPath(req.certDir))
  {
    StagedContent(d, env);
    PublishedFile(d, fails, req, env, installCa, 0);
    PublishedFile(d, fails, req, env, installCa, 1);
    PublishedFile(d, fails, req, env, installCa, 2);
    PublishedFile(d, fails, req, env, installCa, 3);
    if installCa {
      PublishedFile(d, fails, req, env, installCa, 4);
    } else {
      OtherCaStays(d, fails, req, env, installCa, req.certDir);
    }
    hide Publication, Staged;
  }

  /** After a completed run the certificates and keys are the new ones, each under its own
      name, and the CA is the validated one, left as it was if it was that already. */
  lemma RenewedFiles(d: Disk, fails: nat -> bool, req: RenewRequest, env: Env)
    requires env.stage != req.certDir && Renew(d, fails, req, env).1.Done?
    ensures var f := Renew(d, fails, req, env).0.files;
            && OwnFiles(f, req.certDir, env)
            && At(f, Path(req.certDir, "ca.pem")) ==
               if InstalledCa(d.files, req.certDir) == Pinned(env.ca) then At(d.files, Path(req.certDir, "ca.pem"))
               else Some(Certificate(env.ca, env.ca, None))
  {
    var installCa :=
      InstallDecision(InstalledCa(d.files, req.certDir), env.ca, req.rotateCa, req.initCa).value;
    var (r, o) := Publication(d, fails, req, env, installCa);
    assert o.Published? && Renew(d, fails, req, env).0 == WithoutDir(r, env.stage);
    hide Publication, Renew;
    PublishedFiles(d, fails, req, env, installCa);
  }

  /** No run leaves its staged files behind, the private keys among them. */
  lemma NothingStaysStaged(d: Disk, fails: nat -> bool, req: RenewRequest, env: Env)
    requires forall p: Path :: p in d.files ==> p.dir != env.stage
    ensures forall p: Path :: p in Renew(d, fails, req, env).0.files ==> p.dir != env.stage
  {
    hide Staged, Publish, PlanFor, InstalledCa;
  }

  // ---- the CA under any failures ----

  /** What becomes of the CA of a directory when it changes: the new one after a completed
      run, the new one or none when a rollback has failed on the way. */
  predicate NewOrLost(after: Pin, ca: string, o: RenewOutcome) {
    (o.Done? && after == Pinned(ca)) || (o == Failed(false) && after in {Pinned(ca), Absent})
  }

  lemma OnlyCaIsCa(d: Disk, req: RenewRequest, env: Env, installCa: bool, i: nat)
    requires i < |StagedJob(d, req, env, installCa).plan|
    requires StagedJob(d, req, env, installCa).T(i) == CaPath(req.certDir)
    ensures StagedJob(d, req, env, installCa).S(i) == CaPath(env.stage)
  {
    hide Staged;
  }

  /** Even if the rollback fails half-way no foreign CA appears. */
  lemma CaAfterFailure(d: Disk, fails: nat -> bool, req: RenewRequest, env: Env, installCa: bool)
    requires env.stage != req.certDir
    ensures InstalledCa(Publication(d, fails, req, env, installCa).0.files, req.certDir)
              in {InstalledCa(d.files, req.certDir), Pinned(env.ca), Absent}
  {
    var p := CaPath(req.certDir);
    StagedContent(d, env);
    if !installCa {
      OtherCaStays(d, fails, req, env, installCa, req.certDir);
    } else {
      var job := StagedJob(d, req, env, installCa);
      RenewalIsStagedApart(d, req, env, installCa);
      TargetsHoldNothingForeign(job, Staged(d, env), fails);
      PathsOfRenewal(d, req, env, installCa, 4);
      hide Staged, Publish, PlanFor;
      var f := Publication(d, fails, req, env, installCa).0.files;
      assert Ours(job, job.T(4), At(f, p));
      if FromPlan(job, p, At(f, p)) {
        var i: nat :| i < |job.plan| && job.T(i) == p && At(f, p) == At(job.before, job.S(i));
        OnlyCaIsCa(d, req, env, installCa, i);
      }
    }
  }

  lemma LockedKeepsCa(d: Disk, fails: nat -> bool, req: RenewRequest, env: Env, installCa: bool, dir: string)
    requires env.stage != dir
    ensures var (r, o) := RenewLocked(d, fails, req, env, installCa); var after := InstalledCa(r.files, dir);
            after == InstalledCa(d.files, dir) || (installCa && req.certDir == dir && NewOrLost(after, env.ca, o))
  {
    StagedContent(d, env);
    if env.stagingOk && env.modesOk && !req.dryRun {
      var (r, o) := Publication(d, fails, req, env, installCa);
      assert RenewLocked(d, fails, req, env, installCa).0 == WithoutDir(r, env.stage);
      assert At(WithoutDir(r, env.stage).files, CaPath(dir)) == At(r.files, CaPath(dir));
      hide Staged, Publication;
      if !(installCa && req.certDir == dir) {
        OtherCaStays(d, fails, req, env, installCa, dir);
      } else {
        CaAfterFailure(d, fails, req, env, installCa);
        LockedRun(d, fails, req, env, installCa);
        assert Names(true)[4] == "ca.pem";
      }
    }
  }

  // ---- two renewals that overlap ----

  /** Nothing goes wrong in the run, and it is not a dry run. */
  predicate Smooth(req: RenewRequest, env: Env) {
    env.checksPass && env.lockFree && env.stagingOk && env.modesOk && !req.dryRun
  }

  lemma StagedFilesExist(d: Disk, req: RenewRequest, env: Env, installCa: bool)
    ensures StagedJob(d, req, env, installCa).StagedExist()
  {
  }

  lemma SmoothRunCompletes(d: Disk, fails: nat -> bool, req: RenewRequest, env: Env, installCa: bool)
    requires env.stage != req.certDir && Smooth(req, env) && forall c :: !fails(c)
    ensures RenewLocked(d, fails, req, env, installCa).1.Done?
  {
    RenewalIsStagedApart(d, req, env, installCa);
    StagedFilesExist(d, req, env, installCa);
    hide Staged, PlanFor, StagedApart, Publish;
    FaultFreeCompletes(StagedJob(d, req, env, installCa), Staged(d, env), fails);
  }

  /** Two runs with `init_ca` and different CAs in a directory without one. The one (`req'`)
      takes its pinning decision, the other runs from beginning to end, and the first goes on
      under the lock: both complete, and the CA that the one installed has been replaced
      although nobody passed `rotate_ca`. */
  lemma OverlapReplacesTheCa(d: Disk, fails: nat -> bool, req: RenewRequest, env: Env, req': RenewRequest, env': Env)
    requires InstalledCa(d.files, req.certDir) == Absent && forall c :: !fails(c)
    requires Smooth(req, env) && Smooth(req', env') && req.certDir == req'.certDir && env.ca != env'.ca
    requires env.stage != req.certDir && env'.stage != req.certDir
    requires req.initCa && req'.initCa && !req.rotateCa && !req'.rotateCa
    ensures var (d1, o1) := Renew(d, fails, req, env);
            var (d2, o2) := RenewLocked(d1, fails, req', env', true);
            && InstallDecision(InstalledCa(d.files, req'.certDir), env'.ca, req'.rotateCa, req'.initCa) == Some(true)
            && o1.Done? && InstalledCa(d1.files, req.certDir) == Pinned(env.ca)
            && o2.Done? && InstalledCa(d2.files, req.certDir) == Pinned(env'.ca)
            && !KeepsPin(d1.files, d2.files, req', env'.ca)
  {
    SmoothRunCompletes(d, fails, req, env, true);
    LockedRun(d, fails, req, env, true);
    hide RenewLocked, IssuedBy;
    assert Renew(d, fails, req, env) == RenewLocked(d, fails, req, env, true);
    var d1 := Renew(d, fails, req, env).0;
    SmoothRunCompletes(d1, fails, req', env', true);
    LockedRun(d1, fails, req', env', true);
  }
}
