/** Publications whose plan may name a target twice, and rollbacks over backups that were
    there before (`src/cli/atomic.rs`): what is left at every target and at every backup.
    The results of `PublishProofs` that restore everything ask for distinct targets and
    free backup paths; here is what happens without. */
module RepeatedTargets {
  import opened Wrappers
  import opened AtomicPublish
  import opened PublishProofs
  import Decimal

  /** Staged files are distinct and neither targets nor backups; no backup is a target. */
  ghost predicate StagedApart(job: Job) {
    forall i: nat, j: nat :: i < |job.plan| && j < |job.plan| ==> StagedPairApart(job, i, j)
  }

  predicate StagedPairApart(job: Job, i: nat, j: nat)
    requires i < |job.plan| && j < |job.plan|
  {
    (i < j ==> job.S(i) != job.S(j)) && job.S(i) != job.T(j) && job.B(i) != job.T(j) && job.B(i) != job.S(j)
  }

  lemma BackupsFollowTargets(job: Job, i: nat, j: nat)
    requires i < |job.plan| && j < |job.plan|
    ensures job.B(i) == job.B(j) <==> job.T(i) == job.T(j)
  {
    var tail := ".bak." + Decimal.Print(job.stamp);
    var a, b := job.T(i), job.T(j);
    assert job.B(i) == Path(a.dir, a.name + tail) && job.B(j) == Path(b.dir, b.name + tail);
    if job.B(i) == job.B(j) {
      assert |a.name + tail| == |b.name + tail|;
      assert (a.name + tail)[..|a.name|] == a.name && (b.name + tail)[..|b.name|] == b.name;
    }
  }

  // ---- what a run has put where ----

  function At(files: Files, p: Path): Option<Content> {
    if p in files then Some(files[p]) else None
  }

  /** What a target holds after the first `k` files of the plan. */
  function AtTarget(job: Job, p: Path, k: nat): Option<Content>
    requires k <= |job.plan|
  {
    if k == 0 then At(job.before, p)
    else if job.T(k - 1) == p then At(job.before, job.S(k - 1))
    else AtTarget(job, p, k - 1)
  }

  /** Whether one of the first `m` files found something at the target and moved it away. */
  predicate BackedUp(job: Job, p: Path, m: nat)
    requires m <= |job.plan|
  {
    m > 0 && (BackedUp(job, p, m - 1) || (job.T(m - 1) == p && AtTarget(job, p, m - 1).Some?))
  }

  /** What is at the backup path of a target then: what the last of them found. */
  function AtBackup(job: Job, p: Path, m: nat): Option<Content>
    requires m <= |job.plan|
  {
    if m == 0 then At(job.before, BackupPath(p, job.stamp))
    else if job.T(m - 1) == p && AtTarget(job, p, m - 1).Some? then AtTarget(job, p, m - 1)
    else AtBackup(job, p, m - 1)
  }

  /** The first `k` files are published and the targets of the first `m` backed up, where
      `m` is `k`, or `k + 1` in the middle of file `k`. */
  ghost predicate Tracks(job: Job, files: Files, k: nat, m: nat) {
    && k <= m <= k + 1 && m <= |job.plan|
    && (forall j: nat :: j < |job.plan| ==> TracksFile(job, files, k, m, j))
    && (forall j: nat :: j < k ==> job.S(j) in job.before)
    && (forall j: nat :: k <= j < |job.plan| ==> job.Same(files, job.S(j)))
  }

  ghost predicate TracksFile(job: Job, files: Files, k: nat, m: nat, j: nat)
    requires k <= m <= k + 1 && m <= |job.plan| && j < |job.plan|
  {
    && At(files, job.T(j)) == (if k < m && job.T(j) == job.T(k) then None else AtTarget(job, job.T(j), k))
    && At(files, job.B(j)) == AtBackup(job, job.T(j), m)
  }

  lemma TracksStart(job: Job)
    ensures Tracks(job, job.before, 0, 0)
  {
  }

  lemma TracksFileBackUp(job: Job, files: Files, k: nat, j: nat)
    requires StagedApart(job) && k < |job.plan| && j < |job.plan|
    requires TracksFile(job, files, k, k, k) && TracksFile(job, files, k, k, j)
    ensures job.T(k) in files ==> TracksFile(job, Moved(files, job.T(k), job.B(k)), k, k + 1, j)
    ensures job.T(k) !in files ==> TracksFile(job, files, k, k + 1, j)
  {
    assert StagedPairApart(job, k, j) && StagedPairApart(job, j, k);
    BackupsFollowTargets(job, j, k);
    hide StagedApart, BackupPath;
  }

  lemma StagedStays(job: Job, files: Files, k: nat, j: nat)
    requires StagedApart(job) && k < |job.plan| && j < |job.plan| && job.T(k) in files && job.Same(files, job.S(j))
    ensures job.Same(Moved(files, job.T(k), job.B(k)), job.S(j))
  {
    assert StagedPairApart(job, k, j) && StagedPairApart(job, j, k);
    hide StagedApart, BackupPath;
  }

  lemma MovedBackUp(job: Job, files: Files, k: nat)
    requires StagedApart(job) && k < |job.plan| && Tracks(job, files, k, k) && job.T(k) in files
    ensures Tracks(job, Moved(files, job.T(k), job.B(k)), k, k + 1)
  {
    hide StagedApart, BackupPath, TracksFile;
    var r, next := Moved(files, job.T(k), job.B(k)), k + 1;
    forall j: nat | k <= j < |job.plan| ensures job.Same(r, job.S(j)) {
      StagedStays(job, files, k, j);
    }
    forall j: nat | j < |job.plan| ensures TracksFile(job, r, k, next, j) {
      TracksFileBackUp(job, files, k, j);
    }
  }

  lemma NothingToBackUp(job: Job, files: Files, k: nat)
    requires StagedApart(job) && k < |job.plan| && Tracks(job, files, k, k) && job.T(k) !in files
    ensures Tracks(job, files, k, k + 1)
  {
    hide StagedApart, BackupPath, TracksFile;
    var next := k + 1;
    forall j: nat | j < |job.plan| ensures TracksFile(job, files, k, next, j) {
      TracksFileBackUp(job, files, k, j);
    }
  }

  lemma FoundAtTarget(job: Job, files: Files, k: nat)
    requires k < |job.plan| && Tracks(job, files, k, k)
    ensures TracksFile(job, files, k, k, k) && (job.T(k) in files <==> AtTarget(job, job.T(k), k).Some?)
  {
  }

  lemma TracksBackUp(job: Job, files: Files, k: nat)
    requires StagedApart(job) && k < |job.plan| && Tracks(job, files, k, k)
    ensures job.T(k) in files ==> Tracks(job, Moved(files, job.T(k), job.B(k)), k, k + 1)
    ensures job.T(k) !in files ==> Tracks(job, files, k, k + 1)
    ensures job.T(k) in files <==> AtTarget(job, job.T(k), k).Some?
  {
    FoundAtTarget(job, files, k);
    hide StagedApart, BackupPath, Tracks, AtTarget;
    if job.T(k) in files { MovedBackUp(job, files, k); } else { NothingToBackUp(job, files, k); }
  }

  lemma TracksPut(job: Job, files: Files, k: nat)
    requires StagedApart(job) && k < |job.plan| && Tracks(job, files, k, k + 1) && job.S(k) in files
    ensures Tracks(job, Moved(files, job.S(k), job.T(k)), k + 1, k + 1)
  {
    var r := Moved(files, job.S(k), job.T(k));
    var next := k + 1;
    assert job.Same(files, job.S(k));
    forall j: nat | j < |job.plan| ensures TracksFile(job, r, next, next, j) {
      assert TracksFile(job, files, k, k + 1, j) && StagedPairApart(job, k, j) && StagedPairApart(job, j, k);
    }
    forall j: nat | k + 1 <= j < |job.plan| ensures job.Same(r, job.S(j)) {
      assert StagedPairApart(job, k, j) && StagedPairApart(job, j, k);
    }
  }

  // ---- rollbacks ----

  /** The rollback steps all succeed, or none of them is made to fail and some find nothing. */
  ghost predicate Undisturbed(fails: nat -> bool, clock: nat, clean: bool) {
    clean || forall c: nat :: c >= clock ==> !fails(c)
  }

  lemma {:induction false} RemoveAllRemoves(d: Disk, fails: nat -> bool, targets: seq<Path>)
    requires Undisturbed(fails, d.clock, RemoveAll(d, fails, targets).1)
    ensures var r := RemoveAll(d, fails, targets).0;
            r.clock >= d.clock && forall p: Path :: At(r.files, p) == if p in targets then None else At(d.files, p)
    decreases |targets|
  {
    if targets != [] {
      var n := |targets| - 1;
      var (d1, ok) := RemoveFile(d, fails, targets[n]);
      RemoveAllRemoves(d1, fails, targets[..n]);
      assert targets == targets[..n] + [targets[n]];
    }
  }

  /** The backups made for the first `m` files, in order. */
  function BackupList(job: Job, m: nat): seq<Backup>
    requires m <= |job.plan|
  {
    if m == 0 then []
    else BackupList(job, m - 1)
         + (if AtTarget(job, job.T(m - 1), m - 1).Some? then [Backup(job.T(m - 1), job.B(m - 1))] else [])
  }

  /** What is at target and backup of file `j` when the backups of the first `m` are home. */
  ghost predicate HomeAgain(job: Job, files: Files, m: nat, r: Files, j: nat)
    requires m <= |job.plan| && j < |job.plan|
  {
    var backedUp := BackedUp(job, job.T(j), m);
    && At(r, job.T(j)) == (if backedUp && job.B(j) in files then At(files, job.B(j)) else At(files, job.T(j)))
    && At(r, job.B(j)) == (if backedUp then None else At(files, job.B(j)))
  }

  ghost predicate AllHome(job: Job, files: Files, m: nat, r: Files)
    requires m <= |job.plan|
  {
    forall j: nat :: j < |job.plan| ==> HomeAgain(job, files, m, r, j)
  }

  lemma RestoreOneHome(job: Job, d: Disk, d1: Disk, m: nat, r: Files, j: nat)
    requires StagedApart(job) && 0 < m <= |job.plan| && j < |job.plan|
    requires AtTarget(job, job.T(m - 1), m - 1).Some?
    requires d1.files == if job.B(m - 1) in d.files then Moved(d.files, job.B(m - 1), job.T(m - 1)) else d.files
    requires HomeAgain(job, d1.files, m - 1, r, j)
    ensures HomeAgain(job, d.files, m, r, j)
  {
    BackupsFollowTargets(job, j, m - 1);
    assert StagedPairApart(job, j, m - 1) && StagedPairApart(job, m - 1, j);
  }

  lemma {:induction false} RestoreAllRestores(job: Job, d: Disk, fails: nat -> bool, m: nat)
    requires StagedApart(job) && m <= |job.plan|
    requires Undisturbed(fails, d.clock, RestoreAll(d, fails, BackupList(job, m)).1)
    ensures AllHome(job, d.files, m, RestoreAll(d, fails, BackupList(job, m)).0.files)
    decreases m
  {
    if m > 0 {
      var n := m - 1;
      var all := BackupList(job, m);
      var r := RestoreAll(d, fails, all).0.files;
      if AtTarget(job, job.T(n), n).Some? {
        assert all[..|all| - 1] == BackupList(job, n);
        var (d1, ok) := RenameFile(d, fails, job.B(n), job.T(n));
        RestoreAllRestores(job, d1, fails, n);
        forall j: nat | j < |job.plan| ensures HomeAgain(job, d.files, m, r, j) {
          assert HomeAgain(job, d1.files, n, r, j);
          RestoreOneHome(job, d, d1, m, r, j);
        }
      } else {
        assert all == BackupList(job, n);
        RestoreAllRestores(job, d, fails, n);
        forall j: nat | j < |job.plan| ensures HomeAgain(job, d.files, m, r, j) {
          assert HomeAgain(job, d.files, n, r, j);
        }
      }
    }
  }

  predicate Named(job: Job, p: Path, k: nat)
    requires k <= |job.plan|
  {
    exists i: nat :: i < k && job.T(i) == p
  }

  /** A target that was never backed up was not there before it was named, and a second
      file for it would have found the first. */
  lemma {:induction false} NeverBackedUp(job: Job, p: Path, m: nat)
    requires m <= |job.plan| && !BackedUp(job, p, m)
    ensures AtBackup(job, p, m) == At(job.before, BackupPath(p, job.stamp))
    ensures Named(job, p, m) ==> p !in job.before
    ensures !Named(job, p, m) ==> AtTarget(job, p, m) == At(job.before, p)
  {
    if m > 0 {
      NeverBackedUp(job, p, m - 1);
      if Named(job, p, m) && job.T(m - 1) != p {
        var i: nat :| i < m && job.T(i) == p;
        assert i < m - 1;
      }
    }
  }

  lemma {:induction false} BackedUpIsThere(job: Job, p: Path, m: nat)
    requires m <= |job.plan| && BackedUp(job, p, m)
    ensures AtBackup(job, p, m).Some? && Named(job, p, m)
  {
    if !(job.T(m - 1) == p && AtTarget(job, p, m - 1).Some?) {
      BackedUpIsThere(job, p, m - 1);
      var i: nat :| i < m - 1 && job.T(i) == p;
      assert i < m;
    } else {
      assert job.T(m - 1) == p;
    }
  }

  /** What a rollback leaves: at a target that was backed up what its last backup held, and
      nothing at that backup; everything else as before. */
  ghost predicate Undone(job: Job, r: Files, m: nat) {
    m <= |job.plan| && forall j: nat :: j < |job.plan| ==> UndoneFile(job, r, m, j)
  }

  ghost predicate UndoneFile(job: Job, r: Files, m: nat, j: nat)
    requires m <= |job.plan| && j < |job.plan|
  {
    if BackedUp(job, job.T(j), m) then
      At(r, job.T(j)) == AtBackup(job, job.T(j), m) && At(r, job.B(j)) == None
    else
      job.Same(r, job.T(j)) && job.Same(r, job.B(j))
  }

  lemma PublishedTargets(job: Job, k: nat, p: Path)
    requires k <= |job.plan|
    ensures p in Targets(job.plan[..k]) <==> Named(job, p, k)
  {
    var targets := Targets(job.plan[..k]);
    assert |targets| == k && forall i: nat :: i < k ==> targets[i] == job.T(i);
    if Named(job, p, k) {
      var i: nat :| i < k && job.T(i) == p;
      assert targets[i] == p;
    }
  }

  lemma NoTargetIsBackup(job: Job, k: nat, j: nat)
    requires StagedApart(job) && k <= |job.plan| && j < |job.plan|
    ensures !Named(job, job.B(j), k)
  {
    forall i: nat | i < k ensures job.T(i) != job.B(j) {
      assert StagedPairApart(job, j, i);
    }
  }

  lemma UndoneAt(job: Job, files: Files, k: nat, m: nat, f1: Files, r: Files, j: nat)
    requires StagedApart(job) && Tracks(job, files, k, m) && j < |job.plan|
    requires forall p: Path :: At(f1, p) == if p in Targets(job.plan[..k]) then None else At(files, p)
    requires HomeAgain(job, f1, m, r, j)
    ensures UndoneFile(job, r, m, j)
  {
    var p := job.T(j);
    assert TracksFile(job, files, k, m, j);
    PublishedTargets(job, k, p);
    PublishedTargets(job, k, job.B(j));
    NoTargetIsBackup(job, k, j);
    if BackedUp(job, p, m) {
      BackedUpIsThere(job, p, m);
    } else {
      NeverBackedUp(job, p, m);
      if !Named(job, p, k) { NotNamedYet(job, p, k, m); } else { NamedStays(job, p, k, m); }
    }
  }

  lemma NamedStays(job: Job, p: Path, k: nat, m: nat)
    requires k <= m <= |job.plan| && Named(job, p, k)
    ensures Named(job, p, m)
  {
    var i: nat :| i < k && job.T(i) == p;
    assert i < m;
  }

  lemma NotNamedYet(job: Job, p: Path, k: nat, m: nat)
    requires k <= m <= k + 1 && m <= |job.plan| && !Named(job, p, k) && !BackedUp(job, p, m)
    ensures AtTarget(job, p, k) == At(job.before, p)
    ensures k < m && p == job.T(k) ==> At(job.before, p) == None
  {
    assert !BackedUp(job, p, k);
    NeverBackedUp(job, p, k);
  }

  lemma UndoUndoes(job: Job, d: Disk, fails: nat -> bool, k: nat, m: nat)
    requires StagedApart(job) && Tracks(job, d.files, k, m)
    requires var o := Undo(d, fails, Targets(job.plan[..k]), BackupList(job, m)).1; Undisturbed(fails, d.clock, o.clean)
    ensures Undone(job, Undo(d, fails, Targets(job.plan[..k]), BackupList(job, m)).0.files, m)
  {
    var targets := Targets(job.plan[..k]);
    var d1 := RemoveAll(d, fails, targets).0;
    RemoveAllRemoves(d, fails, targets);
    RestoreAllRestores(job, d1, fails, m);
    var r := RestoreAll(d1, fails, BackupList(job, m)).0;
    hide StagedApart, Tracks, RemoveAll, RestoreAll;
    forall j: nat | j < |job.plan| ensures UndoneFile(job, r.files, m, j) {
      UndoneAt(job, d.files, k, m, d1.files, r.files, j);
    }
  }

  /** A target that is removed was there, and nobody else's. */
  lemma {:induction false} RemovedWereThere(d: Disk, fails: nat -> bool, targets: seq<Path>)
    requires RemoveAll(d, fails, targets).1
    ensures forall i :: 0 <= i < |targets| ==> targets[i] in d.files
    ensures forall i, j :: 0 <= i < j < |targets| ==> targets[i] != targets[j]
    decreases |targets|
  {
    if targets != [] {
      var n := |targets| - 1;
      RemovedWereThere(RemoveFile(d, fails, targets[n]).0, fails, targets[..n]);
      forall i | 0 <= i < n ensures targets[i] in d.files && targets[i] != targets[n] {
        assert targets[..n][i] == targets[i];
      }
      forall i, j | 0 <= i < j < n ensures targets[i] != targets[j] {
        assert targets[..n][i] == targets[i] && targets[..n][j] == targets[j];
      }
    }
  }

  /** None of the first `m` files shares its target with another of them. */
  ghost predicate OnceUpTo(job: Job, m: nat) {
    m <= |job.plan| && forall i: nat, j: nat :: i < j < m ==> job.T(i) != job.T(j)
  }

  /** A rollback can be clean only where no target has been named twice. */
  lemma CleanMeansOnce(job: Job, d: Disk, fails: nat -> bool, k: nat, m: nat)
    requires Tracks(job, d.files, k, m) && Undo(d, fails, Targets(job.plan[..k]), BackupList(job, m)).1.clean
    ensures OnceUpTo(job, m)
  {
    var targets := Targets(job.plan[..k]);
    RemovedWereThere(d, fails, targets);
    assert |targets| == k && forall i: nat :: i < k ==> targets[i] == job.T(i);
    forall i: nat, j: nat | i < j < m ensures job.T(i) != job.T(j) {
      assert targets[i] in d.files;
      if j == k { assert TracksFile(job, d.files, k, m, k); }
    }
  }

  // -- what a target can hold, whatever fails --

  predicate FromPlan(job: Job, p: Path, c: Option<Content>) {
    exists i: nat :: i < |job.plan| && job.T(i) == p && c == At(job.before, job.S(i))
  }

  lemma {:induction false} NamedHoldsStaged(job: Job, p: Path, k: nat)
    requires k <= |job.plan|
    ensures if Named(job, p, k) then FromPlan(job, p, AtTarget(job, p, k)) else AtTarget(job, p, k) == At(job.before, p)
  {
    if k > 0 {
      NamedHoldsStaged(job, p, k - 1);
      if job.T(k - 1) != p && Named(job, p, k) {
        var i: nat :| i < k && job.T(i) == p;
        assert i < k - 1;
      }
      if Named(job, p, k - 1) { NamedStays(job, p, k - 1, k); }
    }
  }

  /** A backup holds the original, or something that the plan itself had put there. */
  lemma {:induction false} BackupHolds(job: Job, p: Path, m: nat)
    requires m <= |job.plan| && BackedUp(job, p, m)
    ensures AtBackup(job, p, m) == At(job.before, p) || FromPlan(job, p, AtBackup(job, p, m))
  {
    if job.T(m - 1) == p && AtTarget(job, p, m - 1).Some? {
      NamedHoldsStaged(job, p, m - 1);
    } else {
      BackupHolds(job, p, m - 1);
    }
  }

  /** Nothing, what the path held before, or what was staged for it. */
  predicate Ours(job: Job, p: Path, c: Option<Content>) {
    c.None? || c == At(job.before, p) || FromPlan(job, p, c)
  }

  ghost predicate TargetsOurs(job: Job, files: Files) {
    forall j: nat :: j < |job.plan| ==> Ours(job, job.T(j), At(files, job.T(j)))
  }

  /** The same for the backups that the first `m` files have made. */
  ghost predicate BackupsOurs(job: Job, files: Files, m: nat)
    requires m <= |job.plan|
  {
    forall j: nat :: j < |job.plan| && BackedUp(job, job.T(j), m) ==> Ours(job, job.T(j), At(files, job.B(j)))
  }

  lemma TracksOurs(job: Job, files: Files, k: nat, m: nat)
    requires Tracks(job, files, k, m)
    ensures TargetsOurs(job, files) && BackupsOurs(job, files, m)
  {
    forall j: nat | j < |job.plan|
      ensures Ours(job, job.T(j), At(files, job.T(j)))
      ensures BackedUp(job, job.T(j), m) ==> Ours(job, job.T(j), At(files, job.B(j)))
    {
      assert TracksFile(job, files, k, m, j);
      NamedHoldsStaged(job, job.T(j), k);
      if BackedUp(job, job.T(j), m) { BackupHolds(job, job.T(j), m); }
    }
  }

  lemma {:induction false} RemoveAllOurs(job: Job, d: Disk, fails: nat -> bool, targets: seq<Path>, m: nat)
    requires m <= |job.plan| && TargetsOurs(job, d.files) && BackupsOurs(job, d.files, m)
    ensures var r := RemoveAll(d, fails, targets).0.files; TargetsOurs(job, r) && BackupsOurs(job, r, m)
    decreases |targets|
  {
    if targets != [] {
      hide BackedUp, FromPlan;
      var n := |targets| - 1;
      RemoveAllOurs(job, RemoveFile(d, fails, targets[n]).0, fails, targets[..n], m);
    }
  }

  lemma RestoreOneOurs(job: Job, files: Files, m: nat)
    requires StagedApart(job) && 0 < m <= |job.plan| && BackedUp(job, job.T(m - 1), m) && job.B(m - 1) in files
    requires TargetsOurs(job, files) && BackupsOurs(job, files, m)
    ensures var r := Moved(files, job.B(m - 1), job.T(m - 1)); TargetsOurs(job, r) && BackupsOurs(job, r, m - 1)
  {
    var n := m - 1;
    var r := Moved(files, job.B(n), job.T(n));
    forall j: nat | j < |job.plan|
      ensures Ours(job, job.T(j), At(r, job.T(j)))
      ensures BackedUp(job, job.T(j), n) ==> Ours(job, job.T(j), At(r, job.B(j)))
    {
      assert StagedPairApart(job, j, n) && BackedUp(job, job.T(j), n) ==> BackedUp(job, job.T(j), m);
      hide BackedUp, FromPlan, StagedApart, BackupPath;
    }
  }

  lemma {:induction false} RestoreAllOurs(job: Job, d: Disk, fails: nat -> bool, m: nat)
    requires StagedApart(job) && m <= |job.plan| && TargetsOurs(job, d.files) && BackupsOurs(job, d.files, m)
    ensures TargetsOurs(job, RestoreAll(d, fails, BackupList(job, m)).0.files)
    decreases m
  {
    if m > 0 {
      var n, all := m - 1, BackupList(job, m);
      if AtTarget(job, job.T(n), n).Some? {
        assert all[..|all| - 1] == BackupList(job, n);
        if job.B(n) in d.files { RestoreOneOurs(job, d.files, m); }
        RestoreAllOurs(job, RenameFile(d, fails, job.B(n), job.T(n)).0, fails, n);
      } else {
        assert all == BackupList(job, n);
        RestoreAllOurs(job, d, fails, n);
      }
    }
  }

  lemma UndoOurs(job: Job, d: Disk, fails: nat -> bool, k: nat, m: nat)
    requires StagedApart(job) && Tracks(job, d.files, k, m)
    ensures TargetsOurs(job, Undo(d, fails, Targets(job.plan[..k]), BackupList(job, m)).0.files)
  {
    TracksOurs(job, d.files, k, m);
    hide StagedApart, Tracks, TargetsOurs, BackupsOurs;
    RemoveAllOurs(job, d, fails, Targets(job.plan[..k]), m);
    RestoreAllOurs(job, RemoveAll(d, fails, Targets(job.plan[..k])).0, fails, m);
  }

  // ---- whole publications ----

  /** Of how many files the targets had been looked after when the run ended. */
  function Reached(d: Disk, fails: nat -> bool, plan: seq<PlannedFile>, stamp: nat, k: nat): nat
    requires k <= |plan|
    decreases |plan| - k
  {
    if k == |plan| then k
    else
      var backup := RenameFile(d, fails, plan[k].target, BackupPath(plan[k].target, stamp));
      if plan[k].target in d.files && !backup.1 then k
      else
        var (d1, ok) :=
          RenameFile(if plan[k].target in d.files then backup.0 else d, fails, plan[k].staged, plan[k].target);
        if ok then Reached(d1, fails, plan, stamp, k + 1) else k + 1
  }

  /** After a completed publication everything is where the plan puts it, and the result
      lists the backups. After a rollback that is not disturbed the targets are undone as far
      as the run had come; after any they hold nothing foreign. */
  ghost predicate Ends(job: Job, fails: nat -> bool, clock: nat, r: Disk, o: Outcome, m: nat) {
    match o
    case Published(backups) =>
      m == |job.plan| && Tracks(job, r.files, m, m) && backups == BackupPaths(BackupList(job, m))
    case RolledBack(clean) =>
      && m <= |job.plan| && TargetsOurs(job, r.files)
      && (clean || (job.StagedExist() && AtMostOneFault(fails)) ==> Undone(job, r.files, m))
      && (clean ==> OnceUpTo(job, m))
  }

  lemma FaultIsPast(fails: nat -> bool, clock: nat)
    requires AtMostOneFault(fails) && fails(clock)
    ensures forall c: nat :: c >= clock + 1 ==> !fails(c)
  {
  }

  lemma FailedPut(job: Job, d: Disk, fails: nat -> bool, k: nat)
    requires StagedApart(job) && k < |job.plan| && Tracks(job, d.files, k, k + 1)
    requires !RenameFile(d, fails, job.S(k), job.T(k)).1
    ensures var (r, o) :=
              Undo(RenameFile(d, fails, job.S(k), job.T(k)).0, fails, Targets(job.plan[..k]), BackupList(job, k + 1));
            Ends(job, fails, d.clock, r, o, k + 1)
  {
    var d1 := RenameFile(d, fails, job.S(k), job.T(k)).0;
    var o := Undo(d1, fails, Targets(job.plan[..k]), BackupList(job, k + 1)).1;
    assert job.Same(d.files, job.S(k));
    hide Tracks, StagedApart, TargetsOurs;
    UndoOurs(job, d1, fails, k, k + 1);
    if o.clean || (job.StagedExist() && AtMostOneFault(fails)) {
      if o.clean { CleanMeansOnce(job, d1, fails, k, k + 1); } else { FaultIsPast(fails, d.clock); }
      UndoUndoes(job, d1, fails, k, k + 1);
    }
  }

  lemma FailedBackUp(job: Job, d: Disk, fails: nat -> bool, k: nat)
    requires StagedApart(job) && k < |job.plan| && Tracks(job, d.files, k, k) && job.T(k) in d.files
    requires !RenameFile(d, fails, job.T(k), job.B(k)).1
    ensures var (r, o) :=
              Undo(RenameFile(d, fails, job.T(k), job.B(k)).0, fails, Targets(job.plan[..k]), BackupList(job, k));
            Ends(job, fails, d.clock, r, o, k)
  {
    var d1 := RenameFile(d, fails, job.T(k), job.B(k)).0;
    var o := Undo(d1, fails, Targets(job.plan[..k]), BackupList(job, k)).1;
    hide Tracks, StagedApart, TargetsOurs;
    UndoOurs(job, d1, fails, k, k);
    if o.clean || (job.StagedExist() && AtMostOneFault(fails)) {
      if o.clean { CleanMeansOnce(job, d1, fails, k, k); } else { FaultIsPast(fails, d.clock); }
      UndoUndoes(job, d1, fails, k, k);
    }
  }

  lemma {:induction false} PublishEnds(job: Job, d: Disk, fails: nat -> bool, k: nat)
    requires StagedApart(job) && k <= |job.plan| && Tracks(job, d.files, k, k)
    ensures var (r, o) := PublishFrom(d, fails, job.plan, job.stamp, k, BackupList(job, k));
            Ends(job, fails, d.clock, r, o, Reached(d, fails, job.plan, job.stamp, k))
    decreases |job.plan| - k
  {
    hide StagedApart, Tracks, AtMostOneFault, TargetsOurs;
    if k < |job.plan| {
      TracksBackUp(job, d.files, k);
      var (d1, ok) := RenameFile(d, fails, job.T(k), job.B(k));
      if job.T(k) in d.files && !ok {
        FailedBackUp(job, d, fails, k);
      } else {
        var d2 := if job.T(k) in d.files then d1 else d;
        var (d3, put) := RenameFile(d2, fails, job.S(k), job.T(k));
        assert BackupList(job, k) + [] == BackupList(job, k);
        if put {
          TracksPut(job, d2.files, k);
          PublishEnds(job, d3, fails, k + 1);
        } else {
          FailedPut(job, d2, fails, k);
        }
      }
    }
  }

  /** How any publication ends, completed or rolled back. */
  lemma PublicationEnds(job: Job, d: Disk, fails: nat -> bool)
    requires StagedApart(job) && d.files == job.before
    ensures var (r, o) := Publish(d, fails, job.plan, job.stamp);
            Ends(job, fails, d.clock, r, o, Reached(d, fails, job.plan, job.stamp, 0))
  {
    TracksStart(job);
    PublishEnds(job, d, fails, 0);
  }

  /** Whatever fails, the rollback's own steps included, and whatever lay at the backup paths:
      each target ends with what it held before, with what was staged for it, or with nothing. */
  lemma TargetsHoldNothingForeign(job: Job, d: Disk, fails: nat -> bool)
    requires StagedApart(job) && d.files == job.before
    ensures TargetsOurs(job, Publish(d, fails, job.plan, job.stamp).0.files)
  {
    PublicationEnds(job, d, fails);
    var (r, o) := Publish(d, fails, job.plan, job.stamp);
    if o.Published? { TracksOurs(job, r.files, |job.plan|, |job.plan|); }
  }

  // ---- completed publications ----

  /** No file after `j` has the target of `j`. */
  predicate LastForTarget(job: Job, j: nat)
    requires j < |job.plan|
  {
    forall i: nat :: j < i < |job.plan| ==> job.T(i) != job.T(j)
  }

  lemma {:induction false} LastIsAtTarget(job: Job, j: nat, k: nat)
    requires j < k <= |job.plan| && forall i: nat :: j < i < k ==> job.T(i) != job.T(j)
    ensures AtTarget(job, job.T(j), k) == At(job.before, job.S(j))
  {
    if j < k - 1 { LastIsAtTarget(job, j, k - 1); }
  }

  /** Whatever was there before, backups of the same second included, and even if the plan
      names targets twice: after a completed publication each target holds the file planned
      last for it. */
  lemma LastFileWins(job: Job, d: Disk, fails: nat -> bool, j: nat)
    requires StagedApart(job) && d.files == job.before && j < |job.plan| && LastForTarget(job, j)
    requires Publish(d, fails, job.plan, job.stamp).1.Published?
    ensures var f := Publish(d, fails, job.plan, job.stamp).0.files;
            job.S(j) in job.before && At(f, job.T(j)) == Some(job.before[job.S(j)])
  {
    PublicationEnds(job, d, fails);
    LastIsAtTarget(job, j, |job.plan|);
    assert TracksFile(job, Publish(d, fails, job.plan, job.stamp).0.files, |job.plan|, |job.plan|, j);
  }

  lemma {:induction false} ListedBackups(job: Job, j: nat, m: nat)
    requires j < |job.plan| && m <= |job.plan|
    ensures job.B(j) in BackupPaths(BackupList(job, m)) <==> BackedUp(job, job.T(j), m)
  {
    if m > 0 {
      var n := m - 1;
      ListedBackups(job, j, n);
      BackupsFollowTargets(job, j, n);
      var before, all := BackupPaths(BackupList(job, n)), BackupPaths(BackupList(job, m));
      if AtTarget(job, job.T(n), n).Some? { assert all == before + [job.B(n)]; } else { assert all == before; }
    }
  }

  /** For any plan, and whatever lay at the backup paths: the list that a completed publication
      returns has, in plan order, one entry for each file that found something to replace, and
      so exactly the backup paths that hold something replaced. */
  lemma ListNamesTheBackups(job: Job, d: Disk, fails: nat -> bool, j: nat)
    requires StagedApart(job) && d.files == job.before && j < |job.plan|
    requires Publish(d, fails, job.plan, job.stamp).1.Published?
    ensures var (r, o) := Publish(d, fails, job.plan, job.stamp);
            && |o.backups| == |BackupList(job, |job.plan|)|
            && (forall i :: 0 <= i < |o.backups| ==> o.backups[i] == BackupList(job, |job.plan|)[i].backup)
            && (job.B(j) in o.backups <==> BackedUp(job, job.T(j), |job.plan|))
            && (job.B(j) in o.backups ==> At(r.files, job.B(j)) == AtBackup(job, job.T(j), |job.plan|))
            && (job.B(j) !in o.backups ==> job.Same(r.files, job.B(j)))
  {
    PublicationEnds(job, d, fails);
    ListedBackups(job, j, |job.plan|);
    assert TracksFile(job, Publish(d, fails, job.plan, job.stamp).0.files, |job.plan|, |job.plan|, j);
    if !BackedUp(job, job.T(j), |job.plan|) { NeverBackedUp(job, job.T(j), |job.plan|); }
  }

  /** The original of a target survives a completed publication exactly when the plan puts
      it back, or the last replacement of the target still found it. */
  lemma OriginalIsKeptExactly(job: Job, d: Disk, fails: nat -> bool, j: nat)
    requires StagedApart(job) && d.files == job.before && j < |job.plan| && job.Existed(j)
    requires Publish(d, fails, job.plan, job.stamp).1.Published?
    ensures var f := Publish(d, fails, job.plan, job.stamp).0.files;
            var original := Some(job.before[job.T(j)]);
            job.Home(f, j) || job.Stored(f, j) <==>
            AtTarget(job, job.T(j), |job.plan|) == original || AtBackup(job, job.T(j), |job.plan|) == original
  {
    PublicationEnds(job, d, fails);
    assert TracksFile(job, Publish(d, fails, job.plan, job.stamp).0.files, |job.plan|, |job.plan|, j);
    hide Publish, AtTarget, AtBackup;
  }

  /** With one file for the target the original is what that file replaced. */
  lemma {:induction false} OneFile(job: Job, p: Path, j: nat, m: nat)
    requires m <= |job.plan| && forall i: nat :: i < m && job.T(i) == p ==> i == j
    ensures BackedUp(job, p, m) <==> j < m && job.T(j) == p && p in job.before
    ensures BackedUp(job, p, m) ==> AtBackup(job, p, m) == At(job.before, p)
    ensures !(j < m && job.T(j) == p) ==> AtTarget(job, p, m) == At(job.before, p)
  {
    if m > 0 { OneFile(job, p, j, m - 1); }
  }

  /** With a second file for the target it is the latter. */
  lemma {:induction false} SecondBackupHolds(job: Job, i: nat, j: nat, m: nat)
    requires i < j < m <= |job.plan| && job.T(i) == job.T(j) && job.StagedExist()
    ensures FromPlan(job, job.T(j), AtBackup(job, job.T(j), m))
  {
    var p := job.T(j);
    if job.T(m - 1) == p {
      assert i < m - 1 && Named(job, p, m - 1);
      NamedHoldsStaged(job, p, m - 1);
      var l: nat :| l < |job.plan| && job.T(l) == p && AtTarget(job, p, m - 1) == At(job.before, job.S(l));
      assert job.S(l) in job.before;
    } else {
      SecondBackupHolds(job, i, j, m - 1);
    }
  }

  /** As long as every staged file differs from what it replaces, the original is kept if
      and only if the plan names its target once. */
  lemma NamedOnceExactly(job: Job, d: Disk, fails: nat -> bool, j: nat)
    requires StagedApart(job) && d.files == job.before && j < |job.plan| && job.Existed(j)
    requires forall i: nat :: i < |job.plan| && job.T(i) == job.T(j) ==>
               At(job.before, job.S(i)) != At(job.before, job.T(j))
    requires Publish(d, fails, job.plan, job.stamp).1.Published?
    ensures var f := Publish(d, fails, job.plan, job.stamp).0.files;
            job.Home(f, j) || job.Stored(f, j) <==>
            forall i: nat :: i < |job.plan| && job.T(i) == job.T(j) ==> i == j
  {
    var p, n := job.T(j), |job.plan|;
    OriginalIsKeptExactly(job, d, fails, j);
    PublicationEnds(job, d, fails);
    assert job.StagedExist();
    hide Publish;
    NamedHoldsStaged(job, p, n);
    if i: nat :| i < n && job.T(i) == p && i != j {
      SecondBackupHolds(job, if i < j then i else j, if i < j then j else i, n);
    } else {
      OneFile(job, p, j, n);
    }
  }

  // ---- rolled back publications ----

  ghost predicate TargetsAsBefore(job: Job, files: Files) {
    forall j: nat :: j < |job.plan| ==> job.Same(files, job.T(j))
  }

  /** A rollback all of whose steps succeed, or that follows a single fault, puts the targets
      back exactly when each backup still holds its original; and it keeps all other files
      exactly when no backup was made over one of them, because a backup goes home again. */
  lemma RollbackKeepsExactly(job: Job, d: Disk, fails: nat -> bool)
    requires StagedApart(job) && d.files == job.before
    requires var o := Publish(d, fails, job.plan, job.stamp).1;
             o.RolledBack? && (o.clean || (job.StagedExist() && AtMostOneFault(fails)))
    ensures var f := Publish(d, fails, job.plan, job.stamp).0.files;
            var m := Reached(d, fails, job.plan, job.stamp, 0);
            && m <= |job.plan|
            && (TargetsAsBefore(job, f) <==>
                forall j: nat :: j < |job.plan| && BackedUp(job, job.T(j), m) ==>
                  AtBackup(job, job.T(j), m) == At(job.before, job.T(j)))
            && (BystandersSame(job, f) <==>
                forall j: nat :: j < |job.plan| && BackedUp(job, job.T(j), m) ==> job.B(j) !in job.before)
  {
    PublicationEnds(job, d, fails);
    OtherPathsNeverChange(job, d, fails);
    var f := Publish(d, fails, job.plan, job.stamp).0.files;
    var m := Reached(d, fails, job.plan, job.stamp, 0);
    hide Publish, Reached, AtTarget, AtBackup, BackedUp;
    TargetsExactly(job, f, m);
    BystandersExactly(job, f, m);
  }

  lemma OnceHoldsOriginal(job: Job, p: Path, m: nat)
    requires OnceUpTo(job, m) && BackedUp(job, p, m)
    ensures AtBackup(job, p, m) == At(job.before, p)
  {
    BackedUpIsThere(job, p, m);
    var j: nat :| j < m && job.T(j) == p;
    OneFile(job, p, j, m);
  }

  /** After a clean rollback every target is as before, whatever the plan and the backups. */
  lemma CleanRollbackRestoresTargets(job: Job, d: Disk, fails: nat -> bool)
    requires StagedApart(job) && d.files == job.before
    requires Publish(d, fails, job.plan, job.stamp).1 == RolledBack(true)
    ensures TargetsAsBefore(job, Publish(d, fails, job.plan, job.stamp).0.files)
  {
    PublicationEnds(job, d, fails);
    RollbackKeepsExactly(job, d, fails);
    var m := Reached(d, fails, job.plan, job.stamp, 0);
    hide Publish, Reached, AtTarget, AtBackup, BackedUp;
    forall j: nat | j < |job.plan| && BackedUp(job, job.T(j), m)
      ensures AtBackup(job, job.T(j), m) == At(job.before, job.T(j))
    {
      OnceHoldsOriginal(job, job.T(j), m);
    }
  }

  lemma TargetsExactly(job: Job, f: Files, m: nat)
    requires Undone(job, f, m)
    ensures TargetsAsBefore(job, f) <==>
            forall j: nat :: j < |job.plan| && BackedUp(job, job.T(j), m) ==>
              AtBackup(job, job.T(j), m) == At(job.before, job.T(j))
  {
    hide BackedUp, AtBackup;
    forall j: nat | j < |job.plan|
      ensures job.Same(f, job.T(j)) <==>
        (BackedUp(job, job.T(j), m) ==> AtBackup(job, job.T(j), m) == At(job.before, job.T(j)))
    {
      assert UndoneFile(job, f, m, j);
    }
  }

  lemma BystandersExactly(job: Job, f: Files, m: nat)
    requires StagedApart(job) && Undone(job, f, m) && OthersSame(job, f)
    ensures BystandersSame(job, f) <==>
            forall j: nat :: j < |job.plan| && BackedUp(job, job.T(j), m) ==> job.B(j) !in job.before
  {
    hide BackedUp, AtBackup;
    if forall j: nat :: j < |job.plan| && BackedUp(job, job.T(j), m) ==> job.B(j) !in job.before {
      forall p: Path | p in job.before && (forall j: nat :: j < |job.plan| ==> p != job.T(j) && p != job.S(j))
        ensures job.Same(f, p)
      {
        if job.Touched(p) {
          var j: nat :| j < |job.plan| && (p == job.T(j) || p == job.S(j) || p == job.B(j));
          assert UndoneFile(job, f, m, j);
        }
      }
    }
    if BystandersSame(job, f) {
      forall j: nat | j < |job.plan| && BackedUp(job, job.T(j), m) ensures job.B(j) !in job.before {
        assert UndoneFile(job, f, m, j);
        forall i: nat | i < |job.plan| ensures job.B(j) != job.T(i) && job.B(j) != job.S(i) {
          assert StagedPairApart(job, j, i);
        }
        assert job.B(j) in job.before ==> job.Same(f, job.B(j));
      }
    }
  }

  // ---- a fault at a chosen file ----

  /** The disk after one more file, when nothing fails. */
  function NextDisk(d: Disk, file: PlannedFile, stamp: nat): Disk {
    var d1 :=
      if file.target in d.files then Tick(d, Moved(d.files, file.target, BackupPath(file.target, stamp))) else d;
    if file.staged in d1.files then Tick(d1, Moved(d1.files, file.staged, file.target)) else d1
  }

  lemma OneMoreFile(job: Job, d: Disk, fails: nat -> bool, k: nat)
    requires StagedApart(job) && job.StagedExist() && k < |job.plan| && Tracks(job, d.files, k, k)
    requires forall c: nat :: d.clock <= c < NextDisk(d, job.plan[k], job.stamp).clock ==> !fails(c)
    ensures var next := NextDisk(d, job.plan[k], job.stamp);
            && Tracks(job, next.files, k + 1, k + 1) && d.clock < next.clock <= d.clock + 2
            && PublishFrom(d, fails, job.plan, job.stamp, k, BackupList(job, k))
               == PublishFrom(next, fails, job.plan, job.stamp, k + 1, BackupList(job, k + 1))
            && Reached(d, fails, job.plan, job.stamp, k) == Reached(next, fails, job.plan, job.stamp, k + 1)
  {
    hide StagedApart, Tracks;
    TracksBackUp(job, d.files, k);
    var d1 := if job.T(k) in d.files then RenameFile(d, fails, job.T(k), job.B(k)).0 else d;
    StagedIsThere(job, d1.files, k);
    TracksPut(job, d1.files, k);
    assert BackupList(job, k) + [] == BackupList(job, k);
  }

  lemma StagedIsThere(job: Job, files: Files, k: nat)
    requires k < |job.plan| && Tracks(job, files, k, k + 1) && job.StagedExist()
    ensures job.S(k) in files
  {
    assert job.Same(files, job.S(k));
  }

  /** When file `k` is put in place. */
  function PutClock(job: Job, d: Disk, k: nat): nat
    requires k < |job.plan|
  {
    d.clock + if AtTarget(job, job.T(k), k).Some? then 1 else 0
  }

  /** A single fault at the second half of file `k`. */
  lemma FaultAtFile(job: Job, d: Disk, fails: nat -> bool, k: nat)
    requires StagedApart(job) && k < |job.plan| && Tracks(job, d.files, k, k)
    requires forall c: nat :: c >= d.clock ==> (fails(c) <==> c == PutClock(job, d, k))
    ensures PublishFrom(d, fails, job.plan, job.stamp, k, BackupList(job, k)).1.RolledBack?
    ensures Reached(d, fails, job.plan, job.stamp, k) == k + 1
  {
    TracksBackUp(job, d.files, k);
    hide StagedApart, Tracks;
  }

  /** The disk after the first `k` files, when nothing fails. */
  function DiskAfter(d: Disk, plan: seq<PlannedFile>, stamp: nat, k: nat): Disk
    requires k <= |plan|
  {
    if k == 0 then d else NextDisk(DiskAfter(d, plan, stamp, k - 1), plan[k - 1], stamp)
  }

  lemma {:induction false} FirstFiles(job: Job, d: Disk, fails: nat -> bool, k: nat)
    requires StagedApart(job) && job.StagedExist() && k <= |job.plan| && d.files == job.before
    requires forall c: nat :: c < DiskAfter(d, job.plan, job.stamp, k).clock ==> !fails(c)
    ensures var dk := DiskAfter(d, job.plan, job.stamp, k);
            && Tracks(job, dk.files, k, k)
            && Publish(d, fails, job.plan, job.stamp)
               == PublishFrom(dk, fails, job.plan, job.stamp, k, BackupList(job, k))
            && Reached(d, fails, job.plan, job.stamp, 0) == Reached(dk, fails, job.plan, job.stamp, k)
    decreases k
  {
    if k == 0 {
      TracksStart(job);
      hide PublishFrom, Reached, Tracks;
      assert BackupList(job, 0) == [];
    } else {
      var before := DiskAfter(d, job.plan, job.stamp, k - 1);
      hide StagedApart, Tracks, NextDisk, PublishFrom, Reached, BackupList, Publish;
      QuietFiles(job, d, k - 1);
      NextClock(job, before, k - 1);
      FirstFiles(job, d, fails, k - 1);
      OneMoreFile(job, before, fails, k - 1);
    }
  }

  lemma {:induction false} QuietFiles(job: Job, d: Disk, k: nat)
    requires StagedApart(job) && job.StagedExist() && k <= |job.plan| && d.files == job.before
    ensures Tracks(job, DiskAfter(d, job.plan, job.stamp, k).files, k, k)
    decreases k
  {
    hide StagedApart, NextDisk;
    if k == 0 {
      TracksStart(job);
    } else {
      QuietFiles(job, d, k - 1);
      hide Tracks;
      NextClock(job, DiskAfter(d, job.plan, job.stamp, k - 1), k - 1);
    }
  }

  lemma NextClock(job: Job, d: Disk, k: nat)
    requires StagedApart(job) && job.StagedExist() && k < |job.plan| && Tracks(job, d.files, k, k)
    ensures var next := NextDisk(d, job.plan[k], job.stamp);
            d.clock < next.clock && Tracks(job, next.files, k + 1, k + 1)
  {
    hide StagedApart, Tracks, NextDisk, PublishFrom, Reached;
    OneMoreFile(job, d, c => false, k);
  }

  /** The single fault that lets file `k` back its target up and keeps it from being put. */
  lemma FaultInFile(job: Job, d: Disk, fails: nat -> bool, k: nat)
    requires StagedApart(job) && job.StagedExist() && k < |job.plan| && d.files == job.before
    requires forall c: nat :: fails(c) <==> c == PutClock(job, DiskAfter(d, job.plan, job.stamp, k), k)
    ensures Publish(d, fails, job.plan, job.stamp).1.RolledBack?
    ensures Reached(d, fails, job.plan, job.stamp, 0) == k + 1
  {
    hide StagedApart, Tracks, AtTarget, PublishFrom, Reached, BackupList, DiskAfter, Publish;
    FirstFiles(job, d, fails, k);
    FaultAtFile(job, DiskAfter(d, job.plan, job.stamp, k), fails, k);
  }

  /** Repeated targets do not stop a publication: without faults it completes. */
  lemma FaultFreeCompletes(job: Job, d: Disk, fails: nat -> bool)
    requires StagedApart(job) && job.StagedExist() && d.files == job.before && forall c: nat :: !fails(c)
    ensures Publish(d, fails, job.plan, job.stamp).1.Published?
  {
    hide StagedApart, Tracks, Reached, BackupList, DiskAfter, Publish;
    FirstFiles(job, d, fails, |job.plan|);
  }

  // ---- all single faults ----

  ghost predicate UndoneByOneFault(job: Job, d: Disk, fails: nat -> bool) {
    AtMostOneFault(fails) && Publish(d, fails, job.plan, job.stamp).1.RolledBack?
  }

  /** A file whose target is named again later has nothing new for it. */
  ghost predicate RepeatsFindOriginal(job: Job) {
    forall i: nat, j: nat :: i < j < |job.plan| && job.T(i) == job.T(j) ==>
      At(job.before, job.S(i)) == At(job.before, job.T(i))
  }

  /** The backup paths are free of all targets that are there or are named again. */
  ghost predicate UsedBackupsFree(job: Job) {
    forall j: nat :: j < |job.plan| && (job.Existed(j) || Named(job, job.T(j), j)) ==> job.B(j) !in job.before
  }

  lemma {:induction false} HoldsOriginal(job: Job, p: Path, k: nat)
    requires k <= |job.plan|
    requires forall i: nat :: i < k && job.T(i) == p ==> At(job.before, job.S(i)) == At(job.before, p)
    ensures AtTarget(job, p, k) == At(job.before, p)
  {
    if k > 0 { HoldsOriginal(job, p, k - 1); }
  }

  lemma {:induction false} BackupsFindOriginal(job: Job, p: Path, m: nat)
    requires RepeatsFindOriginal(job) && m <= |job.plan| && BackedUp(job, p, m)
    ensures AtBackup(job, p, m) == At(job.before, p)
  {
    if job.T(m - 1) == p && AtTarget(job, p, m - 1).Some? {
      HoldsOriginal(job, p, m - 1);
    } else {
      BackupsFindOriginal(job, p, m - 1);
    }
  }

  lemma {:induction false} SomeAtTarget(job: Job, p: Path, k: nat)
    requires job.StagedExist() && k <= |job.plan|
    ensures AtTarget(job, p, k).Some? <==> p in job.before || Named(job, p, k)
  {
    if k > 0 {
      SomeAtTarget(job, p, k - 1);
      if Named(job, p, k - 1) { NamedStays(job, p, k - 1, k); }
      if job.T(k - 1) == p {
        assert Named(job, p, k);
      } else if Named(job, p, k) {
        var i: nat :| i < k && job.T(i) == p;
        assert i < k - 1;
      }
    }
  }

  lemma {:induction false} WhoBackedUp(job: Job, p: Path, m: nat) returns (i: nat)
    requires m <= |job.plan| && BackedUp(job, p, m)
    ensures i < m && job.T(i) == p && AtTarget(job, p, i).Some?
  {
    i := m - 1;
    if !(job.T(i) == p && AtTarget(job, p, i).Some?) { i := WhoBackedUp(job, p, i); }
  }

  /** The next file with the target of `i`. */
  lemma NextForTarget(job: Job, i: nat, j: nat) returns (l: nat)
    requires i < j < |job.plan| && job.T(i) == job.T(j)
    ensures i < l <= j && job.T(l) == job.T(i) && forall x: nat :: i < x < l ==> job.T(x) != job.T(i)
    decreases j
  {
    l := j;
    if x: nat :| i < x < j && job.T(x) == job.T(i) { l := NextForTarget(job, i, x); }
  }

  /** The fault that keeps file `k` from being put, and what it leaves. */
  lemma FaultFor(job: Job, d: Disk, k: nat) returns (fails: nat -> bool)
    requires StagedApart(job) && job.StagedExist() && k < |job.plan| && d.files == job.before
    requires AtTarget(job, job.T(k), k).Some?
    ensures UndoneByOneFault(job, d, fails)
    ensures var f := Publish(d, fails, job.plan, job.stamp).0.files;
            && (TargetsAsBefore(job, f) ==> AtTarget(job, job.T(k), k) == At(job.before, job.T(k)))
            && (BystandersSame(job, f) ==> job.B(k) !in job.before)
  {
    var at := PutClock(job, DiskAfter(d, job.plan, job.stamp, k), k);
    fails := (c: nat) => c == at;
    FaultInFile(job, d, fails, k);
    BackupOfLast(job, k);
    hide Publish, Reached, StagedApart, AtTarget, AtBackup, BackedUp, TargetsAsBefore, BystandersSame, BackupPath;
    FaultLeaves(job, d, fails, k);
  }

  lemma FaultLeaves(job: Job, d: Disk, fails: nat -> bool, k: nat)
    requires StagedApart(job) && job.StagedExist() && k < |job.plan| && d.files == job.before
    requires UndoneByOneFault(job, d, fails) && Reached(d, fails, job.plan, job.stamp, 0) == k + 1
    requires BackedUp(job, job.T(k), k + 1)
    ensures var f := Publish(d, fails, job.plan, job.stamp).0.files;
            && (TargetsAsBefore(job, f) ==> AtBackup(job, job.T(k), k + 1) == At(job.before, job.T(k)))
            && (BystandersSame(job, f) ==> job.B(k) !in job.before)
  {
    hide Publish, Reached, StagedApart, AtTarget, AtBackup, BackedUp, TargetsAsBefore, BystandersSame;
    RollbackKeepsExactly(job, d, fails);
  }

  lemma BackupOfLast(job: Job, k: nat)
    requires k < |job.plan| && AtTarget(job, job.T(k), k).Some?
    ensures BackedUp(job, job.T(k), k + 1) && AtBackup(job, job.T(k), k + 1) == AtTarget(job, job.T(k), k)
  {
  }

  /** What a publication can promise of a single fault, in terms of plan and files alone: every
      rollback it causes puts all targets back exactly when no file brings something new to a
      target that is named again, and keeps all other files exactly when no backup path that
      is used was taken. */
  lemma SingleFaultsKeepExactly(job: Job, d: Disk)
    requires StagedApart(job) && job.StagedExist() && d.files == job.before
    ensures (forall fails: nat -> bool :: UndoneByOneFault(job, d, fails) ==>
               TargetsAsBefore(job, Publish(d, fails, job.plan, job.stamp).0.files)) <==> RepeatsFindOriginal(job)
    ensures (forall fails: nat -> bool :: UndoneByOneFault(job, d, fails) ==>
               BystandersSame(job, Publish(d, fails, job.plan, job.stamp).0.files)) <==> UsedBackupsFree(job)
  {
    forall fails: nat -> bool | UndoneByOneFault(job, d, fails)
      ensures var f := Publish(d, fails, job.plan, job.stamp).0.files;
              && (RepeatsFindOriginal(job) ==> TargetsAsBefore(job, f))
              && (UsedBackupsFree(job) ==> BystandersSame(job, f))
    {
      OneFaultKeeps(job, d, fails);
    }
    if !RepeatsFindOriginal(job) {
      var i: nat, j: nat :| i < j < |job.plan| && job.T(i) == job.T(j)
        && At(job.before, job.S(i)) != At(job.before, job.T(i));
      var l := NextForTarget(job, i, j);
      LastIsAtTarget(job, i, l);
      var fails := FaultFor(job, d, l);
    }
    if !UsedBackupsFree(job) {
      var j: nat :| j < |job.plan| && (job.Existed(j) || Named(job, job.T(j), j)) && job.B(j) in job.before;
      SomeAtTarget(job, job.T(j), j);
      var fails := FaultFor(job, d, j);
    }
  }

  lemma OneFaultKeeps(job: Job, d: Disk, fails: nat -> bool)
    requires StagedApart(job) && job.StagedExist() && d.files == job.before && UndoneByOneFault(job, d, fails)
    ensures var f := Publish(d, fails, job.plan, job.stamp).0.files;
            (RepeatsFindOriginal(job) ==> TargetsAsBefore(job, f)) && (UsedBackupsFree(job) ==> BystandersSame(job, f))
  {
    RollbackKeepsExactly(job, d, fails);
    var m := Reached(d, fails, job.plan, job.stamp, 0);
    hide Publish, Reached, AtTarget, AtBackup, BackedUp, RepeatsFindOriginal;
    forall j: nat | j < |job.plan| && BackedUp(job, job.T(j), m)
      ensures RepeatsFindOriginal(job) ==> AtBackup(job, job.T(j), m) == At(job.before, job.T(j))
      ensures UsedBackupsFree(job) ==> job.B(j) !in job.before
    {
      if RepeatsFindOriginal(job) { BackupsFindOriginal(job, job.T(j), m); }
      var i := WhoBackedUp(job, job.T(j), m);
      SomeAtTarget(job, job.T(i), i);
      assert job.B(i) == job.B(j);
    }
  }
}
