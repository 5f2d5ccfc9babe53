/** What a publication guarantees (`src/cli/atomic.rs`), whatever operations fail. */
module PublishProofs {
  import opened Wrappers
  import opened AtomicPublish
  import Decimal

  /** One publication: the files before it, the plan and the time stamp. */
  datatype Job = Job(before: Files, plan: seq<PlannedFile>, stamp: nat) {
    function T(j: nat): Path requires j < |plan| { plan[j].target }
    function S(j: nat): Path requires j < |plan| { plan[j].staged }
    function B(j: nat): Path requires j < |plan| { BackupPath(plan[j].target, stamp) }

    predicate Existed(j: nat) requires j < |plan| { T(j) in before }

    /** The target holds its original content. */
    predicate Home(files: Files, j: nat) requires j < |plan| && Existed(j) {
      T(j) in files && files[T(j)] == before[T(j)]
    }

    /** The backup holds the original content of the target. */
    predicate Stored(files: Files, j: nat) requires j < |plan| && Existed(j) {
      B(j) in files && files[B(j)] == before[T(j)]
    }

    predicate Same(files: Files, p: Path) {
      (p in files <==> p in before) && (p in files ==> files[p] == before[p])
    }

    ghost predicate Touched(p: Path) {
      exists j: nat :: j < |plan| && (p == T(j) || p == S(j) || p == B(j))
    }

    /** Targets and staged files are distinct, and no backup path is one of them. */
    ghost predicate Apart() {
      && (forall i: nat, j: nat :: i < j < |plan| ==> T(i) != T(j) && S(i) != S(j))
      && (forall i: nat, j: nat :: i < |plan| && j < |plan| ==> S(i) != T(j) && B(i) != T(j) && B(i) != S(j))
    }

    /** No backup path is taken. */
    ghost predicate FreshBackups() {
      forall j: nat :: j < |plan| ==> B(j) !in before
    }

    ghost predicate StagedExist() {
      forall j: nat :: j < |plan| ==> S(j) in before
    }
  }

  lemma BackupPathsDiffer(job: Job, i: nat, j: nat)
    requires job.Apart() && i < |job.plan| && j < |job.plan| && i != j
    ensures job.B(i) != job.B(j)
  {
    var tail := ".bak." + Decimal.Print(job.stamp);
    var a, b := job.T(i), job.T(j);
    assert a != b;
    if a.name + tail == b.name + tail {
      assert |a.name| == |b.name|;
      assert (a.name + tail)[..|a.name|] == a.name && (b.name + tail)[..|b.name|] == b.name;
    }
    assert job.B(i).name == a.name + tail && job.B(j).name == b.name + tail;
  }

  /** The backups of the first `n` files of the plan: those whose target existed, in order. */
  function BackupsTo(job: Job, n: nat): seq<Backup>
    requires n <= |job.plan|
  {
    if n == 0 then []
    else BackupsTo(job, n - 1) + (if job.Existed(n - 1) then [Backup(job.T(n - 1), job.B(n - 1))] else [])
  }

  // ---- other paths ----

  /** Paths outside the plan are as they were. */
  ghost predicate OthersSame(job: Job, files: Files) {
    forall p: Path :: !job.Touched(p) ==> job.Same(files, p)
  }

  /** The same for the disk and for every state logged since entry `n`. */
  ghost predicate OthersKept(job: Job, d: Disk, n: nat) {
    OthersSame(job, d.files) && forall i :: n <= i < |d.log| ==> OthersSame(job, d.log[i])
  }

  lemma TickOthers(job: Job, d: Disk, files: Files, n: nat)
    requires OthersKept(job, d, n) && OthersSame(job, files)
    ensures OthersKept(job, Tick(d, files), n)
  {
  }

  lemma RenameOthers(job: Job, d: Disk, fails: nat -> bool, src: Path, dst: Path, n: nat)
    requires OthersKept(job, d, n) && job.Touched(src) && job.Touched(dst)
    ensures OthersKept(job, RenameFile(d, fails, src, dst).0, n)
  {
    if src in d.files {
      assert OthersSame(job, Moved(d.files, src, dst));
      TickOthers(job, d, Moved(d.files, src, dst), n);
    }
    TickOthers(job, d, d.files, n);
  }

  lemma {:induction false} RemoveAllOthers(job: Job, d: Disk, fails: nat -> bool, targets: seq<Path>, n: nat)
    requires OthersKept(job, d, n) && forall p :: p in targets ==> job.Touched(p)
    ensures OthersKept(job, RemoveAll(d, fails, targets).0, n)
    decreases |targets|
  {
    if targets != [] {
      var last := |targets| - 1;
      assert targets[last] in targets;
      var (d1, ok) := RemoveFile(d, fails, targets[last]);
      TickOthers(job, d, d1.files, n);
      RemoveAllOthers(job, d1, fails, targets[..last], n);
    }
  }

  ghost predicate OfPlan(job: Job, backups: seq<Backup>) {
    forall b :: b in backups ==> job.Touched(b.target) && job.Touched(b.backup)
  }

  lemma {:induction false} RestoreAllOthers(job: Job, d: Disk, fails: nat -> bool, backups: seq<Backup>, n: nat)
    requires OthersKept(job, d, n) && OfPlan(job, backups)
    ensures OthersKept(job, RestoreAll(d, fails, backups).0, n)
    decreases |backups|
  {
    if backups != [] {
      var last := backups[|backups| - 1];
      assert last in backups;
      RenameOthers(job, d, fails, last.backup, last.target, n);
      RestoreAllOthers(job, RenameFile(d, fails, last.backup, last.target).0, fails, backups[..|backups| - 1], n);
    }
  }

  lemma UndoOthers(job: Job, d: Disk, fails: nat -> bool, k: nat, backups: seq<Backup>, n: nat)
    requires OthersKept(job, d, n) && k <= |job.plan| && OfPlan(job, backups)
    ensures OthersKept(job, Undo(d, fails, Targets(job.plan[..k]), backups).0, n)
  {
    hide OthersKept;
    var targets := Targets(job.plan[..k]);
    forall p | p in targets ensures job.Touched(p) {
      var i: nat :| i < |targets| && targets[i] == p;
      assert p == job.T(i);
    }
    RemoveAllOthers(job, d, fails, targets, n);
    RestoreAllOthers(job, RemoveAll(d, fails, targets).0, fails, backups, n);
  }

  lemma {:induction false} PublishOneOthers(job: Job, d: Disk, fails: nat -> bool, k: nat, backups: seq<Backup>, n: nat)
    requires OthersKept(job, d, n) && k < |job.plan| && OfPlan(job, backups)
    ensures OthersKept(job, PublishOne(d, fails, job.plan, job.stamp, k, backups).0, n)
    decreases |job.plan| - k, 0
  {
    assert job.Touched(job.S(k)) && job.Touched(job.T(k));
    hide OthersKept;
    RenameOthers(job, d, fails, job.S(k), job.T(k), n);
    var (d1, ok) := RenameFile(d, fails, job.S(k), job.T(k));
    if ok {
      PublishFromOthers(job, d1, fails, k + 1, backups, n);
    } else {
      UndoOthers(job, d1, fails, k, backups, n);
    }
  }

  lemma {:induction false} PublishFromOthers(
      job: Job, d: Disk, fails: nat -> bool, k: nat, backups: seq<Backup>, n: nat)
    requires OthersKept(job, d, n) && k <= |job.plan| && OfPlan(job, backups)
    ensures OthersKept(job, PublishFrom(d, fails, job.plan, job.stamp, k, backups).0, n)
    decreases |job.plan| - k
  {
    hide OthersKept;
    if k < |job.plan| {
      if job.T(k) in d.files {
        assert job.Touched(job.T(k)) && job.Touched(job.B(k));
        RenameOthers(job, d, fails, job.T(k), job.B(k), n);
        var (d1, ok) := RenameFile(d, fails, job.T(k), job.B(k));
        if ok {
          PublishOneOthers(job, d1, fails, k, backups + [Backup(job.T(k), job.B(k))], n);
        } else {
          UndoOthers(job, d1, fails, k, backups, n);
        }
      } else {
        PublishOneOthers(job, d, fails, k, backups, n);
      }
    }
  }

  /** No publication, completed, rolled back or rolled back in part, and no state it passes
      through changes a path that is not a target, a staged file or a backup of the plan. */
  lemma OtherPathsNeverChange(job: Job, d: Disk, fails: nat -> bool)
    requires OthersSame(job, d.files)
    ensures OthersKept(job, Publish(d, fails, job.plan, job.stamp).0, |d.log|)
  {
    PublishFromOthers(job, d, fails, 0, [], |d.log|);
  }

  // ---- nothing is ever lost ----

  /** Every original content is still at its target or at its backup. */
  ghost predicate Recoverable(job: Job, files: Files) {
    forall j: nat :: j < |job.plan| && job.Existed(j) ==> job.Home(files, j) || job.Stored(files, j)
  }

  ghost predicate AllRecoverable(job: Job, d: Disk) {
    Recoverable(job, d.files) && forall i :: 0 <= i < |d.log| ==> Recoverable(job, d.log[i])
  }

  /** The first `n` originals are at their backups, the others at home. */
  ghost predicate Split(job: Job, files: Files, n: nat) {
    forall j: nat :: j < |job.plan| && job.Existed(j) ==> if j < n then job.Stored(files, j) else job.Home(files, j)
  }

  lemma TickRecoverable(job: Job, d: Disk, files: Files)
    requires AllRecoverable(job, d) && Recoverable(job, files)
    ensures AllRecoverable(job, Tick(d, files))
  {
  }

  lemma SplitRecoverable(job: Job, files: Files, n: nat)
    requires Split(job, files, n)
    ensures Recoverable(job, files)
  {
  }

  lemma {:induction false} RemoveAllKeeps(job: Job, d: Disk, fails: nat -> bool, m: nat, n: nat)
    requires job.Apart() && m <= n <= |job.plan| && AllRecoverable(job, d) && Split(job, d.files, n)
    ensures var r := RemoveAll(d, fails, Targets(job.plan[..m])).0; AllRecoverable(job, r) && Split(job, r.files, n)
    decreases m
  {
    if m > 0 {
      var (d1, ok) := RemoveFile(d, fails, job.T(m - 1));
      assert Targets(job.plan[..m])[..m - 1] == Targets(job.plan[..m - 1]);
      assert Targets(job.plan[..m])[m - 1] == job.T(m - 1);
      assert Split(job, d1.files, n);
      SplitRecoverable(job, d1.files, n);
      TickRecoverable(job, d, d1.files);
      RemoveAllKeeps(job, d1, fails, m - 1, n);
    }
  }

  /** Moving one backup home keeps every original somewhere. */
  lemma RestoreOneKeeps(job: Job, files: Files, n: nat)
    requires job.Apart() && n < |job.plan| && job.Existed(n) && job.Stored(files, n) && Recoverable(job, files)
    ensures Recoverable(job, Moved(files, job.B(n), job.T(n)))
    ensures forall j: nat :: j < n && job.Existed(j) && job.Stored(files, j) ==>
        job.Stored(Moved(files, job.B(n), job.T(n)), j)
  {
    var r := Moved(files, job.B(n), job.T(n));
    forall j: nat | j < |job.plan| && job.Existed(j)
      ensures job.Home(r, j) || job.Stored(r, j)
      ensures j < n && job.Stored(files, j) ==> job.Stored(r, j)
    {
      if j != n { BackupPathsDiffer(job, j, n); }
    }
  }

  lemma {:induction false} RestoreAllKeeps(job: Job, d: Disk, fails: nat -> bool, n: nat)
    requires job.Apart() && n <= |job.plan| && AllRecoverable(job, d)
    requires forall j: nat :: j < n && job.Existed(j) ==> job.Stored(d.files, j)
    ensures AllRecoverable(job, RestoreAll(d, fails, BackupsTo(job, n)).0)
    decreases n
  {
    hide Recoverable;
    if n > 0 {
      if job.Existed(n - 1) {
        var all := BackupsTo(job, n);
        assert all[..|all| - 1] == BackupsTo(job, n - 1);
        RestoreOneKeeps(job, d.files, n - 1);
        var (d1, ok) := RenameFile(d, fails, job.B(n - 1), job.T(n - 1));
        TickRecoverable(job, d, d1.files);
        RestoreAllKeeps(job, d1, fails, n - 1);
      } else {
        assert BackupsTo(job, n) == BackupsTo(job, n - 1);
        RestoreAllKeeps(job, d, fails, n - 1);
      }
    }
  }

  lemma UndoKeeps(job: Job, d: Disk, fails: nat -> bool, m: nat, n: nat)
    requires job.Apart() && m <= n <= |job.plan| && AllRecoverable(job, d) && Split(job, d.files, n)
    ensures AllRecoverable(job, Undo(d, fails, Targets(job.plan[..m]), BackupsTo(job, n)).0)
  {
    RemoveAllKeeps(job, d, fails, m, n);
    RestoreAllKeeps(job, RemoveAll(d, fails, Targets(job.plan[..m])).0, fails, n);
  }

  /** The targets still to come are as they were. */
  ghost predicate Untouched(job: Job, files: Files, k: nat) {
    forall j: nat :: k <= j < |job.plan| ==> job.Same(files, job.T(j))
  }

  lemma BackOneUp(job: Job, files: Files, k: nat)
    requires job.Apart() && k < |job.plan| && Split(job, files, k) && Untouched(job, files, k) && job.Existed(k)
    ensures Split(job, Moved(files, job.T(k), job.B(k)), k + 1)
        && Untouched(job, Moved(files, job.T(k), job.B(k)), k + 1)
  {
    var r := Moved(files, job.T(k), job.B(k));
    forall j: nat | j < |job.plan| && job.Existed(j)
      ensures if j < k + 1 then job.Stored(r, j) else job.Home(r, j)
    {
      if j != k { BackupPathsDiffer(job, j, k); }
    }
  }

  lemma PutOneInPlace(job: Job, files: Files, k: nat)
    requires job.Apart() && k < |job.plan| && Split(job, files, k + 1) && Untouched(job, files, k + 1)
        && job.S(k) in files
    ensures Split(job, Moved(files, job.S(k), job.T(k)), k + 1)
        && Untouched(job, Moved(files, job.S(k), job.T(k)), k + 1)
  {
  }

  lemma {:induction false} PublishOneKeeps(job: Job, d: Disk, fails: nat -> bool, k: nat)
    requires job.Apart() && k < |job.plan| && AllRecoverable(job, d)
    requires Split(job, d.files, k + 1) && Untouched(job, d.files, k + 1)
    ensures AllRecoverable(job, PublishOne(d, fails, job.plan, job.stamp, k, BackupsTo(job, k + 1)).0)
    decreases |job.plan| - k, 0
  {
    var (d1, ok) := RenameFile(d, fails, job.S(k), job.T(k));
    if ok {
      PutOneInPlace(job, d.files, k);
      SplitRecoverable(job, d1.files, k + 1);
      TickRecoverable(job, d, d1.files);
      PublishFromKeeps(job, d1, fails, k + 1);
    } else {
      TickRecoverable(job, d, d1.files);
      UndoKeeps(job, d1, fails, k, k + 1);
    }
  }

  lemma {:induction false} PublishFromKeeps(job: Job, d: Disk, fails: nat -> bool, k: nat)
    requires job.Apart() && k <= |job.plan| && AllRecoverable(job, d)
    requires Split(job, d.files, k) && Untouched(job, d.files, k)
    ensures AllRecoverable(job, PublishFrom(d, fails, job.plan, job.stamp, k, BackupsTo(job, k)).0)
    decreases |job.plan| - k
  {
    if k < |job.plan| {
      assert job.Same(d.files, job.T(k));
      if job.T(k) in d.files {
        var (d1, ok) := RenameFile(d, fails, job.T(k), job.B(k));
        if ok {
          BackOneUp(job, d.files, k);
          SplitRecoverable(job, d1.files, k + 1);
          TickRecoverable(job, d, d1.files);
          PublishOneKeeps(job, d1, fails, k);
        } else {
          TickRecoverable(job, d, d1.files);
          UndoKeeps(job, d1, fails, k, k);
        }
      } else {
        assert BackupsTo(job, k + 1) == BackupsTo(job, k);
        PublishOneKeeps(job, d, fails, k);
      }
    }
  }

  /** Whatever renames and removals fail, those of the rollback included, and wherever the
      process is stopped, the original content of every target that existed is at that
      target or at its backup path. */
  lemma NothingIsEverLost(job: Job, clock: nat, fails: nat -> bool)
    requires job.Apart()
    ensures AllRecoverable(job, Publish(Disk(job.before, clock, []), fails, job.plan, job.stamp).0)
  {
    PublishFromKeeps(job, Disk(job.before, clock, []), fails, 0);
  }

  // ---- all or nothing ----

  /** File `j` has been published and its old content, if any, backed up. */
  ghost predicate FileDone(job: Job, files: Files, j: nat)
    requires j < |job.plan|
  {
    && job.S(j) in job.before && job.S(j) !in files
    && job.T(j) in files && files[job.T(j)] == job.before[job.S(j)]
    && (if job.Existed(j) then job.Stored(files, j) else job.B(j) !in files)
  }

  ghost predicate FileAsBefore(job: Job, files: Files, j: nat)
    requires j < |job.plan|
  {
    job.Same(files, job.T(j)) && job.Same(files, job.S(j)) && job.B(j) !in files
  }

  /** The first `k` files are published, and with `mid` file `k` is backed up only. */
  ghost predicate Progress(job: Job, files: Files, k: nat, mid: bool) {
    && OthersSame(job, files)
    && (forall j: nat :: j < |job.plan| ==>
          if j < k then FileDone(job, files, j)
          else if j == k && mid then job.Existed(j) && job.T(j) !in files && job.Stored(files, j)
            && job.Same(files, job.S(j))
          else FileAsBefore(job, files, j))
  }

  /** What is left of a publication after `k` files while its rollback runs: targets
      `m .. k` are gone, the backups of the first `n` originals are still in place. */
  ghost predicate Undoing(job: Job, files: Files, m: nat, k: nat, n: nat) {
    && OthersSame(job, files)
    && (forall j: nat :: j < |job.plan| ==> UndoingFile(job, files, m, k, n, j))
  }

  ghost predicate UndoingFile(job: Job, files: Files, m: nat, k: nat, n: nat, j: nat)
    requires j < |job.plan|
  {
    && (if j < m then job.T(j) in files else if j < k || j < n then job.T(j) !in files else job.Same(files, job.T(j)))
    && (if j < n && job.Existed(j) then job.Stored(files, j) else job.B(j) !in files)
    && (job.S(j) in files ==> job.Same(files, job.S(j)))
    && (j >= k ==> job.Same(files, job.S(j)))
  }

  lemma {:induction false} RemoveAllClears(job: Job, d: Disk, fails: nat -> bool, m: nat, k: nat, n: nat)
    requires job.Apart() && m <= k <= n <= |job.plan| && Undoing(job, d.files, m, k, n)
    requires RemoveAll(d, fails, Targets(job.plan[..m])).1
    ensures Undoing(job, RemoveAll(d, fails, Targets(job.plan[..m])).0.files, 0, k, n)
    decreases m
  {
    if m > 0 {
      assert Targets(job.plan[..m])[..m - 1] == Targets(job.plan[..m - 1]);
      assert Targets(job.plan[..m])[m - 1] == job.T(m - 1);
      var (d1, ok) := RemoveFile(d, fails, job.T(m - 1));
      assert job.Touched(job.T(m - 1));
      var m1 := m - 1;
      forall j: nat | j < |job.plan| ensures UndoingFile(job, d1.files, m1, k, n, j) {
        assert UndoingFile(job, d.files, m, k, n, j);
      }
      RemoveAllClears(job, d1, fails, m - 1, k, n);
    }
  }

  /** The originals from `n` on are home again, those before are still at their backups. */
  ghost predicate RestoredFrom(job: Job, files: Files, k: nat, n: nat) {
    && OthersSame(job, files)
    && (forall j: nat :: j < |job.plan| ==> RestoredFile(job, files, k, n, j))
  }

  ghost predicate RestoredFile(job: Job, files: Files, k: nat, n: nat, j: nat)
    requires j < |job.plan|
  {
    && (if j < n then job.T(j) !in files else job.Same(files, job.T(j)))
    && (if j < n && job.Existed(j) then job.Stored(files, j) else job.B(j) !in files)
    && (job.S(j) in files ==> job.Same(files, job.S(j)))
    && (j >= k ==> job.Same(files, job.S(j)))
  }

  lemma RestoreOne(job: Job, files: Files, k: nat, n: nat)
    requires job.Apart() && n < |job.plan| && RestoredFrom(job, files, k, n + 1)
    ensures job.Existed(n) ==> job.B(n) in files && RestoredFrom(job, Moved(files, job.B(n), job.T(n)), k, n)
    ensures !job.Existed(n) ==> RestoredFrom(job, files, k, n)
  {
    assert RestoredFile(job, files, k, n + 1, n);
    if job.Existed(n) {
      var r := Moved(files, job.B(n), job.T(n));
      assert job.Touched(job.T(n)) && job.Touched(job.B(n));
      forall j: nat | j < |job.plan| ensures RestoredFile(job, r, k, n, j) {
        assert RestoredFile(job, files, k, n + 1, j);
        if j != n { BackupPathsDiffer(job, j, n); }
      }
    } else {
      forall j: nat | j < |job.plan| ensures RestoredFile(job, files, k, n, j) {
        assert RestoredFile(job, files, k, n + 1, j);
      }
    }
  }

  lemma {:induction false} RestoreAllExact(job: Job, d: Disk, fails: nat -> bool, k: nat, n: nat)
    requires job.Apart() && n <= |job.plan| && RestoredFrom(job, d.files, k, n)
    requires RestoreAll(d, fails, BackupsTo(job, n)).1
    ensures RestoredFrom(job, RestoreAll(d, fails, BackupsTo(job, n)).0.files, k, 0)
    decreases n
  {
    hide RestoredFrom;
    if n > 0 {
      RestoreOne(job, d.files, k, n - 1);
      if job.Existed(n - 1) {
        var all := BackupsTo(job, n);
        assert all[..|all| - 1] == BackupsTo(job, n - 1);
        RestoreAllExact(job, RenameFile(d, fails, job.B(n - 1), job.T(n - 1)).0, fails, k, n - 1);
      } else {
        assert BackupsTo(job, n) == BackupsTo(job, n - 1);
        RestoreAllExact(job, d, fails, k, n - 1);
      }
    }
  }

  /** Every target is as before, no backup is left, nothing else has changed, and no staged
      file has changed except by being consumed. */
  ghost predicate FullyRestored(job: Job, files: Files) {
    RestoredFrom(job, files, |job.plan|, 0)
  }

  lemma UndoRestores(job: Job, d: Disk, fails: nat -> bool, k: nat, mid: bool)
    requires job.Apart() && k <= |job.plan| && (mid ==> k < |job.plan|) && Progress(job, d.files, k, mid)
    ensures var n := k + (if mid then 1 else 0);
            var (r, o) := Undo(d, fails, Targets(job.plan[..k]), BackupsTo(job, n));
            o.RolledBack? && (o.clean ==> FullyRestored(job, r.files))
  {
    var n := k + (if mid then 1 else 0);
    var (d1, ok) := RemoveAll(d, fails, Targets(job.plan[..k]));
    forall j: nat | j < |job.plan| ensures UndoingFile(job, d.files, k, k, n, j) {
    }
    if ok {
      RemoveAllClears(job, d, fails, k, k, n);
      forall j: nat | j < |job.plan| ensures RestoredFile(job, d1.files, k, n, j) {
        assert UndoingFile(job, d1.files, 0, k, n, j);
      }
      var (d2, ok2) := RestoreAll(d1, fails, BackupsTo(job, n));
      if ok2 {
        RestoreAllExact(job, d1, fails, k, n);
        forall j: nat | j < |job.plan| ensures RestoredFile(job, d2.files, |job.plan|, 0, j) {
          assert RestoredFile(job, d2.files, k, 0, j);
        }
      }
    }
  }

  lemma BackUpProgress(job: Job, files: Files, k: nat)
    requires job.Apart() && k < |job.plan| && Progress(job, files, k, false) && job.Existed(k)
    ensures job.T(k) in files && Progress(job, Moved(files, job.T(k), job.B(k)), k, true)
  {
    assert FileAsBefore(job, files, k);
    var r := Moved(files, job.T(k), job.B(k));
    assert job.Touched(job.T(k)) && job.Touched(job.B(k));
    forall j: nat | j < |job.plan| && j != k
      ensures j < k ==> FileDone(job, r, j)
      ensures j > k ==> FileAsBefore(job, r, j)
    {
      assert j < k ==> FileDone(job, files, j);
      assert j > k ==> FileAsBefore(job, files, j);
      BackupPathsDiffer(job, j, k);
    }
  }

  lemma PutProgress(job: Job, files: Files, k: nat, mid: bool)
    requires job.Apart() && k < |job.plan| && Progress(job, files, k, mid) && mid == job.Existed(k)
    requires job.S(k) in files
    ensures Progress(job, Moved(files, job.S(k), job.T(k)), k + 1, false)
  {
    var r := Moved(files, job.S(k), job.T(k));
    assert job.Touched(job.S(k)) && job.Touched(job.T(k));
    assert !mid ==> FileAsBefore(job, files, k);
    forall j: nat | j < |job.plan|
      ensures j < k + 1 ==> FileDone(job, r, j)
      ensures j >= k + 1 ==> FileAsBefore(job, r, j)
    {
      assert j < k ==> FileDone(job, files, j);
      assert j > k ==> FileAsBefore(job, files, j);
    }
  }

  ghost predicate Finished(job: Job, r: Disk, o: Outcome) {
    match o
    case Published(backups) =>
      Progress(job, r.files, |job.plan|, false) && backups == BackupPaths(BackupsTo(job, |job.plan|))
    case RolledBack(clean) => clean ==> FullyRestored(job, r.files)
  }

  lemma {:induction false} PublishOneFinishes(job: Job, d: Disk, fails: nat -> bool, k: nat, mid: bool)
    requires job.Apart() && k < |job.plan| && Progress(job, d.files, k, mid) && mid == job.Existed(k)
    ensures var (r, o) := PublishOne(d, fails, job.plan, job.stamp, k, BackupsTo(job, k + 1)); Finished(job, r, o)
    decreases |job.plan| - k, 0
  {
    var (d1, ok) := RenameFile(d, fails, job.S(k), job.T(k));
    if ok {
      PutProgress(job, d.files, k, mid);
      PublishFromFinishes(job, d1, fails, k + 1);
    } else {
      if !mid { assert BackupsTo(job, k + 1) == BackupsTo(job, k); }
      UndoRestores(job, d1, fails, k, mid);
    }
  }

  lemma {:induction false} PublishFromFinishes(job: Job, d: Disk, fails: nat -> bool, k: nat)
    requires job.Apart() && k <= |job.plan| && Progress(job, d.files, k, false)
    ensures var (r, o) := PublishFrom(d, fails, job.plan, job.stamp, k, BackupsTo(job, k)); Finished(job, r, o)
    decreases |job.plan| - k
  {
    if k < |job.plan| {
      assert FileAsBefore(job, d.files, k);
      if job.T(k) in d.files {
        BackUpProgress(job, d.files, k);
        hide Progress, FullyRestored, FileAsBefore, BackupPath;
        var (d1, ok) := RenameFile(d, fails, job.T(k), job.B(k));
        if ok {
          PublishOneFinishes(job, d1, fails, k, true);
        } else {
          UndoRestores(job, d1, fails, k, false);
        }
      } else {
        assert BackupsTo(job, k + 1) == BackupsTo(job, k);
        PublishOneFinishes(job, d, fails, k, false);
      }
    }
  }

  /** A publication is all or nothing.  On success every target holds its staged content,
      the staged files are gone, and the result names, in plan order, exactly the backups
      of the targets that existed, each holding the old content.  On failure, when the
      rollback's own steps succeed, every target is as before and no backup is left.
      Paths outside the plan never change, not even when the rollback fails. */
  lemma PublishIsAllOrNothing(job: Job, clock: nat, fails: nat -> bool)
    requires job.Apart() && job.FreshBackups()
    ensures var (r, o) := Publish(Disk(job.before, clock, []), fails, job.plan, job.stamp);
            Finished(job, r, o) && OthersKept(job, r, 0)
  {
    PublishFromFinishes(job, Disk(job.before, clock, []), fails, 0);
    OtherPathsNeverChange(job, Disk(job.before, clock, []), fails);
  }

  // ---- when it succeeds ----

  lemma {:induction false} RemoveAllSucceeds(d: Disk, fails: nat -> bool, targets: seq<Path>)
    requires forall c: nat :: c >= d.clock ==> !fails(c)
    requires forall i :: 0 <= i < |targets| ==> targets[i] in d.files
    requires forall i, j :: 0 <= i < j < |targets| ==> targets[i] != targets[j]
    ensures RemoveAll(d, fails, targets).1 && RemoveAll(d, fails, targets).0.clock >= d.clock
    ensures forall p :: p !in targets && p in d.files ==>
      p in RemoveAll(d, fails, targets).0.files && RemoveAll(d, fails, targets).0.files[p] == d.files[p]
    decreases |targets|
  {
    if targets != [] {
      var n := |targets| - 1;
      var (d1, ok) := RemoveFile(d, fails, targets[n]);
      RemoveAllSucceeds(d1, fails, targets[..n]);
      assert forall p :: p in targets[..n] ==> p in targets;
    }
  }

  lemma {:induction false} RestoreAllSucceeds(job: Job, d: Disk, fails: nat -> bool, n: nat)
    requires job.Apart() && n <= |job.plan|
    requires forall c: nat :: c >= d.clock ==> !fails(c)
    requires forall j: nat :: j < n && job.Existed(j) ==> job.B(j) in d.files
    ensures RestoreAll(d, fails, BackupsTo(job, n)).1
    decreases n
  {
    if n > 0 {
      if job.Existed(n - 1) {
        var all := BackupsTo(job, n);
        assert all[..|all| - 1] == BackupsTo(job, n - 1);
        var (d1, ok) := RenameFile(d, fails, job.B(n - 1), job.T(n - 1));
        forall j: nat | j < n - 1 && job.Existed(j) ensures job.B(j) in d1.files {
          BackupPathsDiffer(job, j, n - 1);
        }
        RestoreAllSucceeds(job, d1, fails, n - 1);
      } else {
        assert BackupsTo(job, n) == BackupsTo(job, n - 1);
        RestoreAllSucceeds(job, d, fails, n - 1);
      }
    }
  }

  /** Rollback steps fail only when an operation fails. */
  lemma UndoIsClean(job: Job, d: Disk, fails: nat -> bool, k: nat, mid: bool)
    requires job.Apart() && k <= |job.plan| && (mid ==> k < |job.plan|) && Progress(job, d.files, k, mid)
    requires forall c: nat :: c >= d.clock ==> !fails(c)
    ensures Undo(d, fails, Targets(job.plan[..k]), BackupsTo(job, k + (if mid then 1 else 0))).1 == RolledBack(true)
  {
    var n := k + (if mid then 1 else 0);
    var targets := Targets(job.plan[..k]);
    forall i | 0 <= i < |targets| ensures targets[i] == job.T(i) && targets[i] in d.files {
      assert FileDone(job, d.files, i);
    }
    RemoveAllSucceeds(d, fails, targets);
    var d1 := RemoveAll(d, fails, targets).0;
    forall j: nat | j < n && job.Existed(j) ensures job.B(j) in d1.files {
      assert j < k ==> FileDone(job, d.files, j);
      assert job.B(j) !in targets;
    }
    RestoreAllSucceeds(job, d1, fails, n);
  }

  /** At most one operation fails. */
  ghost predicate AtMostOneFault(fails: nat -> bool) {
    forall c: nat, e: nat :: fails(c) && fails(e) ==> c == e
  }

  ghost predicate FailsFrom(fails: nat -> bool, clock: nat) {
    exists c: nat :: c >= clock && fails(c)
  }

  lemma {:induction false} PublishOneSingleFault(job: Job, d: Disk, fails: nat -> bool, k: nat, mid: bool)
    requires job.Apart() && k < |job.plan| && Progress(job, d.files, k, mid) && mid == job.Existed(k)
    requires job.StagedExist() && AtMostOneFault(fails)
    ensures var o := PublishOne(d, fails, job.plan, job.stamp, k, BackupsTo(job, k + 1)).1;
            (o.RolledBack? ==> o.clean) && (!FailsFrom(fails, d.clock) ==> o.Published?)
    decreases |job.plan| - k, 0
  {
    assert !mid ==> FileAsBefore(job, d.files, k);
    assert job.S(k) in d.files;
    var (d1, ok) := RenameFile(d, fails, job.S(k), job.T(k));
    if ok {
      PutProgress(job, d.files, k, mid);
      PublishFromSingleFault(job, d1, fails, k + 1);
    } else {
      if !mid { assert BackupsTo(job, k + 1) == BackupsTo(job, k); }
      UndoIsClean(job, d1, fails, k, mid);
    }
  }

  lemma {:induction false} PublishFromSingleFault(job: Job, d: Disk, fails: nat -> bool, k: nat)
    requires job.Apart() && k <= |job.plan| && Progress(job, d.files, k, false)
    requires job.StagedExist() && AtMostOneFault(fails)
    ensures var o := PublishFrom(d, fails, job.plan, job.stamp, k, BackupsTo(job, k)).1;
            (o.RolledBack? ==> o.clean) && (!FailsFrom(fails, d.clock) ==> o.Published?)
    decreases |job.plan| - k
  {
    if k < |job.plan| {
      assert FileAsBefore(job, d.files, k);
      if job.T(k) in d.files {
        var (d1, ok) := RenameFile(d, fails, job.T(k), job.B(k));
        if ok {
          BackUpProgress(job, d.files, k);
          PublishOneSingleFault(job, d1, fails, k, true);
        } else {
          UndoIsClean(job, d1, fails, k, false);
        }
      } else {
        assert BackupsTo(job, k + 1) == BackupsTo(job, k);
        PublishOneSingleFault(job, d, fails, k, false);
      }
    }
  }

  /** When the staged files exist, a publication without faults succeeds, and one with a
      single fault, wherever it falls, either succeeds or puts everything back. */
  lemma OneFaultIsUndone(job: Job, clock: nat, fails: nat -> bool)
    requires job.Apart() && job.FreshBackups() && job.StagedExist() && AtMostOneFault(fails)
    ensures var (r, o) := Publish(Disk(job.before, clock, []), fails, job.plan, job.stamp);
            && (if o.Published? then Progress(job, r.files, |job.plan|, false) else FullyRestored(job, r.files))
            && ((forall c: nat :: c >= clock ==> !fails(c)) ==> o.Published?)
  {
    var d := Disk(job.before, clock, []);
    PublishFromFinishes(job, d, fails, 0);
    PublishFromSingleFault(job, d, fails, 0);
  }

  // ---- backups that were there before ----

  /** The backup path of a target that did not exist is not used. */
  ghost predicate Idle(job: Job, files: Files) {
    forall j: nat :: j < |job.plan| && !job.Existed(j) ==> job.Same(files, job.B(j))
  }

  lemma BackUpIdle(job: Job, files: Files, k: nat)
    requires job.Apart() && k < |job.plan| && job.Existed(k) && job.T(k) in files && Idle(job, files)
    ensures Idle(job, Moved(files, job.T(k), job.B(k)))
  {
    forall j: nat | j < |job.plan| && !job.Existed(j) ensures job.Same(Moved(files, job.T(k), job.B(k)), job.B(j)) {
      BackupPathsDiffer(job, j, k);
    }
  }

  lemma PutIdle(job: Job, files: Files, k: nat)
    requires job.Apart() && k < |job.plan| && job.S(k) in files && Idle(job, files)
    ensures Idle(job, Moved(files, job.S(k), job.T(k)))
  {
  }

  lemma {:induction false} PublishedOne(job: Job, d: Disk, fails: nat -> bool, k: nat, backups: seq<Backup>)
    requires job.Apart() && k < |job.plan| && Idle(job, d.files)
    requires Split(job, d.files, k + 1) && Untouched(job, d.files, k + 1)
    ensures var (r, o) := PublishOne(d, fails, job.plan, job.stamp, k, backups);
            o.Published? ==> Split(job, r.files, |job.plan|) && Idle(job, r.files)
    decreases |job.plan| - k, 0
  {
    var (d1, ok) := RenameFile(d, fails, job.S(k), job.T(k));
    if ok {
      PutOneInPlace(job, d.files, k);
      PutIdle(job, d.files, k);
      hide Split, Untouched, Idle;
      PublishedFrom(job, d1, fails, k + 1, backups);
    }
  }

  lemma {:induction false} PublishedFrom(job: Job, d: Disk, fails: nat -> bool, k: nat, backups: seq<Backup>)
    requires job.Apart() && k <= |job.plan| && Idle(job, d.files)
    requires Split(job, d.files, k) && Untouched(job, d.files, k)
    ensures var (r, o) := PublishFrom(d, fails, job.plan, job.stamp, k, backups);
            o.Published? ==> Split(job, r.files, |job.plan|) && Idle(job, r.files)
    decreases |job.plan| - k
  {
    if k < |job.plan| {
      assert job.Same(d.files, job.T(k));
      if job.T(k) in d.files {
        var (d1, ok) := RenameFile(d, fails, job.T(k), job.B(k));
        if ok {
          BackOneUp(job, d.files, k);
          BackUpIdle(job, d.files, k);
          hide Split, Untouched, Idle;
          PublishedOne(job, d1, fails, k, backups + [Backup(job.T(k), job.B(k))]);
        }
      } else {
        PublishedOne(job, d, fails, k, backups);
      }
    }
  }

  /** No older file is in the way of a backup, or it has the same content. */
  ghost predicate BackupsFit(job: Job) {
    forall j: nat :: j < |job.plan| && job.Existed(j) ==>
      job.B(j) !in job.before || job.before[job.B(j)] == job.before[job.T(j)]
  }

  /** Every file that was there and is not itself replaced or moved is still there. */
  ghost predicate BystandersSame(job: Job, files: Files) {
    forall p: Path :: p in job.before && (forall j: nat :: j < |job.plan| ==> p != job.T(j) && p != job.S(j)) ==>
      job.Same(files, p)
  }

  /** Nothing in the code looks whether a backup path is free. A completed publication keeps
      all other files exactly when it is, or when it holds what will be put there. */
  lemma OldBackupsAreKeptExactly(job: Job, clock: nat, fails: nat -> bool)
    requires job.Apart()
    requires Publish(Disk(job.before, clock, []), fails, job.plan, job.stamp).1.Published?
    ensures BystandersSame(job, Publish(Disk(job.before, clock, []), fails, job.plan, job.stamp).0.files) <==>
        BackupsFit(job)
  {
    var d := Disk(job.before, clock, []);
    var r := Publish(d, fails, job.plan, job.stamp).0;
    OtherPathsNeverChange(job, d, fails);
    PublishedFrom(job, d, fails, 0, []);
    hide Publish;
    if BackupsFit(job) {
      forall p: Path | p in job.before && (forall j: nat :: j < |job.plan| ==> p != job.T(j) && p != job.S(j))
        ensures job.Same(r.files, p)
      {
        if job.Touched(p) {
          var j: nat :| j < |job.plan| && (p == job.T(j) || p == job.S(j) || p == job.B(j));
          assert p == job.B(j);
          assert job.Existed(j) ==> job.Stored(r.files, j);
        }
      }
    }
    if BystandersSame(job, r.files) {
      forall j: nat | j < |job.plan| && job.Existed(j) && job.B(j) in job.before
        ensures job.before[job.B(j)] == job.before[job.T(j)]
      {
        assert job.Same(r.files, job.B(j)) && job.Stored(r.files, j);
      }
    }
  }

  lemma PublishOverExisting(d: Disk, fails: nat -> bool, target: Path, staged: Path, stamp: nat)
    requires forall c :: !fails(c)
    requires target in d.files && staged in d.files && staged != target && staged != BackupPath(target, stamp)
    ensures BackupPath(target, stamp) != target
    ensures var (r, o) := Publish(d, fails, [PlannedFile(staged, target)], stamp);
            && o.Published?
            && r.files == (d.files - {staged})[BackupPath(target, stamp) := d.files[target]][target := d.files[staged]]
  {
    var b := BackupPath(target, stamp);
    assert |b.name| > |target.name|;
    var plan := [PlannedFile(staged, target)];
    var f1 := Moved(d.files, target, b);
    var d1 := Tick(d, f1);
    assert RenameFile(d, fails, target, b) == (d1, true);
    var d2 := Tick(d1, Moved(f1, staged, target));
    assert RenameFile(d1, fails, staged, target) == (d2, true);
    assert PublishFrom(d2, fails, plan, stamp, 1, [Backup(target, b)]).0 == d2;
    assert PublishOne(d1, fails, plan, stamp, 0, [Backup(target, b)]).0 == d2;
    assert [] + [Backup(target, b)] == [Backup(target, b)];
  }

  /** The time stamp has a resolution of one second, and nothing checks that a backup path
      is free: publishing one target twice within a second destroys the first backup. */
  lemma SecondPublicationOverwritesBackup(fails: nat -> bool, target: Path, staged: Path, staged': Path, stamp: nat)
    requires forall c :: !fails(c)
    requires staged != target && staged' != target && staged != staged'
    requires BackupPath(target, stamp) != staged && BackupPath(target, stamp) != staged'
    ensures var before: Files := map[target := Blob("old"), staged := Blob("new"), staged' := Blob("newer")];
            var d1 := Publish(Disk(before, 0, []), fails, [PlannedFile(staged, target)], stamp).0;
            var (d2, o) := Publish(d1, fails, [PlannedFile(staged', target)], stamp);
            && o.Published?
            && (exists p :: p in d1.files && d1.files[p] == Blob("old"))
            && !(exists p :: p in d2.files && d2.files[p] == Blob("old"))
  {
    var before: Files := map[target := Blob("old"), staged := Blob("new"), staged' := Blob("newer")];
    var d0 := Disk(before, 0, []);
    PublishOverExisting(d0, fails, target, staged, stamp);
    var d1 := Publish(d0, fails, [PlannedFile(staged, target)], stamp).0;
    assert d1.files[BackupPath(target, stamp)] == Blob("old");
    PublishOverExisting(d1, fails, target, staged', stamp);
  }
}
