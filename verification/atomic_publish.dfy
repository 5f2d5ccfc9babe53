/** Transactional publication of staged files (`src/cli/atomic.rs`).

    The file system is a map from paths to contents in which any rename or removal may
    fail.  Every state it passes through is logged, so that a property of all logged
    states is one that a stop after any single step cannot break. */
module AtomicPublish {
  import opened Wrappers
  import Decimal

  datatype Path = Path(dir: string, name: string)

  /** A PEM file that starts with a certificate, and the leaf whose private key follows it, if
      one does; the private key of a leaf; or anything else. */
  datatype Content =
    | Certificate(fingerprint: string, issuer: string, key: Option<string>)
    | Key(leaf: string)
    | Blob(bytes: string)

  function Cert(fingerprint: string, issuer: string): Content {
    Certificate(fingerprint, issuer, None)
  }

  type Files = map<Path, Content>

  /** `clock` counts the operations; `fails(clock)` says whether the next one fails. */
  datatype Disk = Disk(files: Files, clock: nat, log: seq<Files>)

  datatype PlannedFile = PlannedFile(staged: Path, target: Path)

  datatype Backup = Backup(target: Path, backup: Path)

  datatype IoError = IoError

  /** How a publication ends.  `clean` records whether every rollback step succeeded, which
      the code itself does not look at. */
  datatype Outcome = Published(backups: seq<Path>) | RolledBack(clean: bool)

  function BackupPath(target: Path, stamp: nat): Path {
    Path(target.dir, target.name + ".bak." + Decimal.Print(stamp))
  }

  function Tick(d: Disk, files: Files): Disk {
    Disk(files, d.clock + 1, d.log + [files])
  }

  function Moved(files: Files, src: Path, dst: Path): Files
    requires src in files
  {
    (files - {src})[dst := files[src]]
  }

  function RenameFile(d: Disk, fails: nat -> bool, src: Path, dst: Path): (Disk, bool) {
    if fails(d.clock) || src !in d.files then (Tick(d, d.files), false)
    else (Tick(d, Moved(d.files, src, dst)), true)
  }

  function RemoveFile(d: Disk, fails: nat -> bool, p: Path): (Disk, bool) {
    if fails(d.clock) || p !in d.files then (Tick(d, d.files), false)
    else (Tick(d, d.files - {p}), true)
  }

  /** Remove the published targets, last first. */
  function RemoveAll(d: Disk, fails: nat -> bool, targets: seq<Path>): (Disk, bool)
    decreases |targets|
  {
    if targets == [] then (d, true)
    else
      var (d1, ok) := RemoveFile(d, fails, targets[|targets| - 1]);
      var (d2, rest) := RemoveAll(d1, fails, targets[..|targets| - 1]);
      (d2, ok && rest)
  }

  /** Move the backups home, last first. */
  function RestoreAll(d: Disk, fails: nat -> bool, backups: seq<Backup>): (Disk, bool)
    decreases |backups|
  {
    if backups == [] then (d, true)
    else
      var last := backups[|backups| - 1];
      var (d1, ok) := RenameFile(d, fails, last.backup, last.target);
      var (d2, rest) := RestoreAll(d1, fails, backups[..|backups| - 1]);
      (d2, ok && rest)
  }

  function Rollback(d: Disk, fails: nat -> bool, published: seq<Path>, backups: seq<Backup>): (Disk, bool) {
    var (d1, ok1) := RemoveAll(d, fails, published);
    var (d2, ok2) := RestoreAll(d1, fails, backups);
    (d2, ok1 && ok2)
  }

  function Targets(plan: seq<PlannedFile>): seq<Path> {
    seq(|plan|, i requires 0 <= i < |plan| => plan[i].target)
  }

  function BackupPaths(backups: seq<Backup>): seq<Path> {
    seq(|backups|, i requires 0 <= i < |backups| => backups[i].backup)
  }

  function Undo(d: Disk, fails: nat -> bool, published: seq<Path>, backups: seq<Backup>): (Disk, Outcome) {
    var (r, clean) := Rollback(d, fails, published, backups);
    (r, RolledBack(clean))
  }

  /** The publication from file `k` on. */
  function PublishFrom(
      d: Disk, fails: nat -> bool, plan: seq<PlannedFile>, stamp: nat, k: nat, backups: seq<Backup>): (Disk, Outcome)
    requires k <= |plan|
    decreases |plan| - k
  {
    if k == |plan| then (d, Published(BackupPaths(backups)))
    else
      var published := Targets(plan[..k]);
      var file := plan[k];
      if file.target in d.files then
        var pair := Backup(file.target, BackupPath(file.target, stamp));
        var (d1, ok) := RenameFile(d, fails, file.target, pair.backup);
        if !ok then Undo(d1, fails, published, backups)
        else PublishOne(d1, fails, plan, stamp, k, backups + [pair])
      else PublishOne(d, fails, plan, stamp, k, backups)
  }

  function PublishOne(
      d: Disk, fails: nat -> bool, plan: seq<PlannedFile>, stamp: nat, k: nat, backups: seq<Backup>): (Disk, Outcome)
    requires k < |plan|
    decreases |plan| - k, 0
  {
    var (d1, ok) := RenameFile(d, fails, plan[k].staged, plan[k].target);
    if !ok then Undo(d1, fails, Targets(plan[..k]), backups)
    else PublishFrom(d1, fails, plan, stamp, k + 1, backups)
  }

  function Publish(d: Disk, fails: nat -> bool, plan: seq<PlannedFile>, stamp: nat): (Disk, Outcome) {
    PublishFrom(d, fails, plan, stamp, 0, [])
  }

  // ---- the code itself ----

  function WithoutDir(d: Disk, dir: string): Disk {
    d.(files := map p | p in d.files && p.dir != dir :: d.files[p])
  }

  function Write(d: Disk, p: Path, c: Content): Disk {
    d.(files := d.files[p := c])
  }

  class FileSystem {
    const fails: nat -> bool
    var files: Files
    var clock: nat
    ghost var log: seq<Files>

    ghost function View(): Disk
      reads this
    {
      Disk(files, clock, log)
    }

    constructor (files: Files, fails: nat -> bool)
      ensures View() == Disk(files, 0, []) && this.fails == fails
    {
      this.files, this.fails, clock, log := files, fails, 0, [];
    }

    method Rename(src: Path, dst: Path) returns (ok: bool)
      modifies this
      ensures (View(), ok) == RenameFile(old(View()), fails, src, dst)
    {
      ok := !fails(clock) && src in files;
      if ok {
        files := (files - {src})[dst := files[src]];
      }
      clock := clock + 1;
      log := log + [files];
    }

    /** A write into a staging directory; it is not part of the publication. */
    method WriteFile(p: Path, c: Content)
      modifies this`files
      ensures View() == Write(old(View()), p, c)
    {
      files := files[p := c];
    }

    /** Dropping a temporary directory. */
    method RemoveDir(dir: string)
      modifies this`files
      ensures View() == WithoutDir(old(View()), dir)
    {
      files := map p | p in files && p.dir != dir :: files[p];
    }

    method Remove(p: Path) returns (ok: bool)
      modifies this
      ensures (View(), ok) == RemoveFile(old(View()), fails, p)
    {
      ok := !fails(clock) && p in files;
      if ok {
        files := files - {p};
      }
      clock := clock + 1;
      log := log + [files];
    }
  }

  method RollbackFiles(fs: FileSystem, published: seq<Path>, backups: seq<Backup>) returns (ghost clean: bool)
    modifies fs
    ensures (fs.View(), clean) == Rollback(old(fs.View()), fs.fails, published, backups)
  {
    ghost var all := RemoveAll(fs.View(), fs.fails, published);
    clean := true;
    var i := |published|;
    assert published[..i] == published;
    while i > 0
      invariant 0 <= i <= |published|
      invariant var (d, ok) := RemoveAll(fs.View(), fs.fails, published[..i]); all == (d, ok && clean)
    {
      i := i - 1;
      assert published[..i + 1][..i] == published[..i];
      var ok := fs.Remove(published[i]);
      clean := clean && ok;
    }
    ghost var removed := clean;
    clean := true;
    ghost var restored := RestoreAll(fs.View(), fs.fails, backups);
    i := |backups|;
    assert backups[..i] == backups;
    while i > 0
      invariant 0 <= i <= |backups|
      invariant var (d, ok) := RestoreAll(fs.View(), fs.fails, backups[..i]); restored == (d, ok && clean)
    {
      i := i - 1;
      assert backups[..i + 1][..i] == backups[..i];
      var ok := fs.Rename(backups[i].backup, backups[i].target);
      clean := clean && ok;
    }
    clean := removed && clean;
  }

  /** `publish_files`. */
  method PublishFiles(fs: FileSystem, plan: seq<PlannedFile>, stamp: nat) returns (r: Result<seq<Path>, IoError>)
    modifies fs
    ensures var (d, outcome) := Publish(old(fs.View()), fs.fails, plan, stamp);
            && fs.View() == d
            && r == (match outcome case Published(backups) => Ok(backups) case RolledBack(_) => Err(IoError))
  {
    var backups: seq<Backup> := [];
    var published: seq<Path> := [];
    ghost var whole := Publish(fs.View(), fs.fails, plan, stamp);
    for k := 0 to |plan|
      invariant published == Targets(plan[..k])
      invariant PublishFrom(fs.View(), fs.fails, plan, stamp, k, backups) == whole
    {
      var file := plan[k];
      if file.target in fs.files {
        var backup := BackupPath(file.target, stamp);
        var ok := fs.Rename(file.target, backup);
        if !ok {
          ghost var _ := RollbackFiles(fs, published, backups);
          return Err(IoError);
        }
        backups := backups + [Backup(file.target, backup)];
      }
      var ok := fs.Rename(file.staged, file.target);
      if !ok {
        ghost var _ := RollbackFiles(fs, published, backups);
        return Err(IoError);
      }
      assert plan[..k + 1] == plan[..k] + [file];
      published := published + [file.target];
    }
    return Ok(BackupPaths(backups));
  }
}
