/** What an upgrade pipeline does to the binaries on the remote node, including its automatic rollback. */
module UpgradeFiles {
  import opened Text
  import opened Provisioning

  type Binary = nat

  /** The installed binary, the staged upload and the backup, each absent or with some content. */
  datatype Files = Files(installed: Option<Binary>, staged: Option<Binary>, backup: Option<Binary>)

  function BackedUp(f: Files): (r: Files) {
    if f.installed.Some? then f.(backup := f.installed) else f
  }

  function Swapped(f: Files): (r: Files) {
    Files(f.staged, None, f.backup)
  }

  function RolledBack(f: Files): (r: Files) {
    if f.backup.Some? then Files(f.backup, f.staged, None) else f
  }

  /**
   * What a step may do to the files. A copy or upload that fails can leave any partial file behind; a move that
   * reports failure may still have happened; the other steps touch no binary.
   */
  ghost predicate StepEffect(step: StepName, new_: Binary, before: Files, ok: bool, after: Files) {
    match step
    case BackupBinary =>
      if ok then after == BackedUp(before) else after == before.(backup := after.backup)
    case UploadBinary =>
      if ok then after == before.(staged := Some(new_)) else after == before.(staged := after.staged)
    case AtomicSwap =>
      if ok then before.staged.Some? && after == Swapped(before)
      else after == before || (before.staged.Some? && after == Swapped(before))
    case Rollback =>
      if ok then after == RolledBack(before) else after == before || after == RolledBack(before)
    case _ => after == before
  }

  /** `files[i]` are the files before step `i`; all steps but possibly the last one tried succeed. */
  ghost predicate Tried(steps: seq<StepName>, new_: Binary, files: seq<Files>, failed: bool) {
    && 1 <= |files| <= |steps| + 1 && (failed ==> |files| >= 2) && (!failed ==> |files| == |steps| + 1)
    && forall i | 0 <= i < |files| - 1 ::
         StepEffect(steps[i], new_, files[i], !failed || i < |files| - 2, files[i + 1])
  }

  /** Where a failed run failed. */
  function FailedAt(files: seq<Files>): (k: int) {
    |files| - 2
  }

  /** The files a run leaves: a failure past the backup step is followed by a rollback. */
  ghost predicate Leaves(
    steps: seq<StepName>, new_: Binary, files: seq<Files>, failed: bool, rollbackOk: bool, end: Files) {
    && Tried(steps, new_, files, failed)
    && var last := files[|files| - 1];
       if failed && BackupBefore(steps, steps[FailedAt(files)]) then StepEffect(Rollback, new_, last, rollbackOk, end)
       else end == last
  }

  const STEPS: seq<StepName> := PipelineFor(Upgrade)

  /** The rollback guard on the upgrade pipeline: every step but the first. */
  lemma RollbackGuard(k: nat)
    requires k < |STEPS|
    ensures BackupBefore(STEPS, STEPS[k]) <==> k >= 1
  {
    IndexOfIs(STEPS, STEPS[k], k);
    assert k >= 1 ==> STEPS[..k + 1][1] == BackupBinary;
    assert k == 0 ==> STEPS[..1] == [ValidateSSH];
  }

  /** The files after `i` successful steps. */
  function After(i: nat, new_: Binary, f: Files): (r: Files)
    requires i <= 7
  {
    if i <= 1 then f
    else if i == 2 then BackedUp(f)
    else if i <= 4 then BackedUp(f).(staged := Some(new_))
    else Swapped(BackedUp(f).(staged := Some(new_)))
  }

  lemma {:induction false} Progress(new_: Binary, files: seq<Files>, failed: bool, i: nat)
    requires Tried(STEPS, new_, files, failed) && i < |files| && (failed ==> i < |files| - 1)
    ensures files[i] == After(i, new_, files[0])
    decreases i
  {
    if i == 0 {
    } else {
      Progress(new_, files, failed, i - 1);
      assert StepEffect(STEPS[i - 1], new_, files[i - 1], true, files[i]);
    }
  }

  /** A failure at step `k` past the first: `k` steps succeeded, one failed, and a rollback followed. */
  lemma FailedRun(new_: Binary, files: seq<Files>, rollbackOk: bool, end: Files)
    requires Leaves(STEPS, new_, files, true, rollbackOk, end) && FailedAt(files) >= 1
    ensures var k := FailedAt(files);
      && files[k] == After(k, new_, files[0])
      && StepEffect(STEPS[k], new_, After(k, new_, files[0]), false, files[k + 1])
      && StepEffect(Rollback, new_, files[k + 1], rollbackOk, end)
  {
    var k := FailedAt(files);
    Progress(new_, files, true, k);
    RollbackGuard(k);
    assert StepEffect(STEPS[k], new_, files[k], false, files[k + 1]);
  }

  /** A successful upgrade leaves the new binary installed and the old one as the backup. */
  lemma UpgradeSucceeds(new_: Binary, files: seq<Files>, rollbackOk: bool, end: Files)
    requires Leaves(STEPS, new_, files, false, rollbackOk, end) && files[0].installed.Some?
    ensures end == Files(Some(new_), None, files[0].installed)
  {
    Progress(new_, files, false, 7);
  }

  /** A failure before the backup step touches no file. */
  lemma FailureBeforeBackup(new_: Binary, files: seq<Files>, rollbackOk: bool, end: Files)
    requires Leaves(STEPS, new_, files, true, rollbackOk, end) && FailedAt(files) == 0
    ensures end == files[0]
  {
    RollbackGuard(0);
    assert StepEffect(STEPS[0], new_, files[0], false, files[1]);
  }

  /** No step after the backup step touches the backup, whether it fails or not. */
  lemma BackupSurvives(new_: Binary, f: Files, k: nat, after: Files)
    requires 2 <= k < |STEPS| && f.installed.Some?
    requires StepEffect(STEPS[k], new_, After(k, new_, f), false, after)
    ensures after.backup == f.installed
  {
    assert STEPS == [ValidateSSH, BackupBinary, UploadBinary, StopService, AtomicSwap, StartService, VerifyOnline];
  }

  /** A failure after the backup step followed by a successful rollback leaves the original binary installed. */
  lemma FailureAfterBackup(new_: Binary, files: seq<Files>, end: Files)
    requires Leaves(STEPS, new_, files, true, true, end) && files[0].installed.Some? && FailedAt(files) >= 2
    ensures end.installed == files[0].installed && end.backup == None
  {
    FailedRun(new_, files, true, end);
    BackupSurvives(new_, files[0], FailedAt(files), files[|files| - 1]);
  }

  /** With nothing installed and no backup, a failure past the swap leaves the new binary: the rollback has nothing. */
  lemma NothingToRestore(new_: Binary, files: seq<Files>, end: Files)
    requires Leaves(STEPS, new_, files, true, true, end) && FailedAt(files) >= 5
    requires files[0].installed == None && files[0].backup == None
    ensures end == Files(Some(new_), None, None)
  {
    FailedRun(new_, files, true, end);
  }

  /**
   * A failure of the backup step itself also rolls back. The original binary survives exactly when the failed
   * step left no backup file, or one with the original's content.
   */
  lemma FailureOfBackup(new_: Binary, files: seq<Files>, end: Files)
    requires Leaves(STEPS, new_, files, true, true, end) && files[0].installed.Some? && FailedAt(files) == 1
    ensures end.installed == files[0].installed <==> files[2].backup == None || files[2].backup == files[0].installed
  {
    FailedRun(new_, files, true, end);
  }

  /**
   * When the backup step cannot reach the node at all, what decides is the backup left by an earlier upgrade: the
   * original binary survives exactly when there was none, or one with the same content.
   */
  lemma UnreachableAtBackup(new_: Binary, files: seq<Files>, end: Files)
    requires Leaves(STEPS, new_, files, true, true, end) && files[0].installed.Some? && FailedAt(files) == 1
    requires files[2] == files[1]
    ensures end.installed == files[0].installed <==> files[0].backup == None || files[0].backup == files[0].installed
  {
    Progress(new_, files, true, 1);
    FailureOfBackup(new_, files, end);
  }

  /**
   * Two upgrades in a row: the first leaves its predecessor as backup, and when the second cannot even run its
   * backup step, the rollback reinstalls that predecessor instead of keeping the running binary.
   */
  lemma LeftoverBackupDowngrades(v0: Binary, v1: Binary, v2: Binary)
    requires v0 != v1
    ensures var first := Files(Some(v1), None, Some(v0));
      var end := Files(Some(v0), None, None);
      && After(7, v1, Files(Some(v0), None, None)) == first
      && Leaves(STEPS, v2, [first, first, first], true, true, end)
      && end.installed != first.installed
  {
    var first := Files(Some(v1), None, Some(v0));
    var files := [first, first, first];
    RollbackGuard(1);
    assert StepEffect(STEPS[0], v2, files[0], true, files[1]);
    assert StepEffect(STEPS[1], v2, files[1], false, files[2]);
  }
}
