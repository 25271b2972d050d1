/** Provisioning actions, the node states they are accepted in, and their pipelines. */
module Provisioning {
  import opened Text

  type NodeId = nat
  type JobId = nat

  datatype NodeStatus = Pending | Enrolling | Online | Offline | InError | Decommissioned
  datatype Action = Enroll | Reprovision | Upgrade | Start | Stop | Restart | Decommission
  datatype JobStatus = JobPending | JobRunning | JobCompleted | JobFailed

  datatype StepName =
    | ValidateSSH | UploadBinary | WriteConfig | InstallSystemd | StartService | GenerateWGKeys
    | ConfigureWireGuard | WaitEnrollment | VerifyOnline | StopService | Cleanup | SendCommand
    | BackupBinary | AtomicSwap | Rollback

  datatype StepResult = StepResult(step: StepName, success: bool)

  function PipelineFor(action: Action): (steps: seq<StepName>)
    ensures steps != []
  {
    match action
    case Enroll =>
      [ValidateSSH, UploadBinary, WriteConfig, InstallSystemd, StartService, GenerateWGKeys, ConfigureWireGuard,
       WaitEnrollment, VerifyOnline]
    case Reprovision =>
      [ValidateSSH, UploadBinary, WriteConfig, InstallSystemd, StartService, GenerateWGKeys, ConfigureWireGuard,
       WaitEnrollment, VerifyOnline]
    case Upgrade => [ValidateSSH, BackupBinary, UploadBinary, StopService, AtomicSwap, StartService, VerifyOnline]
    case Start => [SendCommand]
    case Stop => [SendCommand]
    case Restart => [SendCommand]
    case Decommission => [SendCommand, Cleanup]
  }

  function ValidActionStates(action: Action): (s: set<NodeStatus>) {
    match action
    case Enroll => {Pending}
    case Start => {Offline, InError}
    case Stop => {Online}
    case Restart => {Online}
    case Upgrade => {Online, Offline}
    case Reprovision => {Online, Offline, InError}
    case Decommission => {Pending, Online, Offline, InError}
  }

  predicate IsValidTransition(action: Action, status: NodeStatus) {
    status in ValidActionStates(action)
  }

  /** Once decommissioned, and while enrolling, a node accepts no action. */
  lemma ClosedStates(action: Action)
    ensures !IsValidTransition(action, Decommissioned) && !IsValidTransition(action, Enrolling)
  {
  }

  function StatusAfter(action: Action): (s: NodeStatus) {
    match action
    case Stop => Offline
    case Decommission => Decommissioned
    case _ => Online
  }

  /** What a node accepts in each of its states. */
  lemma AcceptedActions(status: NodeStatus, action: Action)
    ensures IsValidTransition(action, status) <==>
      match status
      case Pending => action == Enroll || action == Decommission
      case Enrolling => false
      case Online => action != Enroll && action != Start
      case Offline => action == Start || action == Upgrade || action == Reprovision || action == Decommission
      case InError => action == Start || action == Reprovision || action == Decommission
      case Decommissioned => false
  {
  }

  /** Both steps are in the pipeline, the first of them always before the second. */
  ghost predicate InOrder(steps: seq<StepName>, a: StepName, b: StepName) {
    && a in steps && b in steps
    && forall i, j | 0 <= i < |steps| && 0 <= j < |steps| && steps[i] == a && steps[j] == b :: i < j
  }

  lemma OrderIs(steps: seq<StepName>, i: nat, j: nat)
    requires i < j < |steps|
    requires forall k | 0 <= k < |steps| :: (steps[k] == steps[i] ==> k == i) && (steps[k] == steps[j] ==> k == j)
    ensures InOrder(steps, steps[i], steps[j])
  {
  }

  /**
   * Where a pipeline installs a node, access is checked first, the binary and its configuration are in place before
   * the service starts, keys exist before WireGuard is configured with them, and being online is checked last.
   */
  lemma InstallOrder(action: Action)
    requires action == Enroll || action == Reprovision
    ensures var steps := PipelineFor(action);
      && |steps| == 9 && steps[0] == ValidateSSH && steps[8] == VerifyOnline
      && InOrder(steps, UploadBinary, StartService) && InOrder(steps, WriteConfig, StartService)
      && InOrder(steps, InstallSystemd, StartService) && InOrder(steps, GenerateWGKeys, ConfigureWireGuard)
      && InOrder(steps, StartService, WaitEnrollment)
  {
    var steps := PipelineFor(action);
    OrderIs(steps, 1, 4);
    OrderIs(steps, 2, 4);
    OrderIs(steps, 3, 4);
    OrderIs(steps, 5, 6);
    OrderIs(steps, 4, 7);
  }

  /** An upgrade backs up before it uploads, and swaps binaries only while the service is stopped. */
  lemma UpgradeOrder()
    ensures var steps := PipelineFor(Upgrade);
      && |steps| == 7 && steps[0] == ValidateSSH && steps[6] == VerifyOnline
      && InOrder(steps, BackupBinary, UploadBinary) && InOrder(steps, UploadBinary, AtomicSwap)
      && InOrder(steps, StopService, AtomicSwap) && InOrder(steps, AtomicSwap, StartService)
  {
    var steps := PipelineFor(Upgrade);
    OrderIs(steps, 1, 2);
    OrderIs(steps, 2, 4);
    OrderIs(steps, 3, 4);
    OrderIs(steps, 4, 5);
  }

  // ---- One pipeline ----

  /** A backup step occurs no later than the first occurrence of the failed step. */
  predicate BackupBefore(steps: seq<StepName>, failed: StepName) {
    failed in steps && BackupBinary in steps[..IndexOf(steps, failed) + 1]
  }

  method ShouldRollback(steps: seq<StepName>, failed: StepName) returns (r: bool)
    ensures r == BackupBefore(steps, failed)
  {
    var backupSeen := false;
    for i := 0 to |steps|
      invariant failed !in steps[..i]
      invariant backupSeen == (BackupBinary in steps[..i])
    {
      assert steps[..i + 1] == steps[..i] + [steps[i]];
      if steps[i] == BackupBinary {
        backupSeen := true;
      }
      if steps[i] == failed {
        IndexOfIs(steps, failed, i);
        return backupSeen;
      }
    }
    assert steps[..|steps|] == steps;
    return false;
  }

  function Successes(steps: seq<StepName>): (rs: seq<StepResult>)
    ensures |rs| == |steps|
    ensures forall i | 0 <= i < |steps| :: rs[i] == StepResult(steps[i], true)
  {
    seq(|steps|, i requires 0 <= i < |steps| => StepResult(steps[i], true))
  }

  predicate RollsBack(action: Action, step: StepName) {
    action == Upgrade && BackupBefore(PipelineFor(action), step)
  }

  /** The results of a run that fails at step `k`. */
  function FailedResults(action: Action, k: nat, rollbackOk: bool): (rs: seq<StepResult>)
    requires k < |PipelineFor(action)|
  {
    var steps := PipelineFor(action);
    Successes(steps[..k]) + [StepResult(steps[k], false)]
    + if RollsBack(action, steps[k]) then [StepResult(Rollback, rollbackOk)] else []
  }

  /** The step loop: `ok[i]` says whether step `i` succeeds. */
  method RunPipeline(action: Action, ok: seq<bool>, rollbackOk: bool)
    returns (status: JobStatus, results: seq<StepResult>)
    requires |ok| == |PipelineFor(action)|
    ensures status == JobCompleted <==> forall i | 0 <= i < |ok| :: ok[i]
    ensures status == JobCompleted ==> results == Successes(PipelineFor(action))
    ensures status != JobCompleted ==>
      && status == JobFailed
      && exists k :: 0 <= k < |ok| && !ok[k] && (forall i | 0 <= i < k :: ok[i])
                     && results == FailedResults(action, k, rollbackOk)
  {
    var steps := PipelineFor(action);
    results := [];
    for i := 0 to |steps|
      invariant results == Successes(steps[..i])
      invariant forall j | 0 <= j < i :: ok[j]
    {
      var step := steps[i];
      if !ok[i] {
        results := results + [StepResult(step, false)];
        if action == Upgrade {
          var rollback := ShouldRollback(steps, step);
          if rollback {
            results := results + [StepResult(Rollback, rollbackOk)];
          }
        }
        status := JobFailed;
        return;
      }
      results := results + [StepResult(step, true)];
      assert steps[..i + 1] == steps[..i] + [step];
    }
    assert steps[..|steps|] == steps;
    status := JobCompleted;
  }
}
