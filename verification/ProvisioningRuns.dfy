/**
 * Provisioning jobs running concurrently over any number of nodes, one store access at a time. Each start request
 * loads the node, checks for an active job and creates its job in separate accesses; each job's worker writes the
 * job record and the node separately, and any of its writes may fail unnoticed.
 */
module ProvisioningRuns {
  import opened Text
  import opened Provisioning

  type CallId = nat

  /** A job as the store holds it. */
  datatype Record = Record(node: NodeId, action: Action, status: JobStatus, results: seq<StepResult>)

  /**
   * What a worker does next: begin, mark the node, record its progress, run a step, record the end, or write the
   * node's final status.
   */
  datatype Phase = Queued | Marking | Saving | Working | Ending(ok: bool) | Closing(ok: bool) | Done

  /** A worker in memory; `copy` is its node status, `missed` that its last write of the node failed. */
  datatype Worker = Worker(
    node: NodeId, action: Action, results: seq<StepResult>, phase: Phase, copy: NodeStatus, missed: bool)

  /** A start request under way. */
  datatype Call = Call(node: NodeId, action: Action, status: NodeStatus, checked: bool)

  datatype System = System(
    nodes: map<NodeId, NodeStatus>, jobs: map<JobId, Record>, workers: map<JobId, Worker>, calls: map<CallId, Call>)

  datatype Event =
    | Load(c: CallId, n: NodeId, action: Action)
    | Check(c: CallId)
    | Create(c: CallId, j: JobId, ok: bool)
    | Begin(j: JobId, ok: bool)
    | Mark(j: JobId, ok: bool)
    | Save(j: JobId, ok: bool)
    | Succeed(j: JobId)
    | Fail(j: JobId, rollbackOk: bool)
    | End(j: JobId, ok: bool)
    | Close(j: JobId, ok: bool)
    | Enrolls(n: NodeId)

  predicate ActiveOn(s: System, j: JobId, n: NodeId) {
    j in s.jobs && s.jobs[j].node == n && (s.jobs[j].status == JobPending || s.jobs[j].status == JobRunning)
  }

  /** The events in which worker `j` moves on. */
  predicate Works(e: Event) {
    e.Begin? || e.Mark? || e.Save? || e.Succeed? || e.Fail? || e.End? || e.Close?
  }

  /** The phase in which a worker does this. */
  predicate Due(phase: Phase, e: Event) {
    match e
    case Begin(_, _) => phase.Queued?
    case Mark(_, _) => phase.Marking?
    case Save(_, _) => phase.Saving?
    case Succeed(_) => phase.Working?
    case Fail(_, _) => phase.Working?
    case End(_, _) => phase.Ending?
    case Close(_, _) => phase.Closing?
    case _ => false
  }

  ghost predicate Enabled(s: System, e: Event) {
    match e
    case Load(c, _, _) => c !in s.calls
    case Check(c) => c in s.calls && !s.calls[c].checked
    case Create(c, j, _) => c in s.calls && s.calls[c].checked && j !in s.jobs
    case Enrolls(n) => n in s.nodes
    case _ => e.j in s.workers && Due(s.workers[e.j].phase, e)
  }

  // ---- One access ----

  function Steps(w: Worker): (steps: seq<StepName>) {
    PipelineFor(w.action)
  }

  /** The step a working worker is at. */
  function Current(w: Worker): (step: StepName) {
    if |w.results| < |Steps(w)| then Steps(w)[|w.results|] else SendCommand
  }

  function RecordOf(w: Worker, status: JobStatus): (r: Record) {
    Record(w.node, w.action, status, w.results)
  }

  /** What an access of a worker changes: the worker, and the job record or the node unless that write fails. */
  datatype Move = Move(worker: Worker, job: Option<Record>, node: Option<NodeStatus>)

  function Write<T>(ok: bool, x: T): (r: Option<T>) {
    if ok then Some(x) else None
  }

  function Begun(w: Worker): (r: Worker) {
    w.(phase := if w.action == Enroll then Marking else Saving)
  }

  function Marked(w: Worker, ok: bool): (r: Worker) {
    w.(phase := Saving, copy := Enrolling, missed := !ok)
  }

  function Advanced(w: Worker): (r: Worker) {
    var results := w.results + [StepResult(Current(w), true)];
    w.(results := results, phase := if |results| >= |Steps(w)| then Ending(true) else Saving,
       missed := Current(w) != GenerateWGKeys && w.missed)
  }

  function Broken(w: Worker, rollbackOk: bool): (r: Worker) {
    w.(results := w.results + [StepResult(Current(w), false)]
                  + if RollsBack(w.action, Current(w)) then [StepResult(Rollback, rollbackOk)] else [],
       phase := Ending(false))
  }

  /** Only a failed enrollment writes the node after a failure. */
  function Ended(w: Worker): (r: Worker)
    requires w.phase.Ending?
  {
    w.(phase := if w.phase.ok || w.action == Enroll then Closing(w.phase.ok) else Done)
  }

  function Closed(w: Worker, ok: bool): (r: Worker)
    requires w.phase.Closing?
  {
    w.(phase := Done, copy := if w.phase.ok then StatusAfter(w.action) else InError, missed := !ok)
  }

  function MoveOf(w: Worker, e: Event): (m: Move)
    requires Works(e) && Due(w.phase, e)
  {
    match e
    case Begin(_, ok) => Move(Begun(w), Write(ok, RecordOf(w, JobRunning)), None)
    case Mark(_, ok) => Move(Marked(w, ok), None, Write(ok, Enrolling))
    case Save(_, ok) => Move(w.(phase := Working), Write(ok, RecordOf(w, JobRunning)), None)
    case Succeed(_) => Move(Advanced(w), None, Write(Current(w) == GenerateWGKeys, w.copy))
    case Fail(_, rollbackOk) => Move(Broken(w, rollbackOk), None, None)
    case End(_, ok) => Move(Ended(w), Write(ok, RecordOf(w, if w.phase.ok then JobCompleted else JobFailed)), None)
    case Close(_, ok) => Move(Closed(w, ok), None, Write(ok, Closed(w, ok).copy))
  }

  function Moved(s: System, j: JobId, m: Move): (r: System) {
    System(if m.node.Some? then s.nodes[m.worker.node := m.node.value] else s.nodes,
           if m.job.Some? then s.jobs[j := m.job.value] else s.jobs,
           s.workers[j := m.worker], s.calls)
  }

  ghost function Apply(s: System, e: Event): (r: System)
    requires Enabled(s, e)
  {
    match e
    case Load(c, n, action) =>
      if n in s.nodes && IsValidTransition(action, s.nodes[n])
      then s.(calls := s.calls[c := Call(n, action, s.nodes[n], false)])
      else s
    case Check(c) =>
      if exists j :: ActiveOn(s, j, s.calls[c].node) then s.(calls := s.calls - {c})
      else s.(calls := s.calls[c := s.calls[c].(checked := true)])
    case Create(c, j, ok) =>
      var call, r := s.calls[c], s.(calls := s.calls - {c});
      if ok then
        r.(jobs := r.jobs[j := Record(call.node, call.action, JobPending, [])],
           workers := r.workers[j := Worker(call.node, call.action, [], Queued, call.status, false)])
      else r
    case Enrolls(n) => s.(nodes := s.nodes[n := Online])
    case _ => Moved(s, e.j, MoveOf(s.workers[e.j], e))
  }

  // ---- Runs ----

  ghost predicate Feasible(s: System, events: seq<Event>)
    decreases |events|
  {
    events != [] ==> Enabled(s, events[0]) && Feasible(Apply(s, events[0]), events[1..])
  }

  ghost function Final(s: System, events: seq<Event>): (r: System)
    requires Feasible(s, events)
    decreases |events|
  {
    if events == [] then s else Final(Apply(s, events[0]), events[1..])
  }

  ghost predicate StepsTo(s: System, e: Event, r: System) {
    Enabled(s, e) && r == Apply(s, e)
  }

  ghost predicate Initial(s: System) {
    s.jobs == map[] && s.workers == map[] && s.calls == map[] && forall n | n in s.nodes :: s.nodes[n] != Enrolling
  }

  // ---- What workers and records hold ----

  ghost predicate Broke(action: Action, results: seq<StepResult>) {
    exists k, rollbackOk :: 0 <= k < |PipelineFor(action)| && results == FailedResults(action, k, rollbackOk)
  }

  ghost predicate WorkerOk(w: Worker) {
    && (match w.phase
        case Queued => w.results == []
        case Marking => w.results == [] && w.action == Enroll
        case Saving => |w.results| < |Steps(w)| && w.results == Successes(Steps(w)[..|w.results|])
        case Working => |w.results| < |Steps(w)| && w.results == Successes(Steps(w)[..|w.results|])
        case Ending(ok) => if ok then w.results == Successes(Steps(w)) else Broke(w.action, w.results)
        case Closing(ok) =>
          if ok then w.results == Successes(Steps(w)) else w.action == Enroll && Broke(w.action, w.results)
        case Done => w.copy != Enrolling)
    && (w.phase != Done ==> w.copy != Decommissioned)
    && (w.copy == Enrolling ==> w.action == Enroll)
    && (w.action == Enroll && w.phase != Queued && w.phase != Marking && w.phase != Done ==> w.copy == Enrolling)
    && (w.missed && w.phase != Done ==> w.copy == Enrolling)
  }

  ghost predicate RecordOk(r: Record) {
    match r.status
    case JobPending => r.results == []
    case JobRunning =>
      |r.results| < |PipelineFor(r.action)| && r.results == Successes(PipelineFor(r.action)[..|r.results|])
    case JobCompleted => r.results == Successes(PipelineFor(r.action))
    case JobFailed => Broke(r.action, r.results)
  }

  /** A record is final only once its worker has recorded the end. */
  ghost predicate Paired(r: Record, w: Worker) {
    && r.node == w.node && r.action == w.action
    && (r.status == JobCompleted || r.status == JobFailed ==> w.phase.Closing? || w.phase.Done?)
    && (w.phase == Queued ==> r.status == JobPending)
  }

  ghost predicate CallOk(s: System, call: Call) {
    call.node in s.nodes && IsValidTransition(call.action, call.status)
  }

  ghost predicate Sound(r: Record, w: Worker) {
    WorkerOk(w) && RecordOk(r) && Paired(r, w)
  }

  ghost predicate JobOk(s: System, j: JobId) {
    j in s.jobs && j in s.workers && s.workers[j].node in s.nodes && Sound(s.jobs[j], s.workers[j])
  }

  ghost predicate Wf(s: System) {
    && s.jobs.Keys == s.workers.Keys
    && (forall j | j in s.workers :: JobOk(s, j))
    && (forall c | c in s.calls :: CallOk(s, s.calls[c]))
  }

  lemma SuccessesOneMore(steps: seq<StepName>, k: nat)
    requires k < |steps|
    ensures Successes(steps[..k]) + [StepResult(steps[k], true)] == Successes(steps[..k + 1])
  {
    assert steps[..k + 1] == steps[..k] + [steps[k]];
  }

  lemma AdvancedOk(w: Worker)
    requires WorkerOk(w) && w.phase == Working
    ensures WorkerOk(Advanced(w))
  {
    SuccessesOneMore(Steps(w), |w.results|);
    assert Steps(w)[..|Steps(w)|] == Steps(w);
  }

  lemma BrokenOk(w: Worker, rollbackOk: bool)
    requires WorkerOk(w) && w.phase == Working
    ensures WorkerOk(Broken(w, rollbackOk))
  {
    assert Broken(w, rollbackOk).results == FailedResults(w.action, |w.results|, rollbackOk);
  }

  lemma NothingYet(action: Action)
    ensures Successes(PipelineFor(action)[..0]) == [] && |PipelineFor(action)| > 0
  {
  }

  /** A worker stays consistent as it moves on. */
  lemma WorkerMoves(w: Worker, e: Event)
    requires WorkerOk(w) && Works(e) && Due(w.phase, e)
    ensures var m := MoveOf(w, e).worker; WorkerOk(m) && m.node == w.node && m.action == w.action
  {
    NothingYet(w.action);
    match e
    case Succeed(_) => AdvancedOk(w);
    case Fail(_, rollbackOk) => BrokenOk(w, rollbackOk);
    case _ =>
  }

  /** What it writes is a consistent record. */
  lemma RecordMoves(w: Worker, job: Record, e: Event)
    requires WorkerOk(w) && RecordOk(job) && Paired(job, w) && Works(e) && Due(w.phase, e)
    ensures var m := MoveOf(w, e);
      Sound(if m.job.Some? then m.job.value else job, m.worker)
  {
    NothingYet(w.action);
    WorkerMoves(w, e);
  }

  lemma MovedKeepsWf(s: System, j: JobId, m: Move)
    requires Wf(s) && j in s.workers && m.worker.node == s.workers[j].node
    requires Sound(if m.job.Some? then m.job.value else s.jobs[j], m.worker)
    ensures Wf(Moved(s, j, m))
  {
    var r := Moved(s, j, m);
    assert JobOk(s, j);
    forall i | i in r.workers ensures JobOk(r, i) {
      if i != j { SameJob(s, r, i); }
    }
    forall c | c in r.calls ensures CallOk(r, r.calls[c]) {
      SameCall(s, r, c);
    }
  }

  lemma SameJob(s: System, r: System, j: JobId)
    requires Wf(s) && j in s.workers && s.nodes.Keys <= r.nodes.Keys
    requires j in r.jobs && r.jobs[j] == s.jobs[j] && j in r.workers && r.workers[j] == s.workers[j]
    ensures JobOk(r, j)
  {
    assert JobOk(s, j);
  }

  lemma SameCall(s: System, r: System, c: CallId)
    requires Wf(s) && c in s.calls && s.nodes.Keys <= r.nodes.Keys && c in r.calls && r.calls[c] == s.calls[c]
    ensures CallOk(r, r.calls[c])
  {
    assert CallOk(s, s.calls[c]);
  }

  lemma WorkKeepsWf(s: System, e: Event)
    requires Wf(s) && Works(e) && Enabled(s, e)
    ensures Wf(Apply(s, e))
  {
    assert JobOk(s, e.j);
    WorkerMoves(s.workers[e.j], e);
    RecordMoves(s.workers[e.j], s.jobs[e.j], e);
    MovedKeepsWf(s, e.j, MoveOf(s.workers[e.j], e));
  }

  lemma CreateKeepsWf(s: System, e: Event)
    requires Wf(s) && e.Create? && Enabled(s, e)
    ensures Wf(Apply(s, e))
  {
    var call, r := s.calls[e.c], Apply(s, e);
    assert CallOk(s, call);
    ClosedStates(call.action);
    forall j | j in r.workers ensures JobOk(r, j) {
      if j in s.workers { SameJob(s, r, j); }
    }
    forall d | d in r.calls ensures CallOk(r, r.calls[d]) { SameCall(s, r, d); }
  }

  lemma SameJobs(s: System, r: System)
    requires Wf(s) && r.jobs == s.jobs && r.workers == s.workers && s.nodes.Keys <= r.nodes.Keys
    requires forall c | c in r.calls :: CallOk(r, r.calls[c])
    ensures Wf(r)
  {
    forall j | j in r.workers ensures JobOk(r, j) { SameJob(s, r, j); }
  }

  lemma QuietKeepsWf(s: System, e: Event)
    requires Wf(s) && (e.Load? || e.Check? || e.Enrolls?) && Enabled(s, e)
    ensures Wf(Apply(s, e))
  {
    var r := Apply(s, e);
    forall d | d in r.calls ensures CallOk(r, r.calls[d]) {
      if d in s.calls { assert CallOk(s, s.calls[d]); }
    }
    SameJobs(s, r);
  }

  lemma EventKeepsWf(s: System, e: Event)
    requires Wf(s) && Enabled(s, e)
    ensures Wf(Apply(s, e))
  {
    if Works(e) {
      WorkKeepsWf(s, e);
    } else if e.Create? {
      CreateKeepsWf(s, e);
    } else {
      QuietKeepsWf(s, e);
    }
  }

  lemma {:induction false} AlwaysWf(s: System, events: seq<Event>)
    requires Wf(s) && Feasible(s, events)
    ensures Wf(Final(s, events))
    decreases |events|
  {
    if events == [] {
    } else {
      EventKeepsWf(s, events[0]);
      AlwaysWf(Apply(s, events[0]), events[1..]);
    }
  }

  lemma InitialWf(s: System)
    requires Initial(s)
    ensures Wf(s)
  {
  }

  // ---- Stored jobs ----

  lemma BrokeIsNotComplete(action: Action, results: seq<StepResult>)
    requires Broke(action, results)
    ensures results != Successes(PipelineFor(action))
  {
    var steps := PipelineFor(action);
    var k, rollbackOk :| 0 <= k < |steps| && results == FailedResults(action, k, rollbackOk);
    assert results[k] == StepResult(steps[k], false);
  }

  /**
   * In every run, whatever writes fail, a stored job is completed exactly when it holds the whole pipeline as
   * successful, and a failed one holds the successes up to one failure.
   */
  lemma CompletedExactly(s: System, events: seq<Event>, j: JobId)
    requires Initial(s) && Feasible(s, events) && j in Final(s, events).jobs
    ensures var job := Final(s, events).jobs[j];
      && (job.status == JobCompleted <==> job.results == Successes(PipelineFor(job.action)))
      && (job.status == JobFailed ==> Broke(job.action, job.results))
  {
    InitialWf(s);
    AlwaysWf(s, events);
    var r := Final(s, events);
    assert JobOk(r, j);
    if r.jobs[j].status == JobFailed { BrokeIsNotComplete(r.jobs[j].action, r.jobs[j].results); }
  }

  function Rank(status: JobStatus): (r: nat) {
    match status
    case JobPending => 0
    case JobRunning => 1
    case _ => 2
  }

  /** The job keeps its node and action, does not go back, and is final once completed or failed. */
  predicate Forward(a: Record, b: Record) {
    a.node == b.node && a.action == b.action && Rank(a.status) <= Rank(b.status) && (Rank(a.status) == 2 ==> a == b)
  }

  lemma WriteForward(job: Record, w: Worker, e: Event)
    requires Sound(job, w) && Works(e) && Due(w.phase, e)
    ensures MoveOf(w, e).job.Some? ==> Forward(job, MoveOf(w, e).job.value)
  {
  }

  lemma EventForward(s: System, e: Event, j: JobId)
    requires Wf(s) && Enabled(s, e) && j in s.jobs
    ensures j in Apply(s, e).jobs && Forward(s.jobs[j], Apply(s, e).jobs[j])
  {
    if Works(e) {
      assert JobOk(s, e.j) && Apply(s, e) == Moved(s, e.j, MoveOf(s.workers[e.j], e));
      WriteForward(s.jobs[e.j], s.workers[e.j], e);
    }
  }

  lemma {:induction false} JobsMoveForward(s: System, events: seq<Event>, j: JobId)
    requires Wf(s) && Feasible(s, events) && j in s.jobs
    ensures j in Final(s, events).jobs && Forward(s.jobs[j], Final(s, events).jobs[j])
    decreases |events|
  {
    if events == [] {
    } else {
      EventForward(s, events[0], j);
      EventKeepsWf(s, events[0]);
      JobsMoveForward(Apply(s, events[0]), events[1..], j);
    }
  }

  // ---- Putting runs together ----

  lemma OneEvent(s: System, e: Event, r: System, rest: seq<Event>)
    requires StepsTo(s, e, r) && Feasible(r, rest)
    ensures Feasible(s, [e] + rest) && Final(s, [e] + rest) == Final(r, rest)
  {
    assert ([e] + rest)[1..] == rest;
  }

  lemma {:induction false} RunOn(s: System, a: seq<Event>, b: seq<Event>)
    requires Feasible(s, a) && Feasible(Final(s, a), b)
    ensures Feasible(s, a + b) && Final(s, a + b) == Final(Final(s, a), b)
    decreases |a|
  {
    if a == [] {
      assert a + b == b;
    } else {
      RunOn(Apply(s, a[0]), a[1..], b);
      assert (a + b)[1..] == a[1..] + b;
    }
  }

  lemma FourEvents(s: System, a: Event, s1: System, b: Event, s2: System, c: Event, s3: System, d: Event, s4: System)
    requires StepsTo(s, a, s1) && StepsTo(s1, b, s2) && StepsTo(s2, c, s3) && StepsTo(s3, d, s4)
    ensures Feasible(s, [a, b, c, d]) && Final(s, [a, b, c, d]) == s4
  {
    OneEvent(s3, d, s4, []);
    OneEvent(s2, c, s3, [d]);
    OneEvent(s1, b, s2, [c, d]);
    OneEvent(s, a, s1, [b, c, d]);
    assert [d] + [] == [d] && [c] + [d] == [c, d] && [b] + [c, d] == [b, c, d] && [a] + [b, c, d] == [a, b, c, d];
  }
}
