/** What accepted jobs come to: undisturbed they complete and set the node's status, and a failed step ends them. */
module JobProgress {
  import opened Text
  import opened Provisioning
  import opened ProvisioningRuns
  import opened ActiveJobs

  /** The status a completed job gives its node. */
  function Reached(action: Action): (s: NodeStatus) {
    if action == Stop then Offline else if action == Decommission then Decommissioned else Online
  }

  /** No step of the job has failed, and its end is not recorded. */
  predicate Going(w: Worker) {
    !Finished(w) && w.phase != Ending(false)
  }

  function Complete(w: Worker): (r: Record) {
    Record(w.node, w.action, JobCompleted, Successes(PipelineFor(w.action)))
  }

  lemma OnwardGoing(w: Worker, j: JobId)
    requires WorkerOk(w) && Going(w)
    ensures var e := Onward(w, j);
      && Works(e) && Due(w.phase, e)
      && var m := MoveOf(w, e);
         && m.worker.node == w.node && m.worker.action == w.action
         && (Going(m.worker) || (m.worker.phase == Closing(true) && m.job == Some(Complete(w))))
  {
  }

  lemma GoesOn(s: System, j: JobId) returns (events: seq<Event>, r: System)
    requires Wf(s) && j in s.workers && Going(s.workers[j])
    ensures Leads(s, events, r) && Wf(r) && j in r.workers && Distance(r.workers[j]) < Distance(s.workers[j])
    ensures r.workers[j].node == s.workers[j].node && r.workers[j].action == s.workers[j].action
    ensures Going(r.workers[j]) ||
      (r.workers[j].phase == Closing(true) && j in r.jobs && r.jobs[j] == Complete(s.workers[j]))
  {
    assert JobOk(s, j);
    var w := s.workers[j];
    var e := Onward(w, j);
    OnwardGoing(w, j);
    r := OnwardStep(s, j);
    WorkMoves(s, e);
    LeadsFirst(s, e, r, [], r);
    events := [e] + [];
  }

  lemma {:induction false} GoesToEnd(s: System, j: JobId) returns (events: seq<Event>, r: System)
    requires Wf(s) && j in s.workers && Going(s.workers[j])
    ensures Leads(s, events, r) && Wf(r) && j in r.workers && r.workers[j].phase == Closing(true)
    ensures r.workers[j].node == s.workers[j].node && r.workers[j].action == s.workers[j].action
    ensures j in r.jobs && r.jobs[j] == Complete(s.workers[j])
    decreases Distance(s.workers[j])
  {
    var t;
    events, t := GoesOn(s, j);
    if Going(t.workers[j]) {
      var rest;
      rest, r := GoesToEnd(t, j);
      LeadsThen(s, events, t, rest, r);
      events := events + rest;
    } else {
      r := t;
    }
  }

  lemma ClosesWell(s: System, j: JobId) returns (events: seq<Event>, r: System)
    requires j in s.workers && s.workers[j].phase == Closing(true)
    ensures Leads(s, events, r) && r.jobs == s.jobs
    ensures r.nodes == s.nodes[s.workers[j].node := Reached(s.workers[j].action)]
  {
    r := Apply(s, Close(j, true));
    LeadsFirst(s, Close(j, true), r, [], r);
    events := [Close(j, true)] + [];
  }

  /**
   * From every state, a job none of whose steps has failed can complete: its record then holds its whole pipeline as
   * successful, and its node has the status the action stands for.
   */
  lemma JobCompletes(s: System, j: JobId) returns (events: seq<Event>, r: System)
    requires Wf(s) && j in s.workers && Going(s.workers[j])
    ensures Leads(s, events, r) && j in r.jobs
    ensures var w := s.workers[j];
      && r.jobs[j] == Record(w.node, w.action, JobCompleted, Successes(PipelineFor(w.action)))
      && w.node in r.nodes
      && r.nodes[w.node] == match w.action
                            case Stop => Offline
                            case Decommission => Decommissioned
                            case _ => Online
  {
    var a, t := GoesToEnd(s, j);
    var b;
    b, r := ClosesWell(t, j);
    LeadsThen(s, a, t, b, r);
    events := a + b;
  }

  /** The events of a step that fails. */
  function Failing(w: Worker, j: JobId, rollbackOk: bool): (events: seq<Event>) {
    [Fail(j, rollbackOk)] + ([End(j, true)] + if w.action == Enroll then [Close(j, true)] + [] else [])
  }

  lemma FailureRecorded(s: System, j: JobId, rollbackOk: bool) returns (r: System)
    requires Wf(s) && j in s.workers && s.workers[j].phase == Working
    ensures StepsTo(Apply(s, Fail(j, rollbackOk)), End(j, true), r)
    ensures var w := s.workers[j];
      && r.nodes == s.nodes && j in r.jobs && j in r.workers && r.workers[j].node == w.node
      && r.workers[j].phase == (if w.action == Enroll then Closing(false) else Done)
      && r.jobs[j] == Record(w.node, w.action, JobFailed, FailedResults(w.action, |w.results|, rollbackOk))
  {
    var w := s.workers[j];
    assert JobOk(s, j);
    BrokenOk(w, rollbackOk);
    assert Broken(w, rollbackOk).results == FailedResults(w.action, |w.results|, rollbackOk);
    r := Apply(Apply(s, Fail(j, rollbackOk)), End(j, true));
  }

  lemma FailedCloses(s: System, j: JobId) returns (r: System)
    requires j in s.workers && s.workers[j].phase == Closing(false)
    ensures StepsTo(s, Close(j, true), r) && r.jobs == s.jobs && r.nodes == s.nodes[s.workers[j].node := InError]
  {
    r := Apply(s, Close(j, true));
  }

  lemma ThreeEvents(s: System, a: Event, s1: System, b: Event, s2: System, rest: seq<Event>, r: System)
    requires StepsTo(s, a, s1) && StepsTo(s1, b, s2) && Leads(s2, rest, r) && Works(a) && Works(b)
    ensures Leads(s, [a] + ([b] + rest), r)
  {
    LeadsFirst(s1, b, s2, rest, r);
    LeadsFirst(s, a, s1, [b] + rest, r);
  }

  /**
   * A step that fails ends its job as failed, with the successes before it, the failure, and a rollback where one is
   * due; the node is then in error if it was enrolling, and otherwise its status is left alone.
   */
  lemma JobFails(s: System, j: JobId, rollbackOk: bool) returns (r: System)
    requires Wf(s) && j in s.workers && s.workers[j].phase == Working
    ensures Leads(s, Failing(s.workers[j], j, rollbackOk), r) && j in r.jobs
    ensures var w := s.workers[j];
      && r.jobs[j] == Record(w.node, w.action, JobFailed, FailedResults(w.action, |w.results|, rollbackOk))
      && r.nodes == if w.action == Enroll then s.nodes[w.node := InError] else s.nodes
  {
    var t := Apply(s, Fail(j, rollbackOk));
    var u := FailureRecorded(s, j, rollbackOk);
    if s.workers[j].action == Enroll {
      r := FailedCloses(u, j);
      LeadsFirst(u, Close(j, true), r, [], r);
      ThreeEvents(s, Fail(j, rollbackOk), t, End(j, true), u, [Close(j, true)] + [], r);
    } else {
      r := u;
      ThreeEvents(s, Fail(j, rollbackOk), t, End(j, true), u, [], r);
    }
  }

  /** A start request gets as far as its check exactly when the node exists and accepts the action in its state. */
  lemma RequestAccepted(s: System, c: CallId, n: NodeId, action: Action)
    requires c !in s.calls
    ensures c in Apply(s, Load(c, n, action)).calls <==>
      && n in s.nodes
      && match s.nodes[n]
         case Pending => action == Enroll || action == Decommission
         case Enrolling => false
         case Online => action != Enroll && action != Start
         case Offline => action == Start || action == Upgrade || action == Reprovision || action == Decommission
         case InError => action == Start || action == Reprovision || action == Decommission
         case Decommissioned => false
  {
    if n in s.nodes { AcceptedActions(s.nodes[n], action); }
  }

  /** It then passes its check exactly when the node has no active job, and starts a job of its action. */
  lemma RequestStarts(s: System, c: CallId, j: JobId)
    requires c in s.calls && !s.calls[c].checked && j !in s.jobs
    ensures var t, call := Apply(s, Check(c)), s.calls[c];
      && (c in t.calls <==> forall i :: !ActiveOn(s, i, call.node))
      && (c in t.calls ==>
          && Enabled(t, Create(c, j, true))
          && var r := Apply(t, Create(c, j, true));
             && r.jobs == s.jobs[j := Record(call.node, call.action, JobPending, [])] && j in r.workers
             && r.workers[j] == Worker(call.node, call.action, [], Queued, call.status, false))
  {
  }
}
