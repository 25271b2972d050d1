/** What runs of provisioning jobs do to the status of nodes: enrolling nodes, and nodes that are decommissioned. */
module NodeStatusRuns {
  import opened Text
  import opened Provisioning
  import opened ProvisioningRuns
  import opened ActiveJobs

  // ---- Enrolling nodes ----

  /** An enroll worker whose copy of the node is enrolling, or whose last write of the node failed. */
  predicate Holds(s: System, j: JobId, n: NodeId) {
    && j in s.workers && s.workers[j].node == n && s.workers[j].action == Enroll
    && (s.workers[j].copy == Enrolling || s.workers[j].missed)
  }

  ghost predicate EnrollingHeld(s: System, n: NodeId) {
    n in s.nodes && s.nodes[n] == Enrolling ==> exists j :: Holds(s, j, n)
  }

  lemma WriteHolds(w: Worker, e: Event)
    requires WorkerOk(w) && Works(e) && Due(w.phase, e) && w.action == Enroll && (w.copy == Enrolling || w.missed)
    ensures var m := MoveOf(w, e);
      || (m.worker.action == Enroll && (m.worker.copy == Enrolling || m.worker.missed))
      || (m.node.Some? && m.node.value != Enrolling)
  {
  }

  /** A holder lets go only by writing the node's final status. */
  lemma HolderStays(s: System, e: Event, j: JobId, n: NodeId)
    requires Wf(s) && Enabled(s, e) && Holds(s, j, n)
    ensures Holds(Apply(s, e), j, n) || (n in Apply(s, e).nodes && Apply(s, e).nodes[n] != Enrolling)
  {
    if Works(e) {
      assert JobOk(s, j) && JobOk(s, e.j);
      if e.j == j {
        WorkerMoves(s.workers[j], e);
        WriteHolds(s.workers[j], e);
      }
      MovedHolder(s, e.j, MoveOf(s.workers[e.j], e), j, n);
    }
  }

  lemma MovedHolder(s: System, i: JobId, m: Move, j: JobId, n: NodeId)
    requires Holds(s, j, n)
    requires i == j ==> m.worker.node == n
    requires i == j ==>
      || (m.worker.action == Enroll && (m.worker.copy == Enrolling || m.worker.missed))
      || (m.node.Some? && m.node.value != Enrolling)
    ensures var r := Moved(s, i, m); Holds(r, j, n) || (n in r.nodes && r.nodes[n] != Enrolling)
  {
  }

  lemma WriteEnrolling(w: Worker, e: Event)
    requires WorkerOk(w) && Works(e) && Due(w.phase, e) && MoveOf(w, e).node == Some(Enrolling)
    ensures MoveOf(w, e).worker.action == Enroll && MoveOf(w, e).worker.copy == Enrolling
  {
  }

  /** Only an enroll worker that then holds the node makes it enrolling. */
  lemma NewlyEnrolling(s: System, e: Event, n: NodeId)
    requires Wf(s) && Enabled(s, e) && n in Apply(s, e).nodes && Apply(s, e).nodes[n] == Enrolling
    requires !(n in s.nodes && s.nodes[n] == Enrolling)
    ensures Works(e) && Holds(Apply(s, e), e.j, n)
  {
    if Works(e) {
      assert JobOk(s, e.j) && Apply(s, e) == Moved(s, e.j, MoveOf(s.workers[e.j], e));
      WriteEnrolling(s.workers[e.j], e);
    }
  }

  lemma EventKeepsHeld(s: System, e: Event, n: NodeId)
    requires Wf(s) && Enabled(s, e) && EnrollingHeld(s, n)
    ensures EnrollingHeld(Apply(s, e), n)
  {
    var r := Apply(s, e);
    if n in r.nodes && r.nodes[n] == Enrolling {
      if n in s.nodes && s.nodes[n] == Enrolling {
        var j :| Holds(s, j, n);
        HolderStays(s, e, j, n);
      } else {
        NewlyEnrolling(s, e, n);
      }
    }
  }

  lemma {:induction false} AlwaysHeld(s: System, events: seq<Event>, n: NodeId)
    requires Wf(s) && Feasible(s, events) && EnrollingHeld(s, n)
    ensures EnrollingHeld(Final(s, events), n)
    decreases |events|
  {
    if events == [] {
    } else {
      EventKeepsHeld(s, events[0], n);
      EventKeepsWf(s, events[0]);
      AlwaysHeld(Apply(s, events[0]), events[1..], n);
    }
  }

  /** An enroll job of the node that is active, is yet to write the node's final status, or failed to. */
  predicate EnrollJobOf(s: System, j: JobId, n: NodeId) {
    && j in s.jobs && s.jobs[j].node == n && s.jobs[j].action == Enroll && j in s.workers
    && (ActiveOn(s, j, n) || s.workers[j].phase.Closing? || (s.workers[j].phase.Done? && s.workers[j].missed))
  }

  lemma HolderEnrolls(s: System, j: JobId, n: NodeId)
    requires Wf(s) && Holds(s, j, n)
    ensures EnrollJobOf(s, j, n)
  {
    assert JobOk(s, j);
  }

  /**
   * In every run an enrolling node has an enroll job that is active, or whose worker is between its last two writes,
   * or whose last write failed.
   */
  lemma EnrollingHasJob(s: System, events: seq<Event>, n: NodeId)
    requires Initial(s) && Feasible(s, events)
    requires n in Final(s, events).nodes && Final(s, events).nodes[n] == Enrolling
    ensures exists j :: EnrollJobOf(Final(s, events), j, n)
  {
    InitialWf(s);
    AlwaysWf(s, events);
    AlwaysHeld(s, events, n);
    var j :| Holds(Final(s, events), j, n);
    HolderEnrolls(Final(s, events), j, n);
  }

  lemma EndsJob(s: System, j: JobId) returns (r: System)
    requires Wf(s) && j in s.workers && s.workers[j].action == Enroll && s.workers[j].phase.Ending?
    ensures StepsTo(s, End(j, true), r) && r.nodes == s.nodes && j in r.workers && r.workers[j].phase.Closing?
    ensures forall n :: !ActiveOn(r, j, n)
    ensures forall i, n | i != j :: ActiveOn(r, i, n) <==> ActiveOn(s, i, n)
  {
    r := Apply(s, End(j, true));
  }

  lemma LosesWrite(s: System, j: JobId) returns (r: System)
    requires j in s.workers && s.workers[j].phase.Closing?
    ensures StepsTo(s, Close(j, false), r) && r.nodes == s.nodes && r.jobs == s.jobs
  {
    r := Apply(s, Close(j, false));
  }

  /** A lost last write leaves a node enrolling without any active job. */
  lemma LostWriteStrands(s: System, n: NodeId, j: JobId)
    requires Wf(s) && n in s.nodes && s.nodes[n] == Enrolling && j in s.workers
    requires s.workers[j].node == n && s.workers[j].action == Enroll && s.workers[j].phase.Ending?
    requires forall i :: ActiveOn(s, i, n) ==> i == j
    ensures var events := [End(j, true), Close(j, false)];
      && Feasible(s, events)
      && var r := Final(s, events); n in r.nodes && r.nodes[n] == Enrolling && NoneActive(r, n)
  {
    var s1 := EndsJob(s, j);
    var r := LosesWrite(s1, j);
    forall i ensures !ActiveOn(r, i, n) { assert ActiveOn(r, i, n) <==> ActiveOn(s1, i, n); }
    OneEvent(s1, Close(j, false), r, []);
    OneEvent(s, End(j, true), s1, [Close(j, false)]);
    assert [Close(j, false)] + [] == [Close(j, false)];
    assert [End(j, true)] + [Close(j, false)] == [End(j, true), Close(j, false)];
  }

  // ---- Decommissioned nodes ----

  /** The worker may yet write another status than decommissioned. */
  predicate StillWrites(w: Worker) {
    w.action != Decommission && w.phase != Done && (w.phase == Ending(false) ==> w.action == Enroll)
  }

  ghost predicate Sealed(s: System, n: NodeId) {
    forall j | j in s.workers && s.workers[j].node == n :: !StillWrites(s.workers[j])
  }

  /** A request that decommissions, or that will find a stuck job when it checks. */
  ghost predicate Harmless(s: System, c: CallId, n: NodeId)
    requires c in s.calls
  {
    s.calls[c].action == Decommission || (!s.calls[c].checked && Stuck(s, n))
  }

  ghost predicate AllHarmless(s: System, n: NodeId) {
    forall c | CallOn(s, c, n) :: Harmless(s, c, n)
  }

  ghost predicate IsDecommissioned(s: System, n: NodeId) {
    n in s.nodes && s.nodes[n] == Decommissioned
  }

  /** No agent completes an enrollment of the node. */
  predicate WithoutEnrollment(events: seq<Event>, n: NodeId) {
    forall i | 0 <= i < |events| :: events[i] != Enrolls(n)
  }

  lemma WriteSealed(w: Worker, e: Event)
    requires WorkerOk(w) && Works(e) && Due(w.phase, e) && !StillWrites(w)
    ensures !StillWrites(MoveOf(w, e).worker)
    ensures MoveOf(w, e).node.Some? ==> MoveOf(w, e).node.value == Decommissioned
  {
    if w.action == Decommission && e.Succeed? { assert Current(w) in Steps(w); }
  }

  ghost predicate ClosedFor(s: System, n: NodeId) {
    IsDecommissioned(s, n) && Sealed(s, n) && AllHarmless(s, n)
  }

  lemma StuckLasts(s: System, e: Event, n: NodeId)
    requires Wf(s) && Enabled(s, e) && Stuck(s, n)
    ensures Stuck(Apply(s, e), n)
  {
    var j :| StuckJob(s, j, n);
    StuckStays(s, e, j, n);
  }

  lemma WorkKeepsSealed(s: System, e: Event, n: NodeId)
    requires Wf(s) && Works(e) && Enabled(s, e) && ClosedFor(s, n)
    ensures ClosedFor(Apply(s, e), n)
  {
    var w := s.workers[e.j];
    assert JobOk(s, e.j);
    WorkerMoves(w, e);
    if w.node == n { WriteSealed(w, e); }
    WorkMoves(s, e);
    MovedSealed(s, e.j, MoveOf(w, e), n);
    if Stuck(s, n) { StuckLasts(s, e, n); }
    var r := Apply(s, e);
    forall c | CallOn(r, c, n) ensures Harmless(r, c, n) { assert CallOn(s, c, n); }
  }

  lemma MovedSealed(s: System, j: JobId, m: Move, n: NodeId)
    requires IsDecommissioned(s, n) && Sealed(s, n)
    requires m.worker.node == n ==> !StillWrites(m.worker) && (m.node.Some? ==> m.node.value == Decommissioned)
    ensures IsDecommissioned(Moved(s, j, m), n) && Sealed(Moved(s, j, m), n)
  {
  }

  /** A request that is not harmless does not get past its check. */
  lemma RequestsStayHarmless(s: System, e: Event, n: NodeId)
    requires Wf(s) && !Works(e) && Enabled(s, e) && ClosedFor(s, n)
    ensures AllHarmless(Apply(s, e), n)
  {
    var r := Apply(s, e);
    if e.Load? { ClosedStates(e.action); }
    if Stuck(s, n) { StuckLasts(s, e, n); }
    if e.Check? && CallOn(s, e.c, n) && Stuck(s, n) { StuckTurnsAway(s, e.c, n); }
    forall c | CallOn(r, c, n) ensures Harmless(r, c, n) { assert CallOn(s, c, n); }
  }

  lemma OtherKeepsSealed(s: System, e: Event, n: NodeId)
    requires Wf(s) && !Works(e) && Enabled(s, e) && ClosedFor(s, n) && e != Enrolls(n)
    ensures ClosedFor(Apply(s, e), n)
  {
    RequestsStayHarmless(s, e, n);
    var r := Apply(s, e);
    if e.Create? && s.calls[e.c].node == n { assert CallOn(s, e.c, n); }
    forall j | j in r.workers && r.workers[j].node == n ensures !StillWrites(r.workers[j]) {
      if j in s.workers { assert r.workers[j] == s.workers[j]; }
    }
  }

  lemma EventKeepsSealed(s: System, e: Event, n: NodeId)
    requires Wf(s) && Enabled(s, e) && ClosedFor(s, n) && e != Enrolls(n)
    ensures ClosedFor(Apply(s, e), n)
  {
    if Works(e) { WorkKeepsSealed(s, e, n); } else { OtherKeepsSealed(s, e, n); }
  }

  lemma {:induction false} SealedStays(s: System, events: seq<Event>, n: NodeId)
    requires Wf(s) && Feasible(s, events) && WithoutEnrollment(events, n)
    requires ClosedFor(s, n)
    ensures IsDecommissioned(Final(s, events), n)
    decreases |events|
  {
    if events == [] {
    } else {
      EventKeepsSealed(s, events[0], n);
      EventKeepsWf(s, events[0]);
      SealedStays(Apply(s, events[0]), events[1..], n);
    }
  }

  /** On its way a worker that still writes does so, or still will. */
  lemma OnwardWrites(w: Worker, j: JobId)
    requires WorkerOk(w) && StillWrites(w)
    ensures var e := Onward(w, j);
      && Works(e) && Due(w.phase, e)
      && var m := MoveOf(w, e);
         && (m.node.Some? ==> m.node.value != Decommissioned)
         && (m.node.None? ==> StillWrites(m.worker))
  {
  }

  /** A worker that still writes can reopen a decommissioned node. */
  lemma {:induction false} WorkerReopens(s: System, j: JobId) returns (events: seq<Event>, r: System)
    requires Wf(s) && j in s.workers && StillWrites(s.workers[j])
    ensures Leads(s, events, r) && !IsDecommissioned(r, s.workers[j].node)
    decreases Distance(s.workers[j])
  {
    var w := s.workers[j];
    assert JobOk(s, j);
    OnwardMoves(w, j);
    OnwardWrites(w, j);
    var e := Onward(w, j);
    WorkerMoves(w, e);
    WorkMoves(s, e);
    EventKeepsWf(s, e);
    var t := Apply(s, e);
    if MoveOf(w, e).node.Some? {
      events, r := [], t;
    } else {
      events, r := WorkerReopens(t, j);
    }
    LeadsFirst(s, e, t, events, r);
    events := [e] + events;
  }

  /** So can a checked request of another action, */
  lemma CheckedReopens(s: System, c: CallId) returns (events: seq<Event>, r: System)
    requires Wf(s) && c in s.calls && s.calls[c].checked && s.calls[c].action != Decommission
    ensures Leads(s, events, r) && !IsDecommissioned(r, s.calls[c].node)
  {
    var first, t, j := CreateJob(s, c);
    var rest;
    rest, r := WorkerReopens(t, j);
    LeadsThen(s, first, t, rest, r);
    events := first + rest;
  }

  /** and an unchecked one unless a stuck job turns it away. */
  lemma RequestReopens(s: System, c: CallId, n: NodeId) returns (events: seq<Event>, r: System)
    requires Wf(s) && CallOn(s, c, n) && !Harmless(s, c, n)
    ensures Leads(s, events, r) && !IsDecommissioned(r, n)
  {
    if s.calls[c].checked {
      events, r := CheckedReopens(s, c);
    } else {
      var a, s1 := Drain(s, n);
      var b, s2 := PassCheck(s1, c, n);
      LeadsThen(s, a, s1, b, s2);
      var rest;
      rest, r := CheckedReopens(s2, c);
      LeadsThen(s, a + b, s2, rest, r);
      events := a + b + rest;
    }
  }

  lemma UndisturbedWithout(events: seq<Event>, n: NodeId)
    requires Undisturbed(events)
    ensures WithoutEnrollment(events, n)
  {
  }

  /**
   * A decommissioned node stays decommissioned in every continuation without a completed enrollment exactly when
   * none of its workers may yet write another status, and every start request under way either decommissions too or
   * has still to check while a stuck job turns it away.
   */
  lemma DecommissionedExactly(s: System, n: NodeId)
    requires Wf(s) && IsDecommissioned(s, n)
    ensures
      (forall events | Feasible(s, events) && WithoutEnrollment(events, n) ::
         IsDecommissioned(Final(s, events), n)) <==>
      Sealed(s, n) && AllHarmless(s, n)
  {
    if !Sealed(s, n) {
      var j :| j in s.workers && s.workers[j].node == n && StillWrites(s.workers[j]);
      var events, r := WorkerReopens(s, j);
      UndisturbedWithout(events, n);
    } else if !AllHarmless(s, n) {
      var c :| CallOn(s, c, n) && !Harmless(s, c, n);
      var events, r := RequestReopens(s, c, n);
      UndisturbedWithout(events, n);
    } else {
      forall events | Feasible(s, events) && WithoutEnrollment(events, n)
        ensures IsDecommissioned(Final(s, events), n)
      {
        SealedStays(s, events, n);
      }
    }
  }

  /** A start request on an idle online node runs through its three accesses. */
  lemma RestartAccepted(s: System, n: NodeId, c: CallId, i: JobId) returns (s1: System, s2: System, s3: System)
    requires n in s.nodes && s.nodes[n] == Online && (forall k :: !ActiveOn(s, k, n)) && c !in s.calls && i !in s.jobs
    ensures StepsTo(s, Load(c, n, Restart), s1) && StepsTo(s1, Check(c), s2) && StepsTo(s2, Create(c, i, true), s3)
    ensures s3.nodes == s.nodes && s3.workers == s.workers[i := Worker(n, Restart, [], Queued, Online, false)]
  {
    s1 := Apply(s, Load(c, n, Restart));
    assert forall k :: ActiveOn(s1, k, n) <==> ActiveOn(s, k, n);
    s2 := Apply(s1, Check(c));
    s3 := Apply(s2, Create(c, i, true));
  }

  /**
   * The window between a decommissioning's job record and its node write: a restart accepted there is left with a
   * worker that can bring the decommissioned node back.
   */
  lemma DecommissionWindow(s: System, n: NodeId, j: JobId, c: CallId, i: JobId)
    requires Wf(s) && n in s.nodes && s.nodes[n] == Online && (forall k :: !ActiveOn(s, k, n))
    requires j in s.workers && s.workers[j].node == n && s.workers[j].action == Decommission
    requires s.workers[j].phase == Closing(true) && c !in s.calls && i !in s.jobs
    ensures var events := [Load(c, n, Restart), Check(c), Create(c, i, true), Close(j, true)];
      && Feasible(s, events) && IsDecommissioned(Final(s, events), n) && !Sealed(Final(s, events), n)
  {
    var s1, s2, s3 := RestartAccepted(s, n, c, i);
    assert i != j;
    var s4 := WindowCloses(s3, n, j, i);
    FourEvents(s, Load(c, n, Restart), s1, Check(c), s2, Create(c, i, true), s3, Close(j, true), s4);
  }

  lemma WindowCloses(s: System, n: NodeId, j: JobId, i: JobId) returns (r: System)
    requires j in s.workers && s.workers[j].node == n && s.workers[j].action == Decommission
    requires s.workers[j].phase == Closing(true) && i != j
    requires i in s.workers && s.workers[i].node == n && StillWrites(s.workers[i])
    ensures StepsTo(s, Close(j, true), r) && IsDecommissioned(r, n) && !Sealed(r, n)
  {
    r := Apply(s, Close(j, true));
    assert r.workers[i] == s.workers[i];
  }

  /** An agent that completes an enrollment brings the node online whatever its status. */
  lemma EnrollmentReopens(s: System, n: NodeId)
    requires n in s.nodes
    ensures Feasible(s, [Enrolls(n)])
    ensures var r := Final(s, [Enrolls(n)]); n in r.nodes && r.nodes[n] == Online
  {
    OneEvent(s, Enrolls(n), Apply(s, Enrolls(n)), []);
    assert [Enrolls(n)] + [] == [Enrolls(n)];
  }
}
