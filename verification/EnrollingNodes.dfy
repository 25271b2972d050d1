/** Exactly when a node that is enrolling is sure to have an active enroll job. */
module EnrollingNodes {
  import opened Text
  import opened Provisioning
  import opened ProvisioningRuns
  import opened ActiveJobs

  predicate IsEnrolling(s: System, n: NodeId) {
    n in s.nodes && s.nodes[n] == Enrolling
  }

  predicate EnrollActive(s: System, j: JobId, n: NodeId) {
    ActiveOn(s, j, n) && s.jobs[j].action == Enroll
  }

  /** If the node is enrolling, an enroll job of it is active. */
  ghost predicate Backed(s: System, n: NodeId) {
    IsEnrolling(s, n) ==> exists j :: EnrollActive(s, j, n)
  }

  predicate StuckEnrollJob(s: System, j: JobId, n: NodeId) {
    StuckJob(s, j, n) && s.jobs[j].action == Enroll
  }

  ghost predicate StuckEnroll(s: System, n: NodeId) {
    exists j :: StuckEnrollJob(s, j, n)
  }

  /** An enroll worker that has its mark of the node, or the write of its keys, before it. */
  predicate MayMark(w: Worker) {
    && w.action == Enroll
    && (w.phase.Queued? || w.phase.Marking?
        || ((w.phase.Saving? || w.phase.Working?) && |w.results| <= 5))
  }

  predicate Marker(s: System, j: JobId, n: NodeId) {
    j in s.workers && s.workers[j].node == n && MayMark(s.workers[j])
  }

  /** An enroll request that is past its check, or that no stuck job will turn away. */
  ghost predicate MayStart(s: System, c: CallId, n: NodeId) {
    CallOn(s, c, n) && s.calls[c].action == Enroll && (s.calls[c].checked || !Stuck(s, n))
  }

  ghost predicate Unmarked(s: System, n: NodeId) {
    !IsEnrolling(s, n) && forall j :: !Marker(s, j, n)
  }

  /** The node is not enrolling, and nothing under way can make it so. */
  ghost predicate Calm(s: System, n: NodeId) {
    Unmarked(s, n) && forall c :: !MayStart(s, c, n)
  }

  // ---- A stuck enroll job ----

  lemma StuckEnrollStays(s: System, e: Event, j: JobId, n: NodeId)
    requires Wf(s) && Enabled(s, e) && StuckEnrollJob(s, j, n)
    ensures StuckEnrollJob(Apply(s, e), j, n)
  {
    StuckStays(s, e, j, n);
    EventForward(s, e, j);
  }

  lemma {:induction false} StuckEnrollLasts(s: System, events: seq<Event>, j: JobId, n: NodeId)
    requires Wf(s) && Feasible(s, events) && StuckEnrollJob(s, j, n)
    ensures StuckEnrollJob(Final(s, events), j, n)
    decreases |events|
  {
    if events == [] {
    } else {
      StuckEnrollStays(s, events[0], j, n);
      EventKeepsWf(s, events[0]);
      StuckEnrollLasts(Apply(s, events[0]), events[1..], j, n);
    }
  }

  // ---- A calm node ----

  lemma KeysAreSixth(w: Worker)
    requires w.action == Enroll && |w.results| < |Steps(w)|
    ensures Current(w) == GenerateWGKeys <==> |w.results| == 5
  {
  }

  /** A worker past its last such write does not make the node enrolling. */
  lemma CalmWrite(w: Worker, e: Event)
    requires WorkerOk(w) && Works(e) && Due(w.phase, e) && !MayMark(w)
    ensures !MayMark(MoveOf(w, e).worker) && MoveOf(w, e).node != Some(Enrolling)
  {
    if w.action == Enroll && w.phase == Working { KeysAreSixth(w); }
  }

  lemma MovedUnmarked(s: System, j: JobId, m: Move, n: NodeId)
    requires Unmarked(s, n) && (m.worker.node == n ==> !MayMark(m.worker) && m.node != Some(Enrolling))
    ensures Unmarked(Moved(s, j, m), n)
  {
    forall i ensures !Marker(Moved(s, j, m), i, n) { assert !Marker(s, i, n); }
  }

  lemma CalmWork(s: System, e: Event, n: NodeId)
    requires Wf(s) && Works(e) && Enabled(s, e) && Unmarked(s, n)
    ensures Unmarked(Apply(s, e), n)
  {
    var w := s.workers[e.j];
    assert JobOk(s, e.j);
    WorkerMoves(w, e);
    WorkMoves(s, e);
    if w.node == n {
      assert !Marker(s, e.j, n);
      CalmWrite(w, e);
    }
    MovedUnmarked(s, e.j, MoveOf(w, e), n);
  }

  lemma CalmCall(s: System, e: Event, c: CallId, n: NodeId)
    requires Wf(s) && Enabled(s, e) && !LoadsOn(e, n) && !MayStart(s, c, n)
    ensures !MayStart(Apply(s, e), c, n)
  {
    var r := Apply(s, e);
    if Stuck(s, n) {
      var j :| StuckJob(s, j, n);
      StuckStays(s, e, j, n);
      if e == Check(c) && CallOn(s, c, n) { StuckTurnsAway(s, c, n); }
    }
    assert CallOn(r, c, n) ==> CallOn(s, c, n) && r.calls[c].action == s.calls[c].action;
  }

  lemma CalmOther(s: System, e: Event, n: NodeId)
    requires Wf(s) && !Works(e) && Enabled(s, e) && Calm(s, n) && !LoadsOn(e, n)
    ensures Unmarked(Apply(s, e), n)
  {
    var r := Apply(s, e);
    forall j ensures !Marker(r, j, n) {
      assert !Marker(s, j, n);
      if e.Create? { assert !MayStart(s, e.c, n); }
    }
  }

  lemma {:induction false} StaysCalm(s: System, events: seq<Event>, n: NodeId)
    requires Wf(s) && Feasible(s, events) && WithoutLoads(events, n) && Calm(s, n)
    ensures Calm(Final(s, events), n)
    decreases |events|
  {
    if events == [] {
    } else {
      var e := events[0];
      if Works(e) { CalmWork(s, e, n); } else { CalmOther(s, e, n); }
      forall c ensures !MayStart(Apply(s, e), c, n) { CalmCall(s, e, c, n); }
      EventKeepsWf(s, e);
      StaysCalm(Apply(s, e), events[1..], n);
    }
  }

  // ---- Ending all enroll jobs of an enrolling node ----

  /** On its way to its end an enroll worker writes nothing but enrolling, and does so if it still may. */
  lemma OnwardMarks(w: Worker, j: JobId)
    requires WorkerOk(w) && !Finished(w) && w.action == Enroll
    ensures var e := Onward(w, j);
      && Works(e) && Due(w.phase, e)
      && var m := MoveOf(w, e);
         && (m.node.Some? ==> m.node == Some(Enrolling))
         && (MayMark(w) ==> m.node.Some? || (MayMark(m.worker) && !Finished(m.worker)))
  {
    if w.phase == Working { KeysAreSixth(w); }
  }

  lemma EnrollGoesOnward(s: System, j: JobId, n: NodeId) returns (events: seq<Event>, r: System)
    requires Wf(s) && j in s.workers && !Finished(s.workers[j]) && s.workers[j].action == Enroll
    requires s.workers[j].node == n
    ensures Leads(s, events, r) && Wf(r) && Aside(s, r, j) && j in r.workers
    ensures r.workers[j].action == Enroll && r.workers[j].node == n
    ensures Distance(r.workers[j]) < Distance(s.workers[j])
    ensures Finished(r.workers[j]) ==> forall m :: !ActiveOn(r, j, m)
    ensures IsEnrolling(s, n) ==> IsEnrolling(r, n)
    ensures Marker(s, j, n) ==> IsEnrolling(r, n) || (Marker(r, j, n) && !Finished(r.workers[j]))
  {
    var w := s.workers[j];
    assert JobOk(s, j);
    var e := Onward(w, j);
    OnwardMarks(w, j);
    WorkerMoves(w, e);
    WorkMoves(s, e);
    r := OnwardStep(s, j);
    LeadsFirst(s, e, r, [], r);
    events := [e] + [];
  }

  /** An enroll job that is not stuck can end with the node left enrolling, if it was or still may be made so. */
  lemma {:induction false} FinishEnroll(s: System, j: JobId, n: NodeId) returns (events: seq<Event>, r: System)
    requires Wf(s) && j in s.workers && !Finished(s.workers[j]) && s.workers[j].action == Enroll
    requires s.workers[j].node == n && (IsEnrolling(s, n) || Marker(s, j, n))
    ensures Leads(s, events, r) && Wf(r) && Aside(s, r, j) && (forall m :: !ActiveOn(r, j, m)) && IsEnrolling(r, n)
    decreases Distance(s.workers[j])
  {
    var t;
    events, t := EnrollGoesOnward(s, j, n);
    if Finished(t.workers[j]) {
      r := t;
    } else {
      var rest;
      rest, r := FinishEnroll(t, j, n);
      AsideTwice(s, t, r, j);
      LeadsThen(s, events, t, rest, r);
      events := events + rest;
    }
  }

  function EnrollSet(s: System, n: NodeId): (js: set<JobId>) {
    set j | j in s.jobs && EnrollActive(s, j, n)
  }

  lemma OneEnrollLess(s: System, r: System, j: JobId, n: NodeId)
    requires Aside(s, r, j) && !ActiveOn(r, j, n) && !StuckEnroll(s, n)
    ensures EnrollSet(r, n) == EnrollSet(s, n) - {j} && !StuckEnroll(r, n)
  {
    forall i ensures !StuckEnrollJob(r, i, n) { assert !StuckEnrollJob(s, i, n); }
  }

  lemma ActiveHasWorker(s: System, j: JobId, n: NodeId)
    requires Wf(s) && EnrollActive(s, j, n) && !StuckEnroll(s, n)
    ensures j in s.workers && !Finished(s.workers[j]) && s.workers[j].action == Enroll && s.workers[j].node == n
  {
    assert JobOk(s, j) && !StuckEnrollJob(s, j, n);
  }

  /** Without a stuck enroll job, all enroll jobs of an enrolling node can end and leave it enrolling. */
  lemma {:induction false} DrainEnroll(s: System, n: NodeId) returns (events: seq<Event>, r: System)
    requires Wf(s) && !StuckEnroll(s, n) && IsEnrolling(s, n)
    ensures Leads(s, events, r) && !Backed(r, n)
    decreases |EnrollSet(s, n)|
  {
    if j :| EnrollActive(s, j, n) {
      ActiveHasWorker(s, j, n);
      var first, t := FinishEnroll(s, j, n);
      OneEnrollLess(s, t, j, n);
      assert j in EnrollSet(s, n);
      var rest;
      rest, r := DrainEnroll(t, n);
      LeadsThen(s, first, t, rest, r);
      events := first + rest;
    } else {
      events, r := [], s;
    }
  }

  lemma MarkerStrands(s: System, j: JobId, n: NodeId) returns (events: seq<Event>, r: System)
    requires Wf(s) && !StuckEnroll(s, n) && Marker(s, j, n)
    ensures Leads(s, events, r) && !Backed(r, n)
  {
    var first, t := FinishEnroll(s, j, n);
    OneEnrollLess(s, t, j, n);
    var rest;
    rest, r := DrainEnroll(t, n);
    LeadsThen(s, first, t, rest, r);
    events := first + rest;
  }

  lemma CheckedStrands(s: System, c: CallId, n: NodeId) returns (events: seq<Event>, r: System)
    requires Wf(s) && !StuckEnroll(s, n) && CallOn(s, c, n) && s.calls[c].action == Enroll && s.calls[c].checked
    ensures Leads(s, events, r) && !Backed(r, n)
  {
    var first, t, j := CreateJob(s, c);
    forall i ensures !StuckEnrollJob(t, i, n) { assert !StuckEnrollJob(s, i, n); }
    var rest;
    rest, r := MarkerStrands(t, j, n);
    LeadsThen(s, first, t, rest, r);
    events := first + rest;
  }

  lemma RequestStrands(s: System, c: CallId, n: NodeId) returns (events: seq<Event>, r: System)
    requires Wf(s) && !StuckEnroll(s, n) && MayStart(s, c, n)
    ensures Leads(s, events, r) && !Backed(r, n)
  {
    if s.calls[c].checked {
      events, r := CheckedStrands(s, c, n);
    } else {
      var a, s1 := Drain(s, n);
      var b, s2 := PassCheck(s1, c, n);
      LeadsThen(s, a, s1, b, s2);
      forall i ensures !StuckEnrollJob(s2, i, n) { assert !ActiveOn(s2, i, n); }
      var rest;
      rest, r := CheckedStrands(s2, c, n);
      LeadsThen(s, a + b, s2, rest, r);
      events := a + b + rest;
    }
  }

  lemma Strands(s: System, n: NodeId) returns (events: seq<Event>, r: System)
    requires Wf(s) && !StuckEnroll(s, n) && !Calm(s, n)
    ensures Leads(s, events, r) && !Backed(r, n)
  {
    if IsEnrolling(s, n) {
      events, r := DrainEnroll(s, n);
    } else if j :| Marker(s, j, n) {
      events, r := MarkerStrands(s, j, n);
    } else {
      var c :| MayStart(s, c, n);
      events, r := RequestStrands(s, c, n);
    }
  }

  /**
   * Until another start request arrives, an enrolling node is sure to have an active enroll job exactly when one of
   * its enroll jobs is stuck, or the node is not enrolling and no worker or request under way can make it so.
   */
  lemma BackedExactly(s: System, n: NodeId)
    requires Wf(s) && Backed(s, n)
    ensures
      (forall events | Feasible(s, events) && WithoutLoads(events, n) :: Backed(Final(s, events), n)) <==>
      StuckEnroll(s, n) || Calm(s, n)
  {
    if StuckEnroll(s, n) {
      var j :| StuckEnrollJob(s, j, n);
      forall events | Feasible(s, events) && WithoutLoads(events, n) ensures Backed(Final(s, events), n) {
        StuckEnrollLasts(s, events, j, n);
        assert EnrollActive(Final(s, events), j, n);
      }
    } else if Calm(s, n) {
      forall events | Feasible(s, events) && WithoutLoads(events, n) ensures Backed(Final(s, events), n) {
        StaysCalm(s, events, n);
      }
    } else {
      var events, r := Strands(s, n);
      assert WithoutLoads(events, n) && r == Final(s, events);
    }
  }
}
