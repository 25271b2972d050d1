/** Active jobs of a node over runs: jobs that block it for ever, and exactly when it can come to have two. */
module ActiveJobs {
  import opened Text
  import opened Provisioning
  import opened ProvisioningRuns

  predicate CallOn(s: System, c: CallId, n: NodeId) {
    c in s.calls && s.calls[c].node == n
  }

  ghost predicate OneActive(s: System, n: NodeId) {
    forall i, j :: ActiveOn(s, i, n) && ActiveOn(s, j, n) ==> i == j
  }

  ghost predicate NoneActive(s: System, n: NodeId) {
    forall j :: !ActiveOn(s, j, n)
  }

  /** At most one start request for the node is under way. */
  ghost predicate Serial(s: System, n: NodeId) {
    forall c, d :: CallOn(s, c, n) && CallOn(s, d, n) ==> c == d
  }

  /** A request that has passed its check finds no active job. */
  ghost predicate Checked(s: System, n: NodeId) {
    forall c, j :: CallOn(s, c, n) && s.calls[c].checked ==> !ActiveOn(s, j, n)
  }

  /** The worker writes the job record no more. */
  predicate Finished(w: Worker) {
    w.phase.Closing? || w.phase.Done?
  }

  /** An active job whose last write was lost: its record is never written again. */
  predicate StuckJob(s: System, j: JobId, n: NodeId) {
    ActiveOn(s, j, n) && j in s.workers && Finished(s.workers[j])
  }

  ghost predicate Stuck(s: System, n: NodeId) {
    exists j :: StuckJob(s, j, n)
  }

  /** Apart from a creation, nothing makes a job active. */
  lemma NoNewActive(s: System, e: Event, j: JobId, n: NodeId)
    requires Wf(s) && Enabled(s, e) && ActiveOn(Apply(s, e), j, n)
    ensures ActiveOn(s, j, n) || (e.Create? && e.ok && e.j == j && s.calls[e.c].node == n)
  {
    if j in s.jobs { EventForward(s, e, j); }
  }

  // ---- Requests that do not overlap ----

  lemma EventKeepsOneActive(s: System, e: Event, n: NodeId)
    requires Wf(s) && Enabled(s, e) && Serial(s, n) && OneActive(s, n) && Checked(s, n)
    ensures OneActive(Apply(s, e), n) && Checked(Apply(s, e), n)
  {
    var r := Apply(s, e);
    forall i, j | ActiveOn(r, i, n) && ActiveOn(r, j, n) ensures i == j {
      NoNewActive(s, e, i, n);
      NoNewActive(s, e, j, n);
      if e.Create? { assert CallOn(s, e.c, s.calls[e.c].node); }
    }
    forall c, j | CallOn(r, c, n) && r.calls[c].checked ensures !ActiveOn(r, j, n) {
      assert CallOn(s, c, n) || e.Load?;
      if ActiveOn(r, j, n) {
        NoNewActive(s, e, j, n);
        if e.Create? { assert CallOn(s, e.c, s.calls[e.c].node); }
      }
    }
  }

  ghost predicate SerialRun(s: System, events: seq<Event>, n: NodeId)
    requires Feasible(s, events)
    decreases |events|
  {
    Serial(s, n) && (events != [] ==> SerialRun(Apply(s, events[0]), events[1..], n))
  }

  lemma {:induction false} SerialKeepsOneActive(s: System, events: seq<Event>, n: NodeId)
    requires Wf(s) && Feasible(s, events) && OneActive(s, n) && Checked(s, n) && SerialRun(s, events, n)
    ensures OneActive(Final(s, events), n)
    decreases |events|
  {
    if events == [] {
    } else {
      EventKeepsOneActive(s, events[0], n);
      EventKeepsWf(s, events[0]);
      SerialKeepsOneActive(Apply(s, events[0]), events[1..], n);
    }
  }

  /** In every run in which start requests for a node do not overlap, it never has two active jobs. */
  lemma OneActiveJob(s: System, events: seq<Event>, n: NodeId)
    requires Initial(s) && Feasible(s, events) && SerialRun(s, events, n)
    ensures OneActive(Final(s, events), n)
  {
    InitialWf(s);
    SerialKeepsOneActive(s, events, n);
  }

  predicate LoadsOn(e: Event, n: NodeId) {
    e.Load? && e.n == n
  }

  /** No new start request for the node. */
  predicate WithoutLoads(events: seq<Event>, n: NodeId) {
    forall i | 0 <= i < |events| :: !LoadsOn(events[i], n)
  }

  lemma EventKeepsSerial(s: System, e: Event, n: NodeId)
    requires Enabled(s, e) && Serial(s, n) && !LoadsOn(e, n)
    ensures Serial(Apply(s, e), n)
  {
    var r := Apply(s, e);
    forall c | CallOn(r, c, n) ensures CallOn(s, c, n) {}
  }

  lemma {:induction false} StaysSerial(s: System, events: seq<Event>, n: NodeId)
    requires Feasible(s, events) && Serial(s, n) && WithoutLoads(events, n)
    ensures SerialRun(s, events, n)
    decreases |events|
  {
    if events == [] {
    } else {
      EventKeepsSerial(s, events[0], n);
      StaysSerial(Apply(s, events[0]), events[1..], n);
    }
  }

  // ---- A stuck job ----

  lemma StuckStays(s: System, e: Event, j: JobId, n: NodeId)
    requires Wf(s) && Enabled(s, e) && StuckJob(s, j, n)
    ensures StuckJob(Apply(s, e), j, n)
  {
    if Works(e) { WorkMoves(s, e); }
  }

  lemma StuckTurnsAway(s: System, c: CallId, n: NodeId)
    requires CallOn(s, c, n) && !s.calls[c].checked && Stuck(s, n)
    ensures c !in Apply(s, Check(c)).calls
  {
    var j :| StuckJob(s, j, n);
    assert ActiveOn(s, j, s.calls[c].node);
  }

  /** A stuck job turns every request away. */
  ghost predicate Blocked(s: System, n: NodeId) {
    Stuck(s, n) && OneActive(s, n) && forall c | CallOn(s, c, n) :: !s.calls[c].checked
  }

  lemma EventKeepsBlocked(s: System, e: Event, n: NodeId)
    requires Wf(s) && Enabled(s, e) && Blocked(s, n)
    ensures Blocked(Apply(s, e), n)
  {
    var r := Apply(s, e);
    var j :| StuckJob(s, j, n);
    StuckStays(s, e, j, n);
    if e.Create? { assert !CallOn(s, e.c, n); }
    forall i, k | ActiveOn(r, i, n) && ActiveOn(r, k, n) ensures i == k {
      NoNewActive(s, e, i, n);
      NoNewActive(s, e, k, n);
    }
    forall c | CallOn(r, c, n) ensures !r.calls[c].checked {
      assert CallOn(s, c, n) || e.Load?;
      if e == Check(c) { assert ActiveOn(s, j, s.calls[c].node); }
    }
  }

  lemma {:induction false} StaysBlocked(s: System, events: seq<Event>, n: NodeId)
    requires Wf(s) && Feasible(s, events) && Blocked(s, n)
    ensures Blocked(Final(s, events), n)
    decreases |events|
  {
    if events == [] {
    } else {
      EventKeepsBlocked(s, events[0], n);
      EventKeepsWf(s, events[0]);
      StaysBlocked(Apply(s, events[0]), events[1..], n);
    }
  }

  // ---- Jobs that are not stuck can be brought to their end ----

  /** How many accesses a worker is away from its last one, at most, with `left` of `all` steps to go. */
  function DistanceOf(phase: Phase, left: nat, all: nat): (d: nat) {
    match phase
    case Queued => 2 * all + 5
    case Marking => 2 * all + 4
    case Saving => 2 * left + 3
    case Working => 2 * left + 2
    case Ending(_) => 2
    case Closing(_) => 1
    case Done => 0
  }

  function Left(w: Worker): (n: nat) {
    if |w.results| < |Steps(w)| then |Steps(w)| - |w.results| else 0
  }

  function Distance(w: Worker): (d: nat) {
    DistanceOf(w.phase, Left(w), |Steps(w)|)
  }

  /** The access that brings a worker closer to its end. */
  function Onward(w: Worker, j: JobId): (e: Event) {
    match w.phase
    case Queued => Begin(j, true)
    case Marking => Mark(j, true)
    case Saving => Save(j, true)
    case Working => Succeed(j)
    case Ending(_) => End(j, true)
    case _ => Close(j, true)
  }

  lemma OnwardDue(w: Worker, j: JobId)
    requires w.phase != Done
    ensures var e := Onward(w, j); Works(e) && e.j == j && Due(w.phase, e)
  {
  }

  lemma AdvancedCloser(w: Worker)
    requires |w.results| < |Steps(w)| && w.phase == Working
    ensures Distance(Advanced(w)) < Distance(w)
  {
    var a := Advanced(w);
    assert a.action == w.action && |a.results| == |w.results| + 1;
    assert Left(a) == Left(w) - 1;
  }

  /** With the same steps to go, only the phase counts. */
  lemma PhaseCloser(w: Worker, m: Worker)
    requires m.action == w.action && m.results == w.results && Left(w) <= |Steps(w)|
    requires DistanceOf(m.phase, Left(w), |Steps(w)|) < DistanceOf(w.phase, Left(w), |Steps(w)|)
    ensures Distance(m) < Distance(w)
  {
  }

  lemma OnwardCloser(w: Worker, j: JobId)
    requires w.phase != Done && (w.phase == Working ==> |w.results| < |Steps(w)|)
    requires var e := Onward(w, j); Works(e) && Due(w.phase, e)
    ensures Distance(MoveOf(w, Onward(w, j)).worker) < Distance(w)
  {
    match w.phase
    case Queued => PhaseCloser(w, Begun(w));
    case Marking => PhaseCloser(w, Marked(w, true));
    case Saving => PhaseCloser(w, w.(phase := Working));
    case Working => AdvancedCloser(w);
    case Ending(_) => PhaseCloser(w, Ended(w));
    case Closing(_) => PhaseCloser(w, Closed(w, true));
  }

  lemma OnwardMoves(w: Worker, j: JobId)
    requires WorkerOk(w) && w.phase != Done
    ensures var e := Onward(w, j);
      Works(e) && e.j == j && Due(w.phase, e) && Distance(MoveOf(w, e).worker) < Distance(w)
  {
    OnwardDue(w, j);
    OnwardCloser(w, j);
  }

  lemma WorkMoves(s: System, e: Event)
    requires Works(e) && Enabled(s, e)
    ensures Apply(s, e) == Moved(s, e.j, MoveOf(s.workers[e.j], e))
  {
  }

  /** No request and no agent intervenes. */
  predicate Undisturbed(events: seq<Event>) {
    forall i | 0 <= i < |events| :: !events[i].Load? && !events[i].Enrolls?
  }

  /** At most job `j`, its worker and node statuses differ. */
  ghost predicate Aside(s: System, r: System, j: JobId) {
    && r.calls == s.calls && r.jobs.Keys == s.jobs.Keys && r.workers.Keys == s.workers.Keys
    && r.nodes.Keys == s.nodes.Keys
    && (forall i | i in s.jobs && i != j :: r.jobs[i] == s.jobs[i])
    && (forall i | i in s.workers && i != j :: r.workers[i] == s.workers[i])
  }

  lemma MovedAside(s: System, j: JobId, m: Move)
    requires j in s.jobs && j in s.workers && m.worker.node in s.nodes
    ensures Aside(s, Moved(s, j, m), j)
  {
  }

  lemma AsideTwice(s: System, r: System, t: System, j: JobId)
    requires Aside(s, r, j) && Aside(r, t, j)
    ensures Aside(s, t, j)
  {
  }

  /** The events, undisturbed, lead from `s` to `r`. */
  ghost predicate Leads(s: System, events: seq<Event>, r: System) {
    Undisturbed(events) && Feasible(s, events) && r == Final(s, events)
  }

  lemma LeadsFirst(s: System, e: Event, r: System, events: seq<Event>, t: System)
    requires StepsTo(s, e, r) && Leads(r, events, t) && !e.Load? && !e.Enrolls?
    ensures Leads(s, [e] + events, t)
  {
    OneEvent(s, e, r, events);
  }

  lemma LeadsThen(s: System, a: seq<Event>, r: System, b: seq<Event>, t: System)
    requires Leads(s, a, r) && Leads(r, b, t)
    ensures Leads(s, a + b, t)
  {
    RunOn(s, a, b);
  }

  /** The end of a job leaves its record final. */
  lemma EndRecorded(w: Worker, j: JobId)
    requires WorkerOk(w) && !Finished(w) && Finished(MoveOf(w, Onward(w, j)).worker)
    ensures var job := MoveOf(w, Onward(w, j)).job;
      job.Some? && (job.value.status == JobCompleted || job.value.status == JobFailed)
  {
  }

  lemma OnwardStep(s: System, j: JobId) returns (r: System)
    requires Wf(s) && j in s.workers && !Finished(s.workers[j])
    ensures StepsTo(s, Onward(s.workers[j], j), r) && Wf(r) && Aside(s, r, j) && j in r.workers
    ensures Distance(r.workers[j]) < Distance(s.workers[j])
    ensures Finished(r.workers[j]) ==> forall n :: !ActiveOn(r, j, n)
  {
    var w := s.workers[j];
    assert JobOk(s, j);
    var e := Onward(w, j);
    OnwardMoves(w, j);
    WorkerMoves(w, e);
    WorkMoves(s, e);
    EventKeepsWf(s, e);
    MovedAside(s, j, MoveOf(w, e));
    r := Apply(s, e);
    if Finished(r.workers[j]) { EndRecorded(w, j); }
  }

  lemma GoesOnward(s: System, j: JobId) returns (events: seq<Event>, r: System)
    requires Wf(s) && j in s.workers && !Finished(s.workers[j])
    ensures Leads(s, events, r) && Wf(r) && Aside(s, r, j) && j in r.workers
    ensures Distance(r.workers[j]) < Distance(s.workers[j])
    ensures Finished(r.workers[j]) ==> forall n :: !ActiveOn(r, j, n)
  {
    r := OnwardStep(s, j);
    OnwardDue(s.workers[j], j);
    var e := Onward(s.workers[j], j);
    LeadsFirst(s, e, r, [], r);
    events := [e] + [];
  }

  /** A worker that is not finished can record the end of its job. */
  lemma {:induction false} FinishJob(s: System, j: JobId) returns (events: seq<Event>, r: System)
    requires Wf(s) && j in s.workers && !Finished(s.workers[j])
    ensures Leads(s, events, r) && Wf(r) && Aside(s, r, j) && forall n :: !ActiveOn(r, j, n)
    decreases Distance(s.workers[j])
  {
    var t;
    events, t := GoesOnward(s, j);
    if Finished(t.workers[j]) {
      r := t;
    } else {
      var rest;
      rest, r := FinishJob(t, j);
      AsideTwice(s, t, r, j);
      LeadsThen(s, events, t, rest, r);
      events := events + rest;
    }
  }

  function ActiveSet(s: System, n: NodeId): (js: set<JobId>) {
    set j | j in s.jobs && ActiveOn(s, j, n)
  }

  /** When no job of the node is stuck, all of them can be brought to their end. */
  lemma {:induction false} Drain(s: System, n: NodeId) returns (events: seq<Event>, r: System)
    requires Wf(s) && !Stuck(s, n)
    ensures Leads(s, events, r) && Wf(r) && NoneActive(r, n) && r.calls == s.calls
    decreases |ActiveSet(s, n)|
  {
    if NoneActive(s, n) {
      events, r := [], s;
    } else {
      var j :| ActiveOn(s, j, n);
      assert !StuckJob(s, j, n);
      var first, t := FinishJob(s, j);
      OneLess(s, t, j, n);
      var rest;
      rest, r := Drain(t, n);
      LeadsThen(s, first, t, rest, r);
      events := first + rest;
    }
  }

  lemma OneLess(s: System, r: System, j: JobId, n: NodeId)
    requires Aside(s, r, j) && ActiveOn(s, j, n) && !ActiveOn(r, j, n) && !Stuck(s, n)
    ensures |ActiveSet(r, n)| < |ActiveSet(s, n)| && !Stuck(r, n)
  {
    assert ActiveSet(r, n) == ActiveSet(s, n) - {j};
    forall i ensures !StuckJob(r, i, n) { assert !StuckJob(s, i, n); }
  }

  // ---- Requests that overlap ----

  /** With no active job a request passes its check. */
  lemma PassCheck(s: System, c: CallId, n: NodeId) returns (events: seq<Event>, r: System)
    requires Wf(s) && CallOn(s, c, n) && NoneActive(s, n)
    ensures Leads(s, events, r) && Wf(r) && r == s.(calls := s.calls[c := s.calls[c].(checked := true)])
    ensures NoneActive(r, n)
  {
    r := s.(calls := s.calls[c := s.calls[c].(checked := true)]);
    forall j ensures !ActiveOn(r, j, n) { assert !ActiveOn(s, j, n); }
    if s.calls[c].checked {
      events := [];
      assert r == s;
    } else {
      LeadsFirst(s, Check(c), r, [], r);
      events := [Check(c)] + [];
      EventKeepsWf(s, Check(c));
    }
  }

  /** A checked request creates its job. */
  lemma CreateJob(s: System, c: CallId) returns (events: seq<Event>, r: System, j: JobId)
    requires Wf(s) && c in s.calls && s.calls[c].checked
    ensures Leads(s, events, r) && Wf(r) && j !in s.jobs && r.calls == s.calls - {c}
    ensures var call := s.calls[c];
      && r.jobs == s.jobs[j := Record(call.node, call.action, JobPending, [])]
      && r.workers == s.workers[j := Worker(call.node, call.action, [], Queued, call.status, false)]
  {
    j := FreshId(s.jobs.Keys);
    var e := Create(c, j, true);
    r := Apply(s, e);
    LeadsFirst(s, e, r, [], r);
    events := [e] + [];
    EventKeepsWf(s, e);
  }

  /** A checked request beside an active job gives the node a second one. */
  lemma SecondJob(s: System, c: CallId, j: JobId, n: NodeId) returns (events: seq<Event>, r: System)
    requires Wf(s) && CallOn(s, c, n) && s.calls[c].checked && ActiveOn(s, j, n)
    ensures Leads(s, events, r) && !OneActive(r, n)
  {
    var i;
    events, r, i := CreateJob(s, c);
    assert ActiveOn(r, i, n) && ActiveOn(r, j, n);
  }

  /** Two requests that find no active job can both pass their checks and create a job each. */
  lemma BothCreate(s: System, c: CallId, d: CallId, n: NodeId) returns (events: seq<Event>, r: System)
    requires Wf(s) && CallOn(s, c, n) && CallOn(s, d, n) && c != d && NoneActive(s, n)
    ensures Leads(s, events, r) && !OneActive(r, n)
  {
    var a, s1 := PassCheck(s, c, n);
    var b, s2 := PassCheck(s1, d, n);
    LeadsThen(s, a, s1, b, s2);
    var first, s3, j := CreateJob(s2, c);
    LeadsThen(s, a + b, s2, first, s3);
    var second;
    second, r := SecondJob(s3, d, j, n);
    LeadsThen(s, a + b + first, s3, second, r);
    events := a + b + first + second;
  }

  /** Two requests under way for a node without a stuck job can leave it with two active jobs. */
  lemma OverlapAdmitsTwo(s: System, c: CallId, d: CallId, n: NodeId) returns (events: seq<Event>, r: System)
    requires Wf(s) && CallOn(s, c, n) && CallOn(s, d, n) && c != d && !Stuck(s, n)
    ensures Leads(s, events, r) && !OneActive(r, n)
  {
    var first, t := Drain(s, n);
    var rest;
    rest, r := BothCreate(t, c, d, n);
    LeadsThen(s, first, t, rest, r);
    events := first + rest;
  }

  // ---- Exactly when a node keeps to one active job ----

  /**
   * Until another start request arrives, a node keeps to one active job exactly when no request that passed its
   * check stands beside an active job, and either a stuck job turns all requests away or at most one is under way.
   */
  lemma OneActiveExactly(s: System, n: NodeId)
    requires Wf(s) && OneActive(s, n)
    ensures
      (forall events | Feasible(s, events) && WithoutLoads(events, n) :: OneActive(Final(s, events), n)) <==>
      Checked(s, n) && (Stuck(s, n) || Serial(s, n))
  {
    if !Checked(s, n) {
      var c, j :| CallOn(s, c, n) && s.calls[c].checked && ActiveOn(s, j, n);
      var events, r := SecondJob(s, c, j, n);
      assert WithoutLoads(events, n);
    } else if Stuck(s, n) {
      StuckKeepsOneActive(s, n);
    } else if Serial(s, n) {
      forall events | Feasible(s, events) && WithoutLoads(events, n) ensures OneActive(Final(s, events), n) {
        StaysSerial(s, events, n);
        SerialKeepsOneActive(s, events, n);
      }
    } else {
      var c, d :| CallOn(s, c, n) && CallOn(s, d, n) && c != d;
      var events, r := OverlapAdmitsTwo(s, c, d, n);
      assert WithoutLoads(events, n);
    }
  }

  /** A stuck job keeps the node to one active job whatever happens. */
  lemma StuckKeepsOneActive(s: System, n: NodeId)
    requires Wf(s) && OneActive(s, n) && Checked(s, n) && Stuck(s, n)
    ensures forall events | Feasible(s, events) :: OneActive(Final(s, events), n)
  {
    var j :| StuckJob(s, j, n);
    assert ActiveOn(s, j, n);
    forall events | Feasible(s, events) ensures OneActive(Final(s, events), n) {
      StaysBlocked(s, events, n);
    }
  }

  /** A start request for an online node. */
  lemma RequestArrives(s: System, n: NodeId) returns (events: seq<Event>, r: System, c: CallId)
    requires Wf(s) && n in s.nodes && s.nodes[n] == Online
    ensures Feasible(s, events) && r == Final(s, events) && Wf(r)
    ensures c !in s.calls && r == s.(calls := s.calls[c := Call(n, Restart, Online, false)])
  {
    c := FreshId(s.calls.Keys);
    var e := Load(c, n, Restart);
    r := Apply(s, e);
    EventKeepsWf(s, e);
    OneEvent(s, e, r, []);
    events := [e] + [];
  }

  lemma AgentEnrolls(s: System, n: NodeId) returns (events: seq<Event>, r: System)
    requires Wf(s) && n in s.nodes
    ensures Feasible(s, events) && r == Final(s, events) && Wf(r) && r == s.(nodes := s.nodes[n := Online])
  {
    r := Apply(s, Enrolls(n));
    EventKeepsWf(s, Enrolls(n));
    OneEvent(s, Enrolls(n), r, []);
    events := [Enrolls(n)] + [];
  }

  /** An agent's enrollment and then two start requests for the node. */
  lemma TwoRequests(s: System, n: NodeId) returns (events: seq<Event>, r: System, c: CallId, d: CallId)
    requires Wf(s) && n in s.nodes
    ensures Feasible(s, events) && r == Final(s, events) && Wf(r)
    ensures r.jobs == s.jobs && r.workers == s.workers && CallOn(r, c, n) && CallOn(r, d, n) && c != d
  {
    var first, s1 := AgentEnrolls(s, n);
    var a, s2, c1 := RequestArrives(s1, n);
    var b;
    b, r, d := RequestArrives(s2, n);
    c := c1;
    RunOn(s, first, a);
    RunOn(s, first + a, b);
    events := first + a + b;
  }

  lemma StrangerHasNone(s: System, n: NodeId)
    requires Wf(s) && n !in s.nodes
    ensures NoneActive(s, n)
  {
    forall j ensures !ActiveOn(s, j, n) {
      if j in s.workers { assert JobOk(s, j); }
    }
  }

  lemma EventKeepsStranger(s: System, e: Event, n: NodeId)
    requires Wf(s) && Enabled(s, e) && n !in s.nodes
    ensures n !in Apply(s, e).nodes
  {
    if Works(e) {
      assert JobOk(s, e.j);
      WorkerMoves(s.workers[e.j], e);
      WorkMoves(s, e);
    }
  }

  lemma {:induction false} StaysStranger(s: System, events: seq<Event>, n: NodeId)
    requires Wf(s) && Feasible(s, events) && n !in s.nodes
    ensures NoneActive(Final(s, events), n)
    decreases |events|
  {
    if events == [] {
      StrangerHasNone(s, n);
    } else {
      EventKeepsStranger(s, events[0], n);
      EventKeepsWf(s, events[0]);
      StaysStranger(Apply(s, events[0]), events[1..], n);
    }
  }

  /**
   * When new requests may arrive too, only a stuck job keeps a known node to one active job for ever: every other
   * state leads to one with two.
   */
  lemma OneActiveForEver(s: System, n: NodeId)
    requires Wf(s) && OneActive(s, n)
    ensures
      (forall events | Feasible(s, events) :: OneActive(Final(s, events), n)) <==>
      n !in s.nodes || (Checked(s, n) && Stuck(s, n))
  {
    if n !in s.nodes {
      forall events | Feasible(s, events) ensures OneActive(Final(s, events), n) { StaysStranger(s, events, n); }
    } else if !Checked(s, n) {
      var c, j :| CallOn(s, c, n) && s.calls[c].checked && ActiveOn(s, j, n);
      var events, r := SecondJob(s, c, j, n);
      assert r == Final(s, events);
    } else if Stuck(s, n) {
      StuckKeepsOneActive(s, n);
    } else {
      var events := SecondJobArrives(s, n);
    }
  }

  /** New requests can give a known node without a stuck job two active jobs. */
  lemma SecondJobArrives(s: System, n: NodeId) returns (events: seq<Event>)
    requires Wf(s) && n in s.nodes && !Stuck(s, n)
    ensures Feasible(s, events) && !OneActive(Final(s, events), n)
  {
    var first, t, c, d := TwoRequests(s, n);
    forall j ensures !StuckJob(t, j, n) { assert !StuckJob(s, j, n); }
    var rest, r := OverlapAdmitsTwo(t, c, d, n);
    RunOn(s, first, rest);
    events := first + rest;
  }
}
