/**
 * Leader election over a database session lock: controllers tick, sessions die, replies get lost, and
 * instances shut down, in any interleaving.
 */
module LeaderElection {
  import opened Text

  type InstanceId = nat
  type Session = nat

  // ---- One elector ----

  datatype Callback = Elected | Demoted

  /** The gauge updater of the controller: the updaters running and the one `gaugeCancel` would stop. */
  datatype Gauges = Gauges(running: set<nat>, cancel: Option<nat>, next: nat)

  datatype Elector = Elector(isLeader: bool, log: seq<Callback>, gauges: Gauges)

  datatype Reply = Acquired | NotAcquired | QueryError

  function StartGauges(g: Gauges): (r: Gauges) {
    Gauges(g.running + {g.next}, Some(g.next), g.next + 1)
  }

  function StopGauges(g: Gauges): (r: Gauges) {
    if g.cancel.None? then g else Gauges(g.running - {g.cancel.value}, None, g.next)
  }

  function Elect(e: Elector): (r: Elector) {
    Elector(true, e.log + [Elected], StartGauges(e.gauges))
  }

  function Demote(e: Elector): (r: Elector) {
    Elector(false, e.log + [Demoted], StopGauges(e.gauges))
  }

  function OnReply(e: Elector, reply: Reply): (r: Elector) {
    match reply
    case QueryError => if e.isLeader then Demote(e) else e
    case Acquired => if e.isLeader then e else Elect(e)
    case NotAcquired => if e.isLeader then Demote(e) else e
  }

  const NEW_ELECTOR: Elector := Elector(false, [], Gauges({}, None, 0))

  /** Elections and demotions take turns, election first. */
  ghost predicate Alternates(log: seq<Callback>) {
    forall i | 0 <= i < |log| :: log[i] == if i % 2 == 0 then Elected else Demoted
  }

  /** The log takes turns, and exactly one gauge updater runs, exactly while the instance is leader. */
  ghost predicate Orderly(e: Elector) {
    && Alternates(e.log) && (e.isLeader <==> |e.log| % 2 == 1)
    && e.gauges.running == (if e.gauges.cancel.Some? then {e.gauges.cancel.value} else {})
    && (e.gauges.cancel.Some? <==> e.isLeader)
  }

  lemma ElectKeepsOrder(e: Elector)
    requires Orderly(e) && !e.isLeader
    ensures Orderly(Elect(e))
  {
  }

  lemma DemoteKeepsOrder(e: Elector)
    requires Orderly(e) && e.isLeader
    ensures Orderly(Demote(e))
  {
  }

  lemma ReplyKeepsOrder(e: Elector, reply: Reply)
    requires Orderly(e)
    ensures Orderly(OnReply(e, reply))
  {
    if e.isLeader { DemoteKeepsOrder(e); } else { ElectKeepsOrder(e); }
  }

  /** The last reply decides the role, and a change of role is announced once. */
  lemma ReplyDecides(e: Elector, reply: Reply)
    ensures OnReply(e, reply).isLeader <==> reply.Acquired?
    ensures OnReply(e, reply).log ==
      if e.isLeader == reply.Acquired? then e.log else e.log + [if reply.Acquired? then Elected else Demoted]
  {
  }

  /** The elector after the replies to its ticks. */
  function AfterReplies(e: Elector, replies: seq<Reply>): (r: Elector) {
    if replies == [] then e else OnReply(AfterReplies(e, replies[..|replies| - 1]), replies[|replies| - 1])
  }

  class PostgresLeaderElector {
    var isLeader: bool
    var log: seq<Callback>
    var gauges: Gauges

    ghost function Value(): (e: Elector)
      reads this
    {
      Elector(isLeader, log, gauges)
    }

    constructor ()
      ensures Value() == NEW_ELECTOR && Orderly(Value())
    {
      isLeader, log, gauges := false, [], Gauges({}, None, 0);
    }

    method ElectSelf()
      modifies this
      ensures Value() == Elect(old(Value()))
    {
      isLeader := true;
      log := log + [Elected];
      gauges := StartGauges(gauges);
    }

    method DemoteSelf()
      modifies this
      ensures Value() == Demote(old(Value()))
    {
      isLeader := false;
      log := log + [Demoted];
      gauges := StopGauges(gauges);
    }

    method TryAcquire(reply: Reply)
      modifies this
      ensures Value() == OnReply(old(Value()), reply)
      ensures isLeader <==> reply.Acquired?
      ensures log == if old(isLeader) == reply.Acquired? then old(log)
                     else old(log) + [if reply.Acquired? then Elected else Demoted]
    {
      if reply.QueryError? {
        if isLeader {
          DemoteSelf();
        }
        return;
      }
      var wasLeader := isLeader;
      if reply.Acquired? && !wasLeader {
        ElectSelf();
      } else if !reply.Acquired? && wasLeader {
        DemoteSelf();
      }
    }

    /** The election loop until the context is cancelled; it always returns demoted, with no updater running. */
    method Start(connOk: bool, first: Reply, ticks: seq<Reply>) returns (ok: bool)
      requires Orderly(Value()) && !isLeader
      modifies this
      ensures Orderly(Value()) && !isLeader && gauges.running == {} && ok == connOk
      ensures Value() ==
        if !connOk then old(Value())
        else var e := AfterReplies(old(Value()), [first] + ticks); if e.isLeader then Demote(e) else e
    {
      if !connOk {
        return false;
      }
      ReplyKeepsOrder(Value(), first);
      ghost var replies := [first] + ticks;
      assert replies[..1] == [first] && [first][..0] == [];
      TryAcquire(first);
      for i := 0 to |ticks|
        invariant Orderly(Value()) && Value() == AfterReplies(old(Value()), replies[..i + 1])
      {
        assert replies[..i + 2][..i + 1] == replies[..i + 1];
        ReplyKeepsOrder(Value(), ticks[i]);
        TryAcquire(ticks[i]);
      }
      assert replies[..|replies|] == replies;
      if isLeader {
        DemoteKeepsOrder(Value());
        DemoteSelf();
      }
      ok := true;
    }
  }

  // ---- All instances and the database ----

  /** The lock belongs to a session and stacks: it is free once unlocked as often as acquired. */
  datatype Lock = Free | Held(owner: Session, depth: nat)

  datatype Phase =
    | Idle
    | Looping
    | Replied(reply: Reply)     // the query has run, its reply is not yet acted on
    | Releasing                 // in the shutdown branch, after the unlock
    | Stopped

  /** `late` says the instance has sent a query since its session died. */
  datatype Instance = Instance(phase: Phase, session: Option<Session>, late: bool, e: Elector)

  datatype System = System(lock: Lock, dead: set<Session>, instances: map<InstanceId, Instance>)

  datatype Glitch = NoGlitch | LostRequest | LostReply

  datatype Step =
    | Open(i: InstanceId, s: Session)
    | OpenFails(i: InstanceId)
    | Query(i: InstanceId, glitch: Glitch)
    | Act(i: InstanceId)
    | Shutdown(i: InstanceId, unlockOk: bool)
    | FinishShutdown(i: InstanceId)
    | Die(s: Session)

  function TryLock(lock: Lock, s: Session): (r: Lock) {
    match lock
    case Free => Held(s, 1)
    case Held(owner, depth) => if owner == s then Held(s, depth + 1) else lock
  }

  function Unlock(lock: Lock, s: Session): (r: Lock) {
    if lock.Held? && lock.owner == s then (if lock.depth <= 1 then Free else Held(s, lock.depth - 1)) else lock
  }

  predicate Owns(lock: Lock, s: Session) {
    lock.Held? && lock.owner == s
  }

  ghost predicate Enabled(st: System, step: Step) {
    match step
    case Open(i, s) =>
      && i in st.instances && st.instances[i].phase.Idle?
      && s !in st.dead && !Owns(st.lock, s) && forall j | j in st.instances :: st.instances[j].session != Some(s)
    case OpenFails(i) => i in st.instances && st.instances[i].phase.Idle?
    case Query(i, _) => i in st.instances && st.instances[i].phase.Looping? && st.instances[i].session.Some?
    case Act(i) => i in st.instances && st.instances[i].phase.Replied?
    case Shutdown(i, _) => i in st.instances && st.instances[i].phase.Looping? && st.instances[i].session.Some?
    case FinishShutdown(i) => i in st.instances && st.instances[i].phase.Releasing?
    case Die(s) => s !in st.dead
  }

  function WithInstance(st: System, i: InstanceId, x: Instance): (r: System) {
    st.(instances := st.instances[i := x])
  }

  /** The reply to a query and what it did to the lock. */
  function QueryStep(st: System, s: Session, glitch: Glitch): (r: (Lock, Reply)) {
    if s in st.dead || glitch.LostRequest? then (st.lock, QueryError)
    else
      var lock := TryLock(st.lock, s);
      (lock, if glitch.LostReply? then QueryError else if Owns(lock, s) then Acquired else NotAcquired)
  }

  ghost function Apply(st: System, step: Step): (r: System)
    requires Enabled(st, step)
  {
    match step
    case Open(i, s) => WithInstance(st, i, st.instances[i].(phase := Looping, session := Some(s)))
    case OpenFails(i) => WithInstance(st, i, st.instances[i].(phase := Stopped))
    case Query(i, glitch) =>
      var x := st.instances[i];
      var (lock, reply) := QueryStep(st, x.session.value, glitch);
      WithInstance(st, i, x.(phase := Replied(reply), late := x.session.value in st.dead)).(lock := lock)
    case Act(i) =>
      var x := st.instances[i];
      WithInstance(st, i, x.(phase := Looping, e := OnReply(x.e, x.phase.reply)))
    case Shutdown(i, unlockOk) =>
      var x := st.instances[i];
      if !x.e.isLeader then WithInstance(st, i, x.(phase := Stopped))
      else
        var lock := if unlockOk && x.session.value !in st.dead then Unlock(st.lock, x.session.value) else st.lock;
        WithInstance(st, i, x.(phase := Releasing)).(lock := lock)
    case FinishShutdown(i) =>
      var x := st.instances[i];
      WithInstance(st, i, x.(phase := Stopped, e := Demote(x.e)))
    case Die(s) =>
      System(if Owns(st.lock, s) then Free else st.lock, st.dead + {s}, st.instances)
  }

  // ---- The invariant ----

  /** The instance says it leads, or is about to, outside the shutdown branch. */
  predicate Claims(x: Instance) {
    (x.phase.Looping? && x.e.isLeader) || (x.phase.Replied? && (x.e.isLeader || x.phase.reply.Acquired?))
  }

  /** A claim is backed by the lock unless the session has died; and no claim outlives a tick after the death. */
  ghost predicate Backed(st: System, x: Instance) {
    && (Claims(x) ==> x.session.Some? && (x.session.value in st.dead || Owns(st.lock, x.session.value)))
    && (x.late ==> x.session.Some? && x.session.value in st.dead)
    && (x.late && x.phase.Replied? ==> x.phase.reply.QueryError?)
    && (x.late && !x.phase.Replied? ==> !x.e.isLeader)
  }

  ghost predicate InstanceOk(st: System, x: Instance) {
    && Orderly(x.e) && Backed(st, x)
    && (x.phase.Idle? ==> x.session.None?)
    && (x.phase.Idle? || x.phase.Stopped? ==> !x.e.isLeader)
    && (x.phase.Releasing? ==> x.e.isLeader)
  }

  ghost predicate SessionsApart(st: System) {
    forall i, j | i in st.instances && j in st.instances && i != j && st.instances[i].session.Some? ::
      st.instances[i].session != st.instances[j].session
  }

  ghost predicate Inv(st: System) {
    && (st.lock.Held? ==> st.lock.owner !in st.dead && st.lock.depth > 0)
    && SessionsApart(st)
    && forall i | i in st.instances :: InstanceOk(st, st.instances[i])
  }

  /** A lock change by one session does not touch what backs the instances of other sessions. */
  lemma OthersStayBacked(st: System, lock: Lock, s: Session, x: Instance)
    requires InstanceOk(st, x) && x.session != Some(s)
    requires forall t | t != s :: Owns(st.lock, t) ==> Owns(lock, t)
    ensures InstanceOk(st.(lock := lock), x)
  {
  }

  /** One instance and the lock change; everybody else's session is another one. */
  lemma ChangeOne(st: System, i: InstanceId, x: Instance, lock: Lock, s: Session)
    requires Inv(st) && i in st.instances && st.instances[i].session == Some(s) && x.session == Some(s)
    requires InstanceOk(st.(lock := lock), x)
    requires lock.Held? ==> lock.owner !in st.dead && lock.depth > 0
    requires forall t | t != s :: Owns(st.lock, t) ==> Owns(lock, t)
    ensures Inv(WithInstance(st, i, x).(lock := lock))
  {
    forall j | j in st.instances && j != i ensures InstanceOk(st.(lock := lock), st.instances[j]) {
      OthersStayBacked(st, lock, s, st.instances[j]);
    }
  }

  lemma QueryKeepsInv(st: System, i: InstanceId, glitch: Glitch)
    requires Inv(st) && Enabled(st, Query(i, glitch))
    ensures Inv(Apply(st, Query(i, glitch)))
  {
    var x := st.instances[i];
    var s := x.session.value;
    var (lock, reply) := QueryStep(st, s, glitch);
    ChangeOne(st, i, x.(phase := Replied(reply), late := s in st.dead), lock, s);
  }

  lemma ActKeepsInv(st: System, i: InstanceId)
    requires Inv(st) && Enabled(st, Act(i))
    ensures Inv(Apply(st, Act(i)))
  {
    var x := st.instances[i];
    ReplyKeepsOrder(x.e, x.phase.reply);
  }

  lemma ShutdownKeepsInv(st: System, i: InstanceId, unlockOk: bool)
    requires Inv(st) && Enabled(st, Shutdown(i, unlockOk))
    ensures Inv(Apply(st, Shutdown(i, unlockOk)))
  {
    var x := st.instances[i];
    if x.e.isLeader {
      var s := x.session.value;
      var lock := if unlockOk && s !in st.dead then Unlock(st.lock, s) else st.lock;
      ChangeOne(st, i, x.(phase := Releasing), lock, s);
    }
  }

  lemma DieKeepsInv(st: System, s: Session)
    requires Inv(st) && s !in st.dead
    ensures Inv(Apply(st, Die(s)))
  {
    var r := Apply(st, Die(s));
    forall i | i in r.instances ensures InstanceOk(r, r.instances[i]) {
      assert InstanceOk(st, st.instances[i]);
    }
  }

  lemma StepKeepsInv(st: System, step: Step)
    requires Inv(st) && Enabled(st, step)
    ensures Inv(Apply(st, step))
  {
    match step
    case Open(i, s) =>
    case OpenFails(i) =>
    case Query(i, glitch) => QueryKeepsInv(st, i, glitch);
    case Act(i) => ActKeepsInv(st, i);
    case Shutdown(i, unlockOk) => ShutdownKeepsInv(st, i, unlockOk);
    case FinishShutdown(i) => DemoteKeepsOrder(st.instances[i].e);
    case Die(s) => DieKeepsInv(st, s);
  }

  ghost predicate Initial(st: System) {
    && st.lock.Free? && st.dead == {}
    && forall i | i in st.instances :: st.instances[i] == Instance(Idle, None, false, NEW_ELECTOR)
  }

  ghost predicate Execution(states: seq<System>, steps: seq<Step>) {
    && |states| == |steps| + 1 && Initial(states[0])
    && forall k | 0 <= k < |steps| :: Enabled(states[k], steps[k]) && states[k + 1] == Apply(states[k], steps[k])
  }

  lemma {:induction false} AlwaysInv(states: seq<System>, steps: seq<Step>, k: nat)
    requires Execution(states, steps) && k < |states|
    ensures Inv(states[k])
    decreases k
  {
    if k == 0 {
    } else {
      AlwaysInv(states, steps, k - 1);
      StepKeepsInv(states[k - 1], steps[k - 1]);
    }
  }

  predicate SessionAlive(st: System, x: Instance) {
    x.session.Some? && x.session.value !in st.dead
  }

  /** An instance leads in earnest: it says so, its session lives, and it is not shutting down. */
  predicate Leads(st: System, i: InstanceId) {
    && i in st.instances && st.instances[i].e.isLeader
    && SessionAlive(st, st.instances[i]) && !st.instances[i].phase.Releasing?
  }

  /** Why an instance may report leader without the lock. */
  predicate Excused(st: System, x: Instance) {
    || x.phase.Releasing?                                              // inside the shutdown branch
    || (!SessionAlive(st, x) && (!x.late || x.phase.Replied?))         // no tick completed since the session died
  }

  /** In every reachable state an instance that reports leader holds the lock or is excused. */
  lemma LeaderHoldsLock(states: seq<System>, steps: seq<Step>, k: nat, i: InstanceId)
    requires Execution(states, steps) && k < |states| && i in states[k].instances
    requires states[k].instances[i].e.isLeader
    ensures var st, x := states[k], states[k].instances[i];
      (x.session.Some? && Owns(st.lock, x.session.value)) || Excused(st, x)
  {
    AlwaysInv(states, steps, k);
    assert InstanceOk(states[k], states[k].instances[i]);
  }

  /** At most one instance leads in earnest. */
  lemma OneLeader(states: seq<System>, steps: seq<Step>, k: nat, i: InstanceId, j: InstanceId)
    requires Execution(states, steps) && k < |states| && Leads(states[k], i) && Leads(states[k], j)
    ensures i == j
  {
    AlwaysInv(states, steps, k);
    LeaderHoldsLock(states, steps, k, i);
    LeaderHoldsLock(states, steps, k, j);
  }

  /**
   * Callbacks alternate from the first election on, exactly one gauge updater runs while the instance is leader
   * and none otherwise, and a stopped instance is demoted.
   */
  lemma CallbacksAlternate(states: seq<System>, steps: seq<Step>, k: nat, i: InstanceId)
    requires Execution(states, steps) && k < |states| && i in states[k].instances
    ensures var x := states[k].instances[i];
      && Alternates(x.e.log)
      && |x.e.gauges.running| == (if x.e.isLeader then 1 else 0)
      && (x.phase.Stopped? ==> !x.e.isLeader)
  {
    AlwaysInv(states, steps, k);
    assert InstanceOk(states[k], states[k].instances[i]);
  }

  // ---- Who leads is what the last reply said ----

  /** The last reply instance `i` acted on in the first `k` steps. */
  ghost function LastReply(states: seq<System>, steps: seq<Step>, k: nat, i: InstanceId): (r: Option<Reply>)
    requires k <= |steps| && |states| == |steps| + 1
  {
    if k == 0 then None
    else if steps[k - 1] == Act(i) && i in states[k - 1].instances && states[k - 1].instances[i].phase.Replied?
    then Some(states[k - 1].instances[i].phase.reply)
    else LastReply(states, steps, k - 1, i)
  }

  /** In every run an instance that has not stopped reports leader exactly when the last reply it acted on said so. */
  lemma {:induction false} LeadsByLastReply(states: seq<System>, steps: seq<Step>, k: nat, i: InstanceId)
    requires Execution(states, steps) && k < |states| && i in states[k].instances
    requires !states[k].instances[i].phase.Stopped?
    ensures states[k].instances[i].e.isLeader <==> LastReply(states, steps, k, i) == Some(Acquired)
    decreases k
  {
    if k == 0 {
    } else {
      LeadsByLastReply(states, steps, k - 1, i);
      if steps[k - 1] == Act(i) {
        ReplyDecides(states[k - 1].instances[i].e, states[k - 1].instances[i].phase.reply);
      }
    }
  }

  /** A query is answered with the lock exactly when it arrives on a live session and nobody else holds the lock. */
  lemma QueryAcquiresExactly(st: System, i: InstanceId, glitch: Glitch)
    requires Enabled(st, Query(i, glitch))
    ensures var x, r := st.instances[i], Apply(st, Query(i, glitch));
      && r.instances[i].phase.Replied?
      && (r.instances[i].phase.reply.Acquired? <==>
          x.session.value !in st.dead && glitch.NoGlitch? && (st.lock.Free? || st.lock.owner == x.session.value))
  {
  }

  // ---- Shutdown unlocks once, ticks lock again: the lock can outlive the leader ----

  /** Becoming leader, one further tick, and a clean shutdown. */
  function TwoTickRun(): (steps: seq<Step>) {
    [Open(0, 0), Query(0, NoGlitch), Act(0), Query(0, NoGlitch), Act(0), Shutdown(0, true), FinishShutdown(0)]
  }

  function Alone(lock: Lock, phase: Phase, session: Option<Session>, e: Elector): (st: System) {
    System(lock, {}, map[0 := Instance(phase, session, false, e)])
  }

  function TwoTickStates(): (states: seq<System>) {
    var e := Elect(NEW_ELECTOR);
    [Alone(Free, Idle, None, NEW_ELECTOR),
     Alone(Free, Looping, Some(0), NEW_ELECTOR),
     Alone(Held(0, 1), Replied(Acquired), Some(0), NEW_ELECTOR),
     Alone(Held(0, 1), Looping, Some(0), e),
     Alone(Held(0, 2), Replied(Acquired), Some(0), e),
     Alone(Held(0, 2), Looping, Some(0), e),
     Alone(Held(0, 1), Releasing, Some(0), e),
     Alone(Held(0, 1), Stopped, Some(0), Demote(e))]
  }

  ghost predicate StepsTo(st: System, step: Step, r: System) {
    Enabled(st, step) && r == Apply(st, step)
  }

  lemma OpenAlone(e: Elector)
    ensures StepsTo(Alone(Free, Idle, None, e), Open(0, 0), Alone(Free, Looping, Some(0), e))
  {
  }

  lemma QueryAlone(depth: nat, e: Elector)
    ensures StepsTo(Alone(if depth == 0 then Free else Held(0, depth), Looping, Some(0), e), Query(0, NoGlitch),
                    Alone(Held(0, depth + 1), Replied(Acquired), Some(0), e))
  {
  }

  lemma ActAlone(depth: nat, e: Elector)
    ensures StepsTo(Alone(Held(0, depth), Replied(Acquired), Some(0), e), Act(0),
                    Alone(Held(0, depth), Looping, Some(0), OnReply(e, Acquired)))
  {
  }

  lemma ShutdownAlone(e: Elector)
    requires e.isLeader
    ensures StepsTo(Alone(Held(0, 2), Looping, Some(0), e), Shutdown(0, true), Alone(Held(0, 1), Releasing, Some(0), e))
    ensures StepsTo(Alone(Held(0, 1), Releasing, Some(0), e), FinishShutdown(0),
                    Alone(Held(0, 1), Stopped, Some(0), Demote(e)))
  {
  }

  lemma TwoTicks()
    ensures var s, steps := TwoTickStates(), TwoTickRun();
      forall k | 0 <= k < 7 :: StepsTo(s[k], steps[k], s[k + 1])
  {
    var e := Elect(NEW_ELECTOR);
    OpenAlone(NEW_ELECTOR);
    QueryAlone(0, NEW_ELECTOR);
    ActAlone(1, NEW_ELECTOR);
    QueryAlone(1, e);
    ActAlone(2, e);
    ShutdownAlone(e);
  }

  /** A stopped leader's live session can still hold the lock, and no other instance can be elected. */
  lemma LockOutlivesLeader()
    ensures Execution(TwoTickStates(), TwoTickRun())
    ensures var end := TwoTickStates()[7];
      && end.instances[0].phase.Stopped? && Owns(end.lock, 0) && 0 !in end.dead
      && forall s | s != 0 && s !in end.dead :: QueryStep(end, s, NoGlitch) == (end.lock, NotAcquired)
  {
    TwoTicks();
    var s, steps := TwoTickStates(), TwoTickRun();
    forall k | 0 <= k < 7 ensures Enabled(s[k], steps[k]) && s[k + 1] == Apply(s[k], steps[k]) {
      assert StepsTo(s[k], steps[k], s[k + 1]);
    }
  }

  /** The query takes the lock once more. */
  predicate TakesLock(st: System, i: InstanceId, step: Step) {
    && step.Query? && step.i == i && i in st.instances && SessionAlive(st, st.instances[i])
    && !step.glitch.LostRequest? && (st.lock.Free? || Owns(st.lock, st.instances[i].session.value))
  }

  /** How often instance `i` took the lock in the first `k` steps. */
  ghost function Takes(states: seq<System>, steps: seq<Step>, k: nat, i: InstanceId): (n: nat)
    requires k <= |steps| && |states| == |steps| + 1
  {
    if k == 0 then 0
    else Takes(states, steps, k - 1, i) + if TakesLock(states[k - 1], i, steps[k - 1]) then 1 else 0
  }

  predicate Running(st: System, i: InstanceId) {
    && i in st.instances && SessionAlive(st, st.instances[i])
    && (st.instances[i].phase.Looping? || st.instances[i].phase.Replied?)
  }

  function Depth(lock: Lock, s: Session): (d: nat) {
    if Owns(lock, s) then lock.depth else 0
  }

  lemma DepthStep(st: System, step: Step, i: InstanceId)
    requires Inv(st) && Enabled(st, step) && Running(Apply(st, step), i)
    ensures var r := Apply(st, step);
      var s := r.instances[i].session.value;
      if step == Open(i, s) then Depth(r.lock, s) == 0
      else
        && Running(st, i) && st.instances[i].session == Some(s)
        && Depth(r.lock, s) == Depth(st.lock, s) + if TakesLock(st, i, step) then 1 else 0
  {
    var r := Apply(st, step);
    var s := r.instances[i].session.value;
    if (step.Query? || step.Shutdown?) && step.i != i {
      assert st.instances[step.i].session != Some(s);
    }
  }

  lemma {:induction false} IdleTakesNothing(states: seq<System>, steps: seq<Step>, k: nat, i: InstanceId)
    requires Execution(states, steps) && k < |states| && i in states[k].instances && states[k].instances[i].phase.Idle?
    ensures Takes(states, steps, k, i) == 0
    decreases k
  {
    if k == 0 {
    } else {
      IdleTakesNothing(states, steps, k - 1, i);
    }
  }

  /** While an instance runs, the lock is as deep as the number of times the instance took it. */
  lemma {:induction false} DepthCountsTakes(states: seq<System>, steps: seq<Step>, k: nat, i: InstanceId)
    requires Execution(states, steps) && k < |states| && Running(states[k], i)
    ensures Depth(states[k].lock, states[k].instances[i].session.value) == Takes(states, steps, k, i)
    decreases k
  {
    if k == 0 {
    } else {
      AlwaysInv(states, steps, k - 1);
      DepthStep(states[k - 1], steps[k - 1], i);
      if steps[k - 1] == Open(i, states[k].instances[i].session.value) {
        IdleTakesNothing(states, steps, k - 1, i);
      } else {
        DepthCountsTakes(states, steps, k - 1, i);
      }
    }
  }

  /**
   * After any shutdown on a live session, of a leader or of an instance demoted before, whether or not the unlock
   * succeeds, the session still holds the lock exactly when the instance took it more often than it was unlocked.
   */
  lemma ShutdownKeepsLock(states: seq<System>, steps: seq<Step>, k: nat, i: InstanceId, unlockOk: bool)
    requires Execution(states, steps) && k < |steps| && steps[k] == Shutdown(i, unlockOk)
    requires SessionAlive(states[k], states[k].instances[i])
    ensures Owns(states[k + 1].lock, states[k].instances[i].session.value) <==>
      Takes(states, steps, k, i) > if states[k].instances[i].e.isLeader && unlockOk then 1 else 0
  {
    AlwaysInv(states, steps, k);
    assert InstanceOk(states[k], states[k].instances[i]);
    DepthCountsTakes(states, steps, k, i);
  }

  /** So a clean shutdown of a live leader frees the lock exactly when the instance took it only once. */
  lemma ShutdownFreesLock(states: seq<System>, steps: seq<Step>, k: nat, i: InstanceId)
    requires Execution(states, steps) && k < |steps| && steps[k] == Shutdown(i, true)
    requires states[k].instances[i].e.isLeader && SessionAlive(states[k], states[k].instances[i])
    ensures states[k + 1].lock.Free? <==> Takes(states, steps, k, i) == 1
  {
    ShutdownKeepsLock(states, steps, k, i, true);
    AlwaysInv(states, steps, k);
    LeaderHoldsLock(states, steps, k, i);
    DepthCountsTakes(states, steps, k, i);
  }
}
