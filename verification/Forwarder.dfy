/**
 * The route reconciler of nodes and gateways: it drives the open listeners toward a desired set of routes,
 * visiting maps in any order, with binds that can fail.
 */
module Forwarding {
  import opened Text

  type Id = nat
  type Handle = nat

  datatype Protocol = Tcp | Udp | All | Unsupported(name: string)
  datatype Transport = TCP | UDP
  datatype Endpoint = Endpoint(transport: Transport, ip: string, port: int)

  datatype Route = Route(name: string, protocol: Protocol, entryIP: string, entryPort: Option<int>,
                         destinationIP: string, destinationPort: Option<int>)

  /** A route with the overlay address of its gateway. */
  datatype Desired = Desired(route: Route, gatewayWGIP: string)

  /** A node binds each route's own entry address; a gateway binds its overlay address. */
  datatype Side = Node | Gateway(wireGuardIP: string)

  datatype Runtime = Runtime(want: Desired, tcp: Option<Handle>, udp: Option<Handle>)

  /** Open listeners by handle; `attempts` numbers the binds tried so far. */
  datatype State = State(running: bool, routes: map<Id, Runtime>, open: map<Handle, Endpoint>, attempts: nat)

  /** The operating system: which endpoints exclude each other, and which attempts fail for other reasons. */
  datatype Kernel = Kernel(conflicts: (Endpoint, Endpoint) -> bool, faulty: nat -> bool)

  function SafePort(p: Option<int>): (port: int) {
    if p.None? then 0 else p.value
  }

  function EndpointOf(side: Side, want: Desired, transport: Transport): (e: Endpoint) {
    Endpoint(transport, if side.Node? then want.route.entryIP else side.wireGuardIP, SafePort(want.route.entryPort))
  }

  /** The listeners a protocol asks for. */
  predicate Uses(want: Desired, t: Transport) {
    match want.route.protocol
    case Tcp => t == TCP
    case Udp => t == UDP
    case All => true
    case Unsupported(_) => false
  }

  predicate RouteChanged(side: Side, existing: Desired, want: Desired) {
    var r, d := existing.route, want.route;
    || (side.Node? && r.entryIP != d.entryIP)
    || r.entryPort != d.entryPort
    || r.protocol != d.protocol
    || (side.Node? && existing.gatewayWGIP != want.gatewayWGIP)
    || r.destinationIP != d.destinationIP
    || r.destinationPort != d.destinationPort
  }

  /** On a node a route is unchanged exactly when nothing but its name differs. */
  lemma UnchangedOnNode(existing: Desired, want: Desired)
    ensures !RouteChanged(Node, existing, want) <==>
      existing == want.(route := want.route.(name := existing.route.name))
  {
  }

  /** On a gateway the entry address and the gateway's own overlay address do not matter either. */
  lemma UnchangedOnGateway(ip: string, existing: Desired, want: Desired)
    ensures !RouteChanged(Gateway(ip), existing, want) <==>
      existing == Desired(want.route.(name := existing.route.name, entryIP := existing.route.entryIP),
                          existing.gatewayWGIP)
  {
  }

  /** An unchanged route listens on the same endpoints. */
  lemma UnchangedSameEndpoints(side: Side, existing: Desired, want: Desired, t: Transport)
    requires !RouteChanged(side, existing, want)
    ensures EndpointOf(side, existing, t) == EndpointOf(side, want, t) && Uses(existing, t) == Uses(want, t)
  {
  }

  // ---- One route ----

  datatype Bound = Bound(state: State, handle: Option<Handle>)

  function Bind(k: Kernel, st: State, e: Endpoint): (r: Bound) {
    var tried := st.(attempts := st.attempts + 1);
    if k.faulty(st.attempts) || exists h | h in st.open :: k.conflicts(e, st.open[h]) then Bound(tried, None)
    else Bound(tried.(open := st.open[st.attempts := e]), Some(st.attempts))
  }

  function Close(st: State, h: Option<Handle>): (r: State) {
    if h.None? then st else st.(open := st.open - {h.value})
  }

  datatype Started = Started(state: State, runtime: Option<Runtime>)

  function StartTcp(k: Kernel, side: Side, st: State, want: Desired): (r: Started) {
    var b := Bind(k, st, EndpointOf(side, want, TCP));
    Started(b.state, if b.handle.None? then None else Some(Runtime(want, b.handle, None)))
  }

  function StartUdp(k: Kernel, side: Side, st: State, want: Desired, tcp: Option<Handle>): (r: Started) {
    var b := Bind(k, st, EndpointOf(side, want, UDP));
    if b.handle.None? then Started(Close(b.state, tcp), None)
    else Started(b.state, Some(Runtime(want, tcp, b.handle)))
  }

  /** "all" opens both listeners, and closes the first again when the second fails. */
  function StartRoute(k: Kernel, side: Side, st: State, want: Desired): (r: Started) {
    match want.route.protocol
    case Tcp => StartTcp(k, side, st, want)
    case Udp => StartUdp(k, side, st, want, None)
    case All =>
      var t := StartTcp(k, side, st, want);
      if t.runtime.None? then t else StartUdp(k, side, t.state, want, t.runtime.value.tcp)
    case Unsupported(_) => Started(st, None)
  }

  function StopRoute(st: State, rt: Runtime): (r: State) {
    Close(Close(st, rt.tcp), rt.udp)
  }

  function RemoveRoute(st: State, id: Id): (r: State)
    requires id in st.routes
  {
    StopRoute(st, st.routes[id]).(routes := st.routes - {id})
  }

  /** One iteration of the start loop. */
  function Ensure(k: Kernel, side: Side, st: State, id: Id, want: Desired): (r: State) {
    if id in st.routes && !RouteChanged(side, st.routes[id].want, want) then st
    else
      var stopped := if id in st.routes then RemoveRoute(st, id) else st;
      var s := StartRoute(k, side, stopped, want);
      if s.runtime.None? then s.state else s.state.(routes := s.state.routes[id := s.runtime.value])
  }

  // ---- A pass ----

  function RemoveRoutes(st: State, ids: seq<Id>): (r: State) {
    if ids == [] then st
    else
      var before := RemoveRoutes(st, ids[..|ids| - 1]);
      var id := ids[|ids| - 1];
      if id in before.routes then RemoveRoute(before, id) else before
  }

  function EnsureRoutes(k: Kernel, side: Side, st: State, desired: map<Id, Desired>, ids: seq<Id>): (r: State)
    requires forall id | id in ids :: id in desired
  {
    if ids == [] then st
    else
      var id := ids[|ids| - 1];
      assert id in ids;
      Ensure(k, side, EnsureRoutes(k, side, st, desired, ids[..|ids| - 1]), id, desired[id])
  }

  /** `ids` visits every element of `keys` exactly once. */
  ghost predicate Visits(ids: seq<Id>, keys: set<Id>) {
    && (forall id :: id in ids <==> id in keys)
    && (forall i, j | 0 <= i < j < |ids| :: ids[i] != ids[j])
  }

  ghost predicate PassOrder(st: State, desired: map<Id, Desired>, stops: seq<Id>, starts: seq<Id>) {
    Visits(stops, st.routes.Keys - desired.Keys) && Visits(starts, desired.Keys)
  }

  ghost function Pass(k: Kernel, side: Side, st: State, desired: map<Id, Desired>, stops: seq<Id>, starts: seq<Id>)
    : (r: State)
    requires PassOrder(st, desired, stops, starts)
  {
    EnsureRoutes(k, side, RemoveRoutes(st, stops), desired, starts)
  }

  // ---- Who owns the open listeners ----

  function Handles(rt: Runtime): (hs: set<Handle>) {
    (if rt.tcp.Some? then {rt.tcp.value} else {}) + (if rt.udp.Some? then {rt.udp.value} else {})
  }

  /** The runtime has exactly the listeners its protocol asks for, open on its endpoint. */
  ghost predicate Listens(side: Side, open: map<Handle, Endpoint>, rt: Runtime) {
    && (rt.tcp.Some? <==> rt.want.route.protocol.Tcp? || rt.want.route.protocol.All?)
    && (rt.udp.Some? <==> rt.want.route.protocol.Udp? || rt.want.route.protocol.All?)
    && !rt.want.route.protocol.Unsupported?
    && (rt.tcp.Some? ==> rt.tcp.value in open && open[rt.tcp.value] == EndpointOf(side, rt.want, TCP))
    && (rt.udp.Some? ==> rt.udp.value in open && open[rt.udp.value] == EndpointOf(side, rt.want, UDP))
  }

  ghost predicate OwnedBy(routes: map<Id, Runtime>, h: Handle, id: Id) {
    id in routes && h in Handles(routes[id])
  }

  ghost predicate AllListen(side: Side, routes: map<Id, Runtime>, open: map<Handle, Endpoint>) {
    forall id | id in routes :: Listens(side, open, routes[id])
  }

  ghost predicate Owned(routes: map<Id, Runtime>, h: Handle) {
    exists id :: OwnedBy(routes, h, id)
  }

  ghost predicate AllOwned(routes: map<Id, Runtime>, open: map<Handle, Endpoint>, attempts: nat) {
    forall h | h in open :: h < attempts && Owned(routes, h)
  }

  ghost predicate OwnedOnce(routes: map<Id, Runtime>) {
    forall h, i, j :: OwnedBy(routes, h, i) && OwnedBy(routes, h, j) ==> i == j
  }

  /** The open listeners are exactly those of the routes in the map, each owned once. */
  ghost predicate Conserved(side: Side, st: State) {
    && AllListen(side, st.routes, st.open) && AllOwned(st.routes, st.open, st.attempts) && OwnedOnce(st.routes)
    && (!st.running ==> st.routes == map[])
  }

  /** What a start that succeeds adds: exactly the listeners of the new runtime, all new. */
  ghost predicate Adds(side: Side, st: State, s: State, rt: Runtime) {
    && Listens(side, s.open, rt)
    && (forall h :: h in s.open <==> h in st.open || h in Handles(rt))
    && (forall h | h in st.open :: s.open[h] == st.open[h])
    && (forall h | h in Handles(rt) :: st.attempts <= h < s.attempts)
  }

  ghost predicate StartEffect(side: Side, st: State, want: Desired, s: Started) {
    && s.state.routes == st.routes && s.state.running == st.running && s.state.attempts >= st.attempts
    && (s.runtime.None? ==> s.state.open == st.open)
    && (s.runtime.Some? ==> s.runtime.value.want == want && Adds(side, st, s.state, s.runtime.value))
  }

  lemma StartTcpEffect(k: Kernel, side: Side, st: State, want: Desired)
    requires (forall h | h in st.open :: h < st.attempts) && want.route.protocol.Tcp?
    ensures StartEffect(side, st, want, StartTcp(k, side, st, want))
  {
  }

  lemma StartUdpEffect(k: Kernel, side: Side, st: State, want: Desired)
    requires (forall h | h in st.open :: h < st.attempts) && want.route.protocol.Udp?
    ensures StartEffect(side, st, want, StartUdp(k, side, st, want, None))
  {
  }

  lemma StartAllEffect(k: Kernel, side: Side, st: State, want: Desired)
    requires (forall h | h in st.open :: h < st.attempts) && want.route.protocol.All?
    ensures StartEffect(side, st, want, StartRoute(k, side, st, want))
  {
    var t := StartTcp(k, side, st, want);
    if t.runtime.Some? {
      assert t.state.open - {st.attempts} == st.open;
    }
  }

  /** A start adds the listeners of the new runtime, or leaves the open listeners as they were. */
  lemma StartRouteEffect(k: Kernel, side: Side, st: State, want: Desired)
    requires forall h | h in st.open :: h < st.attempts
    ensures StartEffect(side, st, want, StartRoute(k, side, st, want))
  {
    match want.route.protocol
    case Tcp => StartTcpEffect(k, side, st, want);
    case Udp => StartUdpEffect(k, side, st, want);
    case All => StartAllEffect(k, side, st, want);
    case Unsupported(_) =>
  }

  // Removing a route keeps the three parts.

  lemma RemovedHandles(st: State, id: Id, h: Handle)
    requires id in st.routes
    ensures h in RemoveRoute(st, id).open <==> h in st.open && h !in Handles(st.routes[id])
    ensures h in RemoveRoute(st, id).open ==> RemoveRoute(st, id).open[h] == st.open[h]
  {
  }

  lemma StillListens(side: Side, before: map<Handle, Endpoint>, after: map<Handle, Endpoint>, rt: Runtime)
    requires Listens(side, before, rt)
    requires forall h | h in Handles(rt) :: h in after && h in before && after[h] == before[h]
    ensures Listens(side, after, rt)
  {
  }

  lemma RemoveKeepsListening(side: Side, st: State, id: Id, i: Id)
    requires Conserved(side, st) && id in st.routes && i in st.routes && i != id
    ensures Listens(side, RemoveRoute(st, id).open, st.routes[i])
  {
    var open := RemoveRoute(st, id).open;
    forall h | h in Handles(st.routes[i]) ensures h in open && open[h] == st.open[h] {
      assert OwnedBy(st.routes, h, i) && !OwnedBy(st.routes, h, id);
      RemovedHandles(st, id, h);
    }
    StillListens(side, st.open, open, st.routes[i]);
  }

  lemma RemoveKeepsOwned(side: Side, st: State, id: Id, h: Handle)
    requires Conserved(side, st) && id in st.routes && h in RemoveRoute(st, id).open
    ensures h < st.attempts && Owned(st.routes - {id}, h)
  {
    RemovedHandles(st, id, h);
    var i :| OwnedBy(st.routes, h, i);
    assert OwnedBy(st.routes - {id}, h, i);
  }

  lemma RemoveKeepsOwnedOnce(routes: map<Id, Runtime>, id: Id)
    requires OwnedOnce(routes)
    ensures OwnedOnce(routes - {id})
  {
    forall h, i, j | OwnedBy(routes - {id}, h, i) && OwnedBy(routes - {id}, h, j) ensures i == j {
      assert OwnedBy(routes, h, i) && OwnedBy(routes, h, j);
    }
  }

  lemma RemoveRouteConserves(side: Side, st: State, id: Id)
    requires Conserved(side, st) && id in st.routes
    ensures Conserved(side, RemoveRoute(st, id))
  {
    var r := RemoveRoute(st, id);
    forall i | i in r.routes ensures Listens(side, r.open, r.routes[i]) { RemoveKeepsListening(side, st, id, i); }
    forall h | h in r.open ensures h < r.attempts && Owned(r.routes, h) {
      RemoveKeepsOwned(side, st, id, h);
    }
    RemoveKeepsOwnedOnce(st.routes, id);
  }

  // Adding a runtime whose listeners are all new keeps the three parts.

  lemma AddKeepsListening(side: Side, st: State, s: State, id: Id, rt: Runtime)
    requires Conserved(side, st) && id !in st.routes && Adds(side, st, s, rt)
    ensures AllListen(side, st.routes[id := rt], s.open)
  {
    forall i | i in st.routes && i != id ensures Listens(side, s.open, st.routes[i]) {}
  }

  lemma AddKeepsOwned(side: Side, st: State, s: State, id: Id, rt: Runtime, h: Handle)
    requires Conserved(side, st) && id !in st.routes && Adds(side, st, s, rt)
    requires s.attempts >= st.attempts && h in s.open
    ensures h < s.attempts && Owned(st.routes[id := rt], h)
  {
    if h in st.open {
      var i :| OwnedBy(st.routes, h, i);
      assert OwnedBy(st.routes[id := rt], h, i);
    } else {
      assert OwnedBy(st.routes[id := rt], h, id);
    }
  }

  /** An owned listener is open, so it is older than every new one. */
  lemma OwnedIsOld(side: Side, st: State, h: Handle, i: Id)
    requires Conserved(side, st) && OwnedBy(st.routes, h, i)
    ensures h < st.attempts
  {
    assert Listens(side, st.open, st.routes[i]);
  }

  lemma OwnerAfterAdd(side: Side, st: State, s: State, id: Id, rt: Runtime, h: Handle, i: Id)
    requires Conserved(side, st) && id !in st.routes && Adds(side, st, s, rt) && OwnedBy(st.routes[id := rt], h, i)
    ensures if h < st.attempts then OwnedBy(st.routes, h, i) else i == id
  {
    if i != id { OwnedIsOld(side, st, h, i); }
  }

  lemma AddKeepsOwnedOnce(side: Side, st: State, s: State, id: Id, rt: Runtime)
    requires Conserved(side, st) && id !in st.routes && Adds(side, st, s, rt)
    ensures OwnedOnce(st.routes[id := rt])
  {
    var routes := st.routes[id := rt];
    forall h, i, j | OwnedBy(routes, h, i) && OwnedBy(routes, h, j) ensures i == j {
      OwnerAfterAdd(side, st, s, id, rt, h, i);
      OwnerAfterAdd(side, st, s, id, rt, h, j);
    }
  }

  lemma AddRuntimeConserves(side: Side, st: State, s: State, id: Id, rt: Runtime)
    requires Conserved(side, st) && id !in st.routes && st.running && s.running && s.routes == st.routes
    requires s.attempts >= st.attempts && Adds(side, st, s, rt)
    ensures Conserved(side, s.(routes := s.routes[id := rt]))
  {
    AddKeepsListening(side, st, s, id, rt);
    AddKeepsOwnedOnce(side, st, s, id, rt);
    forall h | h in s.open ensures h < s.attempts && Owned(st.routes[id := rt], h) {
      AddKeepsOwned(side, st, s, id, rt, h);
    }
  }

  lemma MoreAttempts(side: Side, st: State, attempts: nat)
    requires Conserved(side, st) && attempts >= st.attempts
    ensures Conserved(side, st.(attempts := attempts))
  {
  }

  lemma AddRouteConserves(k: Kernel, side: Side, st: State, id: Id, want: Desired)
    requires Conserved(side, st) && id !in st.routes && st.running
    ensures Conserved(side, Ensure(k, side, st, id, want))
  {
    StartRouteEffect(k, side, st, want);
    var s := StartRoute(k, side, st, want);
    if s.runtime.Some? {
      AddRuntimeConserves(side, st, s.state, id, s.runtime.value);
    } else {
      MoreAttempts(side, st, s.state.attempts);
    }
  }

  /** A changed route is handled as a removal followed by a start. */
  lemma EnsureRestarts(k: Kernel, side: Side, st: State, id: Id, want: Desired)
    requires id in st.routes && RouteChanged(side, st.routes[id].want, want)
    ensures Ensure(k, side, st, id, want) == Ensure(k, side, RemoveRoute(st, id), id, want)
  {
  }

  lemma EnsureConserves(k: Kernel, side: Side, st: State, id: Id, want: Desired)
    requires Conserved(side, st) && st.running
    ensures Conserved(side, Ensure(k, side, st, id, want)) && Ensure(k, side, st, id, want).running
  {
    StartRouteEffect(k, side, if id in st.routes then RemoveRoute(st, id) else st, want);
    if id !in st.routes {
      AddRouteConserves(k, side, st, id, want);
    } else if RouteChanged(side, st.routes[id].want, want) {
      RemoveRouteConserves(side, st, id);
      EnsureRestarts(k, side, st, id, want);
      AddRouteConserves(k, side, RemoveRoute(st, id), id, want);
    }
  }

  // ---- Whole passes ----

  lemma {:induction false} RemoveRoutesConserves(side: Side, st: State, ids: seq<Id>)
    requires Conserved(side, st)
    ensures Conserved(side, RemoveRoutes(st, ids)) && RemoveRoutes(st, ids).running == st.running
    decreases |ids|
  {
    if ids == [] {
    } else {
      var rest, id := ids[..|ids| - 1], ids[|ids| - 1];
      RemoveRoutesConserves(side, st, rest);
      var before := RemoveRoutes(st, rest);
      if id in before.routes { RemoveRouteConserves(side, before, id); }
    }
  }

  lemma {:induction false} RemoveRoutesLeaves(st: State, ids: seq<Id>, i: Id)
    ensures i in RemoveRoutes(st, ids).routes <==> i in st.routes && i !in ids
    ensures i in st.routes && i !in ids ==> RemoveRoutes(st, ids).routes[i] == st.routes[i]
    decreases |ids|
  {
    if ids == [] {
    } else {
      var rest, id := ids[..|ids| - 1], ids[|ids| - 1];
      RemoveRoutesLeaves(st, rest, i);
      assert ids == rest + [id];
    }
  }

  lemma {:induction false} EnsureRoutesConserves(
    k: Kernel, side: Side, st: State, desired: map<Id, Desired>, ids: seq<Id>)
    requires Conserved(side, st) && st.running && forall id | id in ids :: id in desired
    ensures var r := EnsureRoutes(k, side, st, desired, ids); Conserved(side, r) && r.running
    decreases |ids|
  {
    if ids == [] {
    } else {
      var rest, id := ids[..|ids| - 1], ids[|ids| - 1];
      assert id in ids;
      EnsureRoutesConserves(k, side, st, desired, rest);
      EnsureConserves(k, side, EnsureRoutes(k, side, st, desired, rest), id, desired[id]);
    }
  }

  /** A pass leaves the open listeners exactly those of the routes in the map, whatever fails. */
  lemma PassConserves(k: Kernel, side: Side, st: State, desired: map<Id, Desired>, stops: seq<Id>, starts: seq<Id>)
    requires Conserved(side, st) && st.running && PassOrder(st, desired, stops, starts)
    ensures Conserved(side, Pass(k, side, st, desired, stops, starts))
    ensures Pass(k, side, st, desired, stops, starts).running
  {
    RemoveRoutesConserves(side, st, stops);
    EnsureRoutesConserves(k, side, RemoveRoutes(st, stops), desired, starts);
  }

  // ---- Runs of the service ----

  datatype Command =
    | Start
    | Stop(order: seq<Id>)
    | Reconcile(desired: map<Id, Desired>, stops: seq<Id>, starts: seq<Id>)

  ghost predicate InOrder(st: State, cmd: Command) {
    match cmd
    case Start => true
    case Stop(order) => Visits(order, st.routes.Keys)
    case Reconcile(desired, stops, starts) => PassOrder(st, desired, stops, starts)
  }

  /** A command on a service in the wrong state is refused and changes nothing. */
  ghost function Apply(k: Kernel, side: Side, st: State, cmd: Command): (r: State)
    requires InOrder(st, cmd)
  {
    match cmd
    case Start => st.(running := true)
    case Stop(order) => if st.running then RemoveRoutes(st, order).(running := false) else st
    case Reconcile(desired, stops, starts) => if st.running then Pass(k, side, st, desired, stops, starts) else st
  }

  lemma ApplyConserves(k: Kernel, side: Side, st: State, cmd: Command)
    requires Conserved(side, st) && InOrder(st, cmd)
    ensures Conserved(side, Apply(k, side, st, cmd))
    ensures cmd.Stop? ==> Apply(k, side, st, cmd).open == map[]
  {
    NoRoutesNoListeners(side, st);
    match cmd
    case Start =>
    case Stop(order) =>
      if st.running {
        RemoveRoutesConserves(side, st, order);
        var r := RemoveRoutes(st, order);
        forall i ensures i !in r.routes { RemoveRoutesLeaves(st, order, i); }
        assert r.routes == map[];
        NoRoutesNoListeners(side, r);
      }
    case Reconcile(desired, stops, starts) =>
      if st.running { PassConserves(k, side, st, desired, stops, starts); }
  }

  lemma NoRoutesNoListeners(side: Side, st: State)
    requires Conserved(side, st)
    ensures st.routes == map[] ==> st.open == map[]
  {
    forall h | h in st.open ensures st.routes != map[] {
      var id :| OwnedBy(st.routes, h, id);
    }
  }

  ghost predicate Execution(k: Kernel, side: Side, states: seq<State>, cmds: seq<Command>) {
    && |states| == |cmds| + 1
    && states[0] == State(false, map[], map[], 0)
    && forall i | 0 <= i < |cmds| :: InOrder(states[i], cmds[i]) && states[i + 1] == Apply(k, side, states[i], cmds[i])
  }

  /** In every run the open listeners are those of the routes in the map, and none remain after a stop. */
  lemma {:induction false} ListenerConservation(k: Kernel, side: Side, states: seq<State>, cmds: seq<Command>, i: nat)
    requires Execution(k, side, states, cmds) && i < |states|
    ensures Conserved(side, states[i])
    ensures i > 0 && cmds[i - 1].Stop? ==> states[i].open == map[]
    decreases i
  {
    if i == 0 {
    } else {
      ListenerConservation(k, side, states, cmds, i - 1);
      ApplyConserves(k, side, states[i - 1], cmds[i - 1]);
    }
  }

  // ---- Convergence ----

  /** Every running route is desired as it runs. */
  ghost predicate Settled(side: Side, st: State, desired: map<Id, Desired>) {
    forall id | id in st.routes :: id in desired && !RouteChanged(side, st.routes[id].want, desired[id])
  }

  lemma EnsureFrame(k: Kernel, side: Side, st: State, id: Id, want: Desired, i: Id)
    requires (forall h | h in st.open :: h < st.attempts) && i != id
    ensures var r := Ensure(k, side, st, id, want);
      && (i in r.routes <==> i in st.routes)
      && (i in st.routes ==> r.routes[i] == st.routes[i])
  {
    StartRouteEffect(k, side, if id in st.routes then RemoveRoute(st, id) else st, want);
  }

  lemma EnsureSelf(k: Kernel, side: Side, st: State, id: Id, want: Desired)
    requires forall h | h in st.open :: h < st.attempts
    ensures var r := Ensure(k, side, st, id, want); id in r.routes ==> !RouteChanged(side, r.routes[id].want, want)
  {
    StartRouteEffect(k, side, if id in st.routes then RemoveRoute(st, id) else st, want);
  }

  /** After the visited ids, those running are as desired and the others are untouched. */
  lemma {:induction false} EnsureRoutesSettle(
    k: Kernel, side: Side, st: State, desired: map<Id, Desired>, ids: seq<Id>, i: Id)
    requires Conserved(side, st) && st.running && forall id | id in ids :: id in desired
    ensures var r := EnsureRoutes(k, side, st, desired, ids);
      && (i in ids && i in r.routes ==> !RouteChanged(side, r.routes[i].want, desired[i]))
      && (i !in ids || (i in st.routes && !RouteChanged(side, st.routes[i].want, desired[i])) ==>
            (i in r.routes <==> i in st.routes) && (i in st.routes ==> r.routes[i] == st.routes[i]))
    decreases |ids|
  {
    if ids == [] {
    } else {
      var rest, id := ids[..|ids| - 1], ids[|ids| - 1];
      assert ids == rest + [id];
      var before := EnsureRoutes(k, side, st, desired, rest);
      EnsureRoutesConserves(k, side, st, desired, rest);
      EnsureRoutesSettle(k, side, st, desired, rest, i);
      if i == id {
        EnsureSelf(k, side, before, id, desired[id]);
      } else {
        EnsureFrame(k, side, before, id, desired[id], i);
      }
    }
  }

  /** One pass settles every route it leaves running, and does not touch a route that has not changed. */
  lemma PassSettles(k: Kernel, side: Side, st: State, desired: map<Id, Desired>, stops: seq<Id>, starts: seq<Id>)
    requires Conserved(side, st) && st.running && PassOrder(st, desired, stops, starts)
    ensures Settled(side, Pass(k, side, st, desired, stops, starts), desired)
    ensures forall i | i in st.routes && i in desired && !RouteChanged(side, st.routes[i].want, desired[i]) ::
      var r := Pass(k, side, st, desired, stops, starts); i in r.routes && r.routes[i] == st.routes[i]
  {
    RemoveRoutesConserves(side, st, stops);
    var u := RemoveRoutes(st, stops);
    var r := Pass(k, side, st, desired, stops, starts);
    forall i | i in r.routes ensures i in desired && !RouteChanged(side, r.routes[i].want, desired[i]) {
      RemoveRoutesLeaves(st, stops, i);
      EnsureRoutesSettle(k, side, u, desired, starts, i);
    }
    forall i | i in st.routes && i in desired && !RouteChanged(side, st.routes[i].want, desired[i])
      ensures i in r.routes && r.routes[i] == st.routes[i]
    {
      RemoveRoutesLeaves(st, stops, i);
      EnsureRoutesSettle(k, side, u, desired, starts, i);
    }
  }

  /** No two listeners of the desired routes exclude each other. */
  ghost predicate NonConflicting(k: Kernel, side: Side, desired: map<Id, Desired>) {
    forall i, j, s, t
      | i in desired && j in desired && Uses(desired[i], s) && Uses(desired[j], t) && (i, s) != (j, t) ::
      !k.conflicts(EndpointOf(side, desired[i], s), EndpointOf(side, desired[j], t))
  }

  ghost predicate Healthy(k: Kernel, from: nat) {
    forall n | n >= from :: !k.faulty(n)
  }

  /** In a settled state every open endpoint belongs to another desired route. */
  lemma OpenEndpoints(side: Side, st: State, desired: map<Id, Desired>, h: Handle) returns (j: Id, t: Transport)
    requires Conserved(side, st) && Settled(side, st, desired) && h in st.open
    ensures j in st.routes && j in desired && Uses(desired[j], t) && st.open[h] == EndpointOf(side, desired[j], t)
  {
    j :| OwnedBy(st.routes, h, j);
    var rt := st.routes[j];
    t := if rt.tcp == Some(h) then TCP else UDP;
  }

  lemma BindSucceeds(k: Kernel, side: Side, st: State, desired: map<Id, Desired>, id: Id, t: Transport)
    requires Conserved(side, st) && Settled(side, st, desired) && NonConflicting(k, side, desired)
    requires Healthy(k, st.attempts) && id in desired && id !in st.routes && Uses(desired[id], t)
    ensures Bind(k, st, EndpointOf(side, desired[id], t)).handle.Some?
  {
    var e := EndpointOf(side, desired[id], t);
    forall h | h in st.open ensures !k.conflicts(e, st.open[h]) {
      var j, s := OpenEndpoints(side, st, desired, h);
      assert (id, t) != (j, s);
    }
  }

  lemma StartSucceeds(k: Kernel, side: Side, st: State, desired: map<Id, Desired>, id: Id)
    requires Conserved(side, st) && Settled(side, st, desired) && NonConflicting(k, side, desired)
    requires Healthy(k, st.attempts) && id in desired && id !in st.routes
    requires !desired[id].route.protocol.Unsupported?
    ensures StartRoute(k, side, st, desired[id]).runtime.Some?
  {
    if Uses(desired[id], TCP) { BindSucceeds(k, side, st, desired, id, TCP); }
    if Uses(desired[id], UDP) { BindSucceeds(k, side, st, desired, id, UDP); }
    if desired[id].route.protocol.All? {
      var u := StartTcp(k, side, st, desired[id]).state;
      var e := EndpointOf(side, desired[id], UDP);
      forall h | h in u.open ensures !k.conflicts(e, u.open[h]) {
        if h == st.attempts {
          assert (id, UDP) != (id, TCP);
        } else {
          var j, s := OpenEndpoints(side, st, desired, h);
          assert (id, UDP) != (j, s);
        }
      }
    }
  }

  ghost predicate AllRunning(st: State, desired: map<Id, Desired>, ids: seq<Id>) {
    forall id | id in ids && id in desired && !desired[id].route.protocol.Unsupported? :: id in st.routes
  }

  lemma EnsureKeepsSettled(k: Kernel, side: Side, st: State, desired: map<Id, Desired>, id: Id)
    requires Conserved(side, st) && Settled(side, st, desired) && id in desired
    ensures Settled(side, Ensure(k, side, st, id, desired[id]), desired)
    ensures st.routes.Keys <= Ensure(k, side, st, id, desired[id]).routes.Keys
    ensures st.attempts <= Ensure(k, side, st, id, desired[id]).attempts
  {
    StartRouteEffect(k, side, st, desired[id]);
    forall i | i != id
      ensures var r := Ensure(k, side, st, id, desired[id]);
        (i in r.routes <==> i in st.routes) && (i in st.routes ==> r.routes[i] == st.routes[i])
    {
      EnsureFrame(k, side, st, id, desired[id], i);
    }
    EnsureSelf(k, side, st, id, desired[id]);
  }

  /** From a settled state with binds that only fail on conflicts, every visited route comes up. */
  lemma {:induction false} EnsureRoutesComplete(
    k: Kernel, side: Side, st: State, desired: map<Id, Desired>, ids: seq<Id>)
    requires Conserved(side, st) && st.running && Settled(side, st, desired)
    requires NonConflicting(k, side, desired) && Healthy(k, st.attempts)
    requires forall id | id in ids :: id in desired
    ensures var r := EnsureRoutes(k, side, st, desired, ids);
      Settled(side, r, desired) && AllRunning(r, desired, ids) && r.attempts >= st.attempts
    decreases |ids|
  {
    if ids == [] {
    } else {
      var rest, id := ids[..|ids| - 1], ids[|ids| - 1];
      assert ids == rest + [id];
      var before := EnsureRoutes(k, side, st, desired, rest);
      EnsureRoutesConserves(k, side, st, desired, rest);
      EnsureRoutesComplete(k, side, st, desired, rest);
      EnsureKeepsSettled(k, side, before, desired, id);
      if id !in before.routes && !desired[id].route.protocol.Unsupported? {
        StartSucceeds(k, side, before, desired, id);
      }
    }
  }

  /** The supported desired routes run as desired, and nothing else runs. */
  ghost predicate Converged(side: Side, st: State, desired: map<Id, Desired>) {
    && Settled(side, st, desired)
    && forall id | id in desired && !desired[id].route.protocol.Unsupported? :: id in st.routes
  }

  lemma SettledPassConverges(
    k: Kernel, side: Side, st: State, desired: map<Id, Desired>, stops: seq<Id>, starts: seq<Id>)
    requires Conserved(side, st) && st.running && Settled(side, st, desired)
    requires NonConflicting(k, side, desired) && Healthy(k, st.attempts)
    requires PassOrder(st, desired, stops, starts)
    ensures Converged(side, Pass(k, side, st, desired, stops, starts), desired)
  {
    NothingToStop(side, st, desired, stops);
    EnsureRoutesComplete(k, side, st, desired, starts);
  }

  lemma NonEmptyHasMember(ids: seq<Id>)
    requires ids != []
    ensures exists id :: id in ids
  {
    assert ids[0] in ids;
  }

  lemma NothingToStop(side: Side, st: State, desired: map<Id, Desired>, stops: seq<Id>)
    requires Settled(side, st, desired) && Visits(stops, st.routes.Keys - desired.Keys)
    ensures stops == [] && RemoveRoutes(st, stops) == st
  {
    if stops != [] { NonEmptyHasMember(stops); }
  }

  lemma {:induction false} ConvergedIsStable(k: Kernel, side: Side, st: State, desired: map<Id, Desired>, ids: seq<Id>)
    requires Conserved(side, st) && Converged(side, st, desired) && forall id | id in ids :: id in desired
    ensures EnsureRoutes(k, side, st, desired, ids) == st
    decreases |ids|
  {
    if ids == [] {
    } else {
      assert ids[|ids| - 1] in ids;
      ConvergedIsStable(k, side, st, desired, ids[..|ids| - 1]);
    }
  }

  /**
   * From any state, with any bind failures during the first pass and for any visiting orders: when the desired
   * endpoints do not exclude each other and the second pass meets no failure but its own listeners, two passes
   * leave exactly the supported desired routes running, a third changes nothing, and a route that had not
   * changed keeps its listeners throughout.
   */
  lemma TwoPassConvergence(k: Kernel, side: Side, st: State, desired: map<Id, Desired>,
                           stops1: seq<Id>, starts1: seq<Id>, stops2: seq<Id>, starts2: seq<Id>,
                           stops3: seq<Id>, starts3: seq<Id>)
    requires Conserved(side, st) && st.running && NonConflicting(k, side, desired)
    requires PassOrder(st, desired, stops1, starts1)
    requires var one := Pass(k, side, st, desired, stops1, starts1);
      Healthy(k, one.attempts) && PassOrder(one, desired, stops2, starts2)
    requires var two := Pass(k, side, Pass(k, side, st, desired, stops1, starts1), desired, stops2, starts2);
      PassOrder(two, desired, stops3, starts3)
    ensures var one := Pass(k, side, st, desired, stops1, starts1);
      var two := Pass(k, side, one, desired, stops2, starts2);
      && Conserved(side, two) && Converged(side, two, desired)
      && Pass(k, side, two, desired, stops3, starts3) == two
      && forall i | i in st.routes && i in desired && !RouteChanged(side, st.routes[i].want, desired[i]) ::
           i in one.routes && one.routes[i] == st.routes[i] && i in two.routes && two.routes[i] == st.routes[i]
  {
    var one := Pass(k, side, st, desired, stops1, starts1);
    PassConserves(k, side, st, desired, stops1, starts1);
    PassSettles(k, side, st, desired, stops1, starts1);
    var two := Pass(k, side, one, desired, stops2, starts2);
    PassConserves(k, side, one, desired, stops2, starts2);
    PassSettles(k, side, one, desired, stops2, starts2);
    SettledPassConverges(k, side, one, desired, stops2, starts2);
    NothingToStop(side, two, desired, stops3);
    ConvergedIsStable(k, side, two, desired, starts3);
  }

  // ---- One pass is not enough: two routes that trade endpoints ----

  function TcpOn(port: int): (d: Desired) {
    Desired(Route("", Tcp, "", Some(port), "", None), "")
  }

  function Trading(): (st: State) {
    State(true, map[1 := Runtime(TcpOn(8001), Some(0), None), 2 := Runtime(TcpOn(8002), Some(1), None)],
          map[0 := EndpointOf(Node, TcpOn(8001), TCP), 1 := EndpointOf(Node, TcpOn(8002), TCP)], 2)
  }

  function Traded(): (desired: map<Id, Desired>) {
    map[1 := TcpOn(8002), 2 := TcpOn(8001)]
  }

  function Exclusive(): (k: Kernel) {
    Kernel((a, b) => a == b, n => false)
  }

  lemma TradingOwned()
    ensures AllOwned(Trading().routes, Trading().open, 2) && OwnedOnce(Trading().routes)
  {
    assert OwnedBy(Trading().routes, 0, 1) && OwnedBy(Trading().routes, 1, 2);
  }

  lemma TradingListens()
    ensures AllListen(Node, Trading().routes, Trading().open)
  {
  }

  lemma TradingConserved()
    ensures Conserved(Node, Trading())
  {
    TradingOwned();
    TradingListens();
  }

  lemma TradedStaysDown()
    ensures 1 !in Ensure(Exclusive(), Node, Trading(), 1, TcpOn(8002)).routes
  {
    var stopped := RemoveRoute(Trading(), 1);
    assert 1 in stopped.open;
    assert Exclusive().conflicts(EndpointOf(Node, TcpOn(8002), TCP), stopped.open[1]);
  }

  lemma TradedPass()
    ensures 1 !in EnsureRoutes(Exclusive(), Node, Trading(), Traded(), [1, 2]).routes
  {
    var k, ids: seq<Id> := Exclusive(), [1, 2];
    assert ids[..1] == [1] && ids[..1][..0] == [];
    var u := EnsureRoutes(k, Node, Trading(), Traded(), [1]);
    assert u == Ensure(k, Node, Trading(), 1, TcpOn(8002));
    TradedStaysDown();
    TradingConserved();
    EnsureConserves(k, Node, Trading(), 1, TcpOn(8002));
    EnsureFrame(k, Node, u, 2, TcpOn(8001), 1);
  }

  lemma TradedCompatible()
    ensures NonConflicting(Exclusive(), Node, Traded()) && Healthy(Exclusive(), 0)
  {
  }

  /** The first route visited finds its new endpoint still held by the other, and stays down. */
  lemma OnePassNotEnough()
    ensures Conserved(Node, Trading()) && Trading().running
    ensures NonConflicting(Exclusive(), Node, Traded()) && Healthy(Exclusive(), 0)
    ensures PassOrder(Trading(), Traded(), [], [1, 2])
    ensures !Converged(Node, Pass(Exclusive(), Node, Trading(), Traded(), [], [1, 2]), Traded())
  {
    TradingConserved();
    TradedCompatible();
    assert PassOrder(Trading(), Traded(), [], [1, 2]) by { assert Trading().routes.Keys - Traded().Keys == {}; }
    TradedPass();
    assert 1 in Traded();
  }

  // ---- The object ----

  /** Later entries of the configuration replace earlier ones with the same id. */
  function DesiredOf(config: seq<(Id, Desired)>): (m: map<Id, Desired>) {
    if config == [] then map[]
    else DesiredOf(config[..|config| - 1])[config[|config| - 1].0 := config[|config| - 1].1]
  }

  /** A route is desired exactly when the configuration names it, as its last entry there says. */
  lemma {:induction false} DesiredIs(config: seq<(Id, Desired)>, id: Id)
    ensures id in DesiredOf(config) <==> exists i :: 0 <= i < |config| && config[i].0 == id
    ensures id in DesiredOf(config) ==>
      exists i :: 0 <= i < |config| && config[i] == (id, DesiredOf(config)[id])
                  && forall j | i < j < |config| :: config[j].0 != id
    decreases |config|
  {
    if config == [] {
    } else {
      var n := |config| - 1;
      var rest := config[..n];
      DesiredIs(rest, id);
      if config[n].0 != id && id in DesiredOf(rest) {
        var i :| 0 <= i < |rest| && rest[i] == (id, DesiredOf(rest)[id])
                 && forall j | i < j < |rest| :: rest[j].0 != id;
        assert config[i] == (id, DesiredOf(config)[id]);
      } else if config[n].0 == id {
        assert config[n] == (id, DesiredOf(config)[id]);
      } else {
        assert forall i | 0 <= i < n :: rest[i] == config[i];
      }
    }
  }

  class ForwarderService {
    const kernel: Kernel
    const side: Side
    var running: bool
    var routes: map<Id, Runtime>
    var open: map<Handle, Endpoint>
    var attempts: nat

    ghost function Value(): (st: State)
      reads this
    {
      State(running, routes, open, attempts)
    }

    ghost predicate Valid()
      reads this
    {
      Conserved(side, Value())
    }

    constructor (kernel: Kernel, side: Side)
      ensures Valid() && Value() == State(false, map[], map[], 0)
      ensures this.kernel == kernel && this.side == side
    {
      this.kernel, this.side := kernel, side;
      running, routes, open, attempts := false, map[], map[], 0;
    }

    method Listen(e: Endpoint) returns (h: Option<Handle>)
      modifies this`open, this`attempts
      ensures Bound(Value(), h) == Bind(kernel, old(Value()), e)
    {
      var attempt := attempts;
      attempts := attempts + 1;
      if kernel.faulty(attempt) || exists o | o in open :: kernel.conflicts(e, open[o]) {
        return None;
      }
      open := open[attempt := e];
      return Some(attempt);
    }

    method CloseListener(h: Option<Handle>)
      modifies this`open
      ensures Value() == Close(old(Value()), h)
    {
      if h.Some? {
        open := open - {h.value};
      }
    }

    method StartListeners(want: Desired) returns (rt: Option<Runtime>)
      modifies this`open, this`attempts
      ensures Started(Value(), rt) == StartRoute(kernel, side, old(Value()), want)
    {
      match want.route.protocol
      case Tcp =>
        var tcp := Listen(EndpointOf(side, want, TCP));
        rt := if tcp.None? then None else Some(Runtime(want, tcp, None));
      case Udp =>
        var udp := Listen(EndpointOf(side, want, UDP));
        rt := if udp.None? then None else Some(Runtime(want, None, udp));
      case All =>
        var tcp := Listen(EndpointOf(side, want, TCP));
        if tcp.None? {
          return None;
        }
        var udp := Listen(EndpointOf(side, want, UDP));
        if udp.None? {
          CloseListener(tcp);
          return None;
        }
        rt := Some(Runtime(want, tcp, udp));
      case Unsupported(_) =>
        rt := None;
    }

    method StopAndDelete(id: Id)
      requires id in routes
      modifies this`routes, this`open
      ensures Value() == RemoveRoute(old(Value()), id)
    {
      var rt := routes[id];
      CloseListener(rt.tcp);
      CloseListener(rt.udp);
      routes := routes - {id};
    }

    method Start() returns (ok: bool)
      requires Valid()
      modifies this
      ensures Valid() && ok == !old(running)
      ensures running && routes == old(routes) && open == old(open)
      ensures Value() == Apply(kernel, side, old(Value()), Command.Start)
    {
      if running {
        return false;
      }
      running := true;
      return true;
    }

    /** Removes the given routes in some order. */
    method RemoveAll(ids: set<Id>) returns (ghost order: seq<Id>)
      requires ids <= routes.Keys
      modifies this`routes, this`open
      ensures Visits(order, ids) && Value() == RemoveRoutes(old(Value()), order)
    {
      order := [];
      var todo := ids;
      while todo != {}
        invariant todo <= ids && todo <= routes.Keys
        invariant Visits(order, ids - todo)
        invariant Value() == RemoveRoutes(old(Value()), order)
        decreases todo
      {
        var id :| id in todo;
        StopAndDelete(id);
        todo := todo - {id};
        ghost var next := order + [id];
        assert next[..|next| - 1] == order;
        order := next;
      }
    }

    method Stop() returns (ok: bool, ghost order: seq<Id>)
      requires Valid()
      modifies this
      ensures Valid() && ok == old(running)
      ensures ok ==> open == map[] && routes == map[] && !running
      ensures ok ==>
        Visits(order, old(routes).Keys) && Value() == Apply(kernel, side, old(Value()), Command.Stop(order))
      ensures !ok ==> Value() == old(Value())
    {
      if !running {
        return false, [];
      }
      order := RemoveAll(routes.Keys);
      running := false;
      ApplyConserves(kernel, side, old(Value()), Command.Stop(order));
      ok := true;
    }

    method EnsureRoute(id: Id, want: Desired)
      modifies this`routes, this`open, this`attempts
      ensures Value() == Ensure(kernel, side, old(Value()), id, want)
    {
      if id in routes && !RouteChanged(side, routes[id].want, want) {
        return;
      }
      if id in routes {
        StopAndDelete(id);
      }
      var rt := StartListeners(want);
      if rt.Some? {
        routes := routes[id := rt.value];
      }
    }

    method EnsureAll(desired: map<Id, Desired>) returns (ghost order: seq<Id>)
      modifies this`routes, this`open, this`attempts
      ensures Visits(order, desired.Keys)
      ensures Value() == EnsureRoutes(kernel, side, old(Value()), desired, order)
    {
      order := [];
      var todo := desired.Keys;
      while todo != {}
        invariant todo <= desired.Keys
        invariant Visits(order, desired.Keys - todo)
        invariant Value() == EnsureRoutes(kernel, side, old(Value()), desired, order)
        decreases todo
      {
        var id :| id in todo;
        EnsureRoute(id, desired[id]);
        todo := todo - {id};
        ghost var next := order + [id];
        assert next[..|next| - 1] == order;
        order := next;
      }
    }

    method Reconcile(config: seq<(Id, Desired)>) returns (ok: bool, ghost stops: seq<Id>, ghost starts: seq<Id>)
      requires Valid()
      modifies this
      ensures Valid() && ok == old(running)
      ensures ok ==>
        && PassOrder(old(Value()), DesiredOf(config), stops, starts)
        && Value() == Pass(kernel, side, old(Value()), DesiredOf(config), stops, starts)
      ensures !ok ==> Value() == old(Value())
    {
      if !running {
        return false, [], [];
      }
      var desired: map<Id, Desired> := map[];
      for i := 0 to |config|
        invariant desired == DesiredOf(config[..i])
      {
        assert config[..i + 1][..i] == config[..i];
        desired := desired[config[i].0 := config[i].1];
      }
      assert config[..|config|] == config;
      stops := RemoveAll(routes.Keys - desired.Keys);
      starts := EnsureAll(desired);
      PassConserves(kernel, side, old(Value()), desired, stops, starts);
      ok := true;
    }
  }
}
