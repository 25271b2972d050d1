/** Which endpoints the reconciler listens on, read off the fields of the routes. */
module ListenerEndpoints {
  import opened Text
  import opened Forwarding

  /** The handle is open on the endpoint. */
  predicate OpenOn(open: map<Handle, Endpoint>, h: Option<Handle>, e: Endpoint) {
    h.Some? && h.value in open && open[h.value] == e
  }

  /** TCP for "tcp" and "all" routes, UDP for "udp" and "all" ones, on the address and the route's port or port 0. */
  predicate ListensOn(open: map<Handle, Endpoint>, rt: Runtime, ip: string) {
    var r := rt.want.route;
    var port := if r.entryPort.Some? then r.entryPort.value else 0;
    && !r.protocol.Unsupported?
    && (if r.protocol == Tcp || r.protocol == All then OpenOn(open, rt.tcp, Endpoint(TCP, ip, port)) else rt.tcp.None?)
    && (if r.protocol == Udp || r.protocol == All then OpenOn(open, rt.udp, Endpoint(UDP, ip, port)) else rt.udp.None?)
  }

  /** On a node every running route listens on its own entry address. */
  lemma NodeListens(st: State, id: Id)
    requires Conserved(Node, st) && id in st.routes
    ensures ListensOn(st.open, st.routes[id], st.routes[id].want.route.entryIP)
  {
    assert Listens(Node, st.open, st.routes[id]);
  }

  /** On a gateway every running route listens on the gateway's overlay address. */
  lemma GatewayListens(ip: string, st: State, id: Id)
    requires Conserved(Gateway(ip), st) && id in st.routes
    ensures ListensOn(st.open, st.routes[id], ip)
  {
    assert Listens(Gateway(ip), st.open, st.routes[id]);
  }

  /** The route asks for a listener on the endpoint. */
  predicate Asks(side: Side, r: Route, e: Endpoint) {
    && (match r.protocol
        case Tcp => e.transport == TCP
        case Udp => e.transport == UDP
        case All => true
        case Unsupported(_) => false)
    && e.ip == (match side case Node => r.entryIP case Gateway(ip) => ip)
    && e.port == (if r.entryPort.Some? then r.entryPort.value else 0)
  }

  lemma RunningListens(side: Side, st: State, id: Id)
    requires Conserved(side, st) && id in st.routes
    ensures ListensOn(st.open, st.routes[id], if side.Node? then st.routes[id].want.route.entryIP else side.wireGuardIP)
  {
    match side
    case Node => NodeListens(st, id);
    case Gateway(ip) => GatewayListens(ip, st, id);
  }

  /** A running route has an open listener exactly for what its record asks. */
  lemma RunningAsks(side: Side, st: State, id: Id, e: Endpoint)
    requires Conserved(side, st) && id in st.routes
    ensures Asks(side, st.routes[id].want.route, e) <==>
      OpenOn(st.open, st.routes[id].tcp, e) || OpenOn(st.open, st.routes[id].udp, e)
  {
    RunningListens(side, st, id);
    ListensAsks(side, st.open, st.routes[id], e);
  }

  lemma ListensAsks(side: Side, open: map<Handle, Endpoint>, rt: Runtime, e: Endpoint)
    requires ListensOn(open, rt, if side.Node? then rt.want.route.entryIP else side.wireGuardIP)
    ensures Asks(side, rt.want.route, e) <==> OpenOn(open, rt.tcp, e) || OpenOn(open, rt.udp, e)
  {
    assert e == Endpoint(e.transport, e.ip, e.port);
    match rt.want.route.protocol
    case Tcp =>
    case Udp =>
    case All => assert e.transport == TCP || e.transport == UDP;
  }

  lemma UnchangedAsks(side: Side, existing: Desired, want: Desired, e: Endpoint)
    requires !RouteChanged(side, existing, want)
    ensures Asks(side, existing.route, e) <==> Asks(side, want.route, e)
  {
  }

  ghost predicate IsOpen(st: State, e: Endpoint) {
    exists h :: h in st.open && st.open[h] == e
  }

  ghost predicate Asked(side: Side, desired: map<Id, Desired>, e: Endpoint) {
    exists id :: id in desired && Asks(side, desired[id].route, e)
  }

  lemma OpenIsAsked(side: Side, st: State, desired: map<Id, Desired>, h: Handle)
    requires Conserved(side, st) && Settled(side, st, desired) && h in st.open
    ensures Asked(side, desired, st.open[h])
  {
    var id :| OwnedBy(st.routes, h, id);
    RunningAsks(side, st, id, st.open[h]);
    UnchangedAsks(side, st.routes[id].want, desired[id], st.open[h]);
  }

  lemma AskedIsOpen(side: Side, st: State, desired: map<Id, Desired>, id: Id, e: Endpoint)
    requires Conserved(side, st) && Settled(side, st, desired) && id in st.routes && id in desired
    requires Asks(side, desired[id].route, e)
    ensures IsOpen(st, e)
  {
    UnchangedAsks(side, st.routes[id].want, desired[id], e);
    RunningAsks(side, st, id, e);
  }

  /** In a converged state an endpoint is open exactly when a desired route asks for it. */
  lemma ConvergedEndpoints(side: Side, st: State, desired: map<Id, Desired>, e: Endpoint)
    requires Conserved(side, st) && Converged(side, st, desired)
    ensures IsOpen(st, e) <==> Asked(side, desired, e)
  {
    if IsOpen(st, e) {
      var h :| h in st.open && st.open[h] == e;
      OpenIsAsked(side, st, desired, h);
    }
    if id :| id in desired && Asks(side, desired[id].route, e) {
      AskedIsOpen(side, st, desired, id, e);
    }
  }

  /** After two passes the open endpoints are exactly those the desired routes ask for. */
  lemma TwoPassEndpoints(k: Kernel, side: Side, st: State, desired: map<Id, Desired>,
                         stops1: seq<Id>, starts1: seq<Id>, stops2: seq<Id>, starts2: seq<Id>, e: Endpoint)
    requires Conserved(side, st) && st.running && NonConflicting(k, side, desired)
    requires PassOrder(st, desired, stops1, starts1)
    requires var one := Pass(k, side, st, desired, stops1, starts1);
      Healthy(k, one.attempts) && PassOrder(one, desired, stops2, starts2)
    ensures var two := Pass(k, side, Pass(k, side, st, desired, stops1, starts1), desired, stops2, starts2);
      IsOpen(two, e) <==> Asked(side, desired, e)
  {
    var one := Pass(k, side, st, desired, stops1, starts1);
    PassConserves(k, side, st, desired, stops1, starts1);
    PassSettles(k, side, st, desired, stops1, starts1);
    PassConserves(k, side, one, desired, stops2, starts2);
    SettledPassConverges(k, side, one, desired, stops2, starts2);
    ConvergedEndpoints(side, Pass(k, side, one, desired, stops2, starts2), desired, e);
  }
}
