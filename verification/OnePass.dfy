/** Exactly when a single reconcile pass brings up every desired route. */
module OnePass {
  import opened Text
  import opened Forwarding

  /** The pass has to start the route: it is supported, and missing or changed. */
  predicate Pending(side: Side, st: State, desired: map<Id, Desired>, i: Id) {
    && i in desired && !desired[i].route.protocol.Unsupported?
    && (i in st.routes ==> RouteChanged(side, st.routes[i].want, desired[i]))
  }

  /** The pass will stop the route's old listeners when it visits the route. */
  predicate Outdated(side: Side, st: State, desired: map<Id, Desired>, j: Id) {
    j in st.routes && j in desired && RouteChanged(side, st.routes[j].want, desired[j])
  }

  /** A listener of `a` is excluded by a listener of `b`. */
  ghost predicate Conflict(k: Kernel, side: Side, a: Desired, b: Desired) {
    exists s, t :: Uses(a, s) && Uses(b, t) && k.conflicts(EndpointOf(side, a, s), EndpointOf(side, b, t))
  }

  /** Route `i` cannot start while the old listeners of `j` are open. */
  ghost predicate Blocks(k: Kernel, side: Side, st: State, desired: map<Id, Desired>, i: Id, j: Id) {
    Pending(side, st, desired, i) && Outdated(side, st, desired, j) && Conflict(k, side, desired[i], st.routes[j].want)
  }

  /** No route is visited before one that blocks it. */
  ghost predicate Unblocked(k: Kernel, side: Side, st: State, desired: map<Id, Desired>, starts: seq<Id>) {
    forall p, q | 0 <= p < q < |starts| :: !Blocks(k, side, st, desired, starts[p], starts[q])
  }

  // ---- One start ----

  /** Every open listener is one that some running route uses. */
  lemma OwnerOf(side: Side, st: State, h: Handle) returns (j: Id, t: Transport)
    requires Conserved(side, st) && h in st.open
    ensures j in st.routes && Uses(st.routes[j].want, t) && st.open[h] == EndpointOf(side, st.routes[j].want, t)
  {
    assert Owned(st.routes, h);
    j :| OwnedBy(st.routes, h, j);
    t := if st.routes[j].tcp == Some(h) then TCP else UDP;
  }

  /** Every listener a running route uses is open. */
  lemma OpenFor(side: Side, st: State, j: Id, t: Transport) returns (h: Handle)
    requires Conserved(side, st) && j in st.routes && Uses(st.routes[j].want, t)
    ensures h in st.open && st.open[h] == EndpointOf(side, st.routes[j].want, t)
  {
    assert Listens(side, st.open, st.routes[j]);
    h := if t == TCP then st.routes[j].tcp.value else st.routes[j].udp.value;
  }

  ghost predicate Clear(k: Kernel, side: Side, st: State, want: Desired, s: Transport) {
    forall h | h in st.open :: !k.conflicts(EndpointOf(side, want, s), st.open[h])
  }

  lemma ClearWithoutConflicts(k: Kernel, side: Side, st: State, want: Desired, s: Transport)
    requires Conserved(side, st) && Uses(want, s)
    requires forall j | j in st.routes :: !Conflict(k, side, want, st.routes[j].want)
    ensures Clear(k, side, st, want, s)
  {
    forall h | h in st.open ensures !k.conflicts(EndpointOf(side, want, s), st.open[h]) {
      var j, t := OwnerOf(side, st, h);
      assert !Conflict(k, side, want, st.routes[j].want);
    }
  }

  /** Without conflicts a start succeeds. */
  lemma StartsFreely(k: Kernel, side: Side, st: State, want: Desired)
    requires Conserved(side, st) && Healthy(k, st.attempts) && !want.route.protocol.Unsupported?
    requires forall j | j in st.routes :: !Conflict(k, side, want, st.routes[j].want)
    requires want.route.protocol.All? ==> !k.conflicts(EndpointOf(side, want, UDP), EndpointOf(side, want, TCP))
    ensures StartRoute(k, side, st, want).runtime.Some?
  {
    if Uses(want, TCP) { ClearWithoutConflicts(k, side, st, want, TCP); }
    if Uses(want, UDP) { ClearWithoutConflicts(k, side, st, want, UDP); }
  }

  lemma BindFails(k: Kernel, st: State, e: Endpoint, h: Handle)
    requires h in st.open && k.conflicts(e, st.open[h])
    ensures Bind(k, st, e).handle.None?
  {
  }

  lemma BindKeepsOpen(k: Kernel, st: State, e: Endpoint, h: Handle)
    requires h in st.open && h < st.attempts
    ensures h in Bind(k, st, e).state.open && Bind(k, st, e).state.open[h] == st.open[h]
  {
  }

  lemma StartMeetsListener(k: Kernel, side: Side, st: State, want: Desired, s: Transport, h: Handle)
    requires Uses(want, s) && h in st.open && h < st.attempts && k.conflicts(EndpointOf(side, want, s), st.open[h])
    ensures StartRoute(k, side, st, want).runtime.None?
  {
    var e := EndpointOf(side, want, s);
    BindFails(k, st, e, h);
    if want.route.protocol.All? && s == UDP {
      BindKeepsOpen(k, st, EndpointOf(side, want, TCP), h);
      BindFails(k, Bind(k, st, EndpointOf(side, want, TCP)).state, e, h);
    }
  }

  /** With a conflict it fails, whichever of its binds meets the conflict. */
  lemma StartFails(k: Kernel, side: Side, st: State, want: Desired, j: Id)
    requires Conserved(side, st) && j in st.routes && Conflict(k, side, want, st.routes[j].want)
    ensures StartRoute(k, side, st, want).runtime.None?
  {
    var s, t :| Uses(want, s) && Uses(st.routes[j].want, t)
                && k.conflicts(EndpointOf(side, want, s), EndpointOf(side, st.routes[j].want, t));
    var h := OpenFor(side, st, j, t);
    StartMeetsListener(k, side, st, want, s, h);
  }

  // ---- The start loop ----

  /** The state after the first `n` visits. */
  ghost function Visited(k: Kernel, side: Side, st: State, desired: map<Id, Desired>, ids: seq<Id>, n: nat): (r: State)
    requires n <= |ids| && forall id | id in ids :: id in desired
  {
    EnsureRoutes(k, side, st, desired, ids[..n])
  }

  lemma VisitedStep(k: Kernel, side: Side, st: State, desired: map<Id, Desired>, ids: seq<Id>, n: nat)
    requires n < |ids| && forall id | id in ids :: id in desired
    ensures Visited(k, side, st, desired, ids, n + 1) ==
      Ensure(k, side, Visited(k, side, st, desired, ids, n), ids[n], desired[ids[n]])
  {
    assert ids[..n + 1][..n] == ids[..n];
  }

  lemma EnsureAttempts(k: Kernel, side: Side, st: State, id: Id, want: Desired)
    requires Conserved(side, st)
    ensures Ensure(k, side, st, id, want).attempts >= st.attempts
  {
    if id in st.routes {
      RemoveRouteConserves(side, st, id);
      StartRouteEffect(k, side, RemoveRoute(st, id), want);
    } else {
      StartRouteEffect(k, side, st, want);
    }
  }

  lemma {:induction false} VisitedAttempts(
    k: Kernel, side: Side, st: State, desired: map<Id, Desired>, ids: seq<Id>, n: nat)
    requires Conserved(side, st) && st.running && n <= |ids| && forall id | id in ids :: id in desired
    ensures Visited(k, side, st, desired, ids, n).attempts >= st.attempts
    decreases n
  {
    if n == 0 {
    } else {
      VisitedAttempts(k, side, st, desired, ids, n - 1);
      VisitedStep(k, side, st, desired, ids, n - 1);
      EnsureRoutesConserves(k, side, st, desired, ids[..n - 1]);
      EnsureAttempts(k, side, Visited(k, side, st, desired, ids, n - 1), ids[n - 1], desired[ids[n - 1]]);
    }
  }

  ghost predicate SameRoute(a: State, b: State, i: Id) {
    (i in a.routes <==> i in b.routes) && (i in a.routes ==> a.routes[i] == b.routes[i])
  }

  /** Visits of other routes leave a route as it is. */
  lemma {:induction false} OtherVisits(
    k: Kernel, side: Side, st: State, desired: map<Id, Desired>, ids: seq<Id>, m: nat, n: nat, i: Id)
    requires Conserved(side, st) && st.running && m <= n <= |ids| && forall id | id in ids :: id in desired
    requires forall p | m <= p < n :: ids[p] != i
    ensures SameRoute(Visited(k, side, st, desired, ids, m), Visited(k, side, st, desired, ids, n), i)
    decreases n
  {
    if m == n {
    } else {
      OtherVisits(k, side, st, desired, ids, m, n - 1, i);
      VisitedStep(k, side, st, desired, ids, n - 1);
      EnsureRoutesConserves(k, side, st, desired, ids[..n - 1]);
      EnsureFrame(k, side, Visited(k, side, st, desired, ids, n - 1), ids[n - 1], desired[ids[n - 1]], i);
    }
  }

  ghost predicate LoopStart(k: Kernel, side: Side, st: State, desired: map<Id, Desired>, ids: seq<Id>) {
    && Conserved(side, st) && st.running && NonConflicting(k, side, desired) && Healthy(k, st.attempts)
    && Visits(ids, desired.Keys) && st.routes.Keys <= desired.Keys
  }

  /** The state in which the start at visit `n` is tried. */
  ghost function StartState(k: Kernel, side: Side, st: State, desired: map<Id, Desired>, ids: seq<Id>, n: nat)
    : (r: State)
    requires n < |ids| && forall id | id in ids :: id in desired
  {
    var u := Visited(k, side, st, desired, ids, n);
    if ids[n] in u.routes then RemoveRoute(u, ids[n]) else u
  }

  lemma StartStateConserved(k: Kernel, side: Side, st: State, desired: map<Id, Desired>, ids: seq<Id>, n: nat)
    requires LoopStart(k, side, st, desired, ids) && n < |ids|
    ensures Conserved(side, StartState(k, side, st, desired, ids, n))
    ensures Healthy(k, StartState(k, side, st, desired, ids, n).attempts)
  {
    EnsureRoutesConserves(k, side, st, desired, ids[..n]);
    VisitedAttempts(k, side, st, desired, ids, n);
    var u := Visited(k, side, st, desired, ids, n);
    if ids[n] in u.routes { RemoveRouteConserves(side, u, ids[n]); }
  }

  /** A route visited later runs at visit `n` as it did at the start. */
  lemma LaterIsUntouched(k: Kernel, side: Side, st: State, desired: map<Id, Desired>, ids: seq<Id>, n: nat, q: nat)
    requires LoopStart(k, side, st, desired, ids) && n <= q < |ids|
    ensures SameRoute(st, Visited(k, side, st, desired, ids, n), ids[q])
    ensures n < q ==> SameRoute(st, StartState(k, side, st, desired, ids, n), ids[q])
  {
    OtherVisits(k, side, st, desired, ids, 0, n, ids[q]);
    assert ids[..0] == [];
  }

  /** The route visited at `n` runs at the end exactly when it runs after that visit. */
  lemma VisitDecides(k: Kernel, side: Side, st: State, desired: map<Id, Desired>, ids: seq<Id>, n: nat)
    requires LoopStart(k, side, st, desired, ids) && n < |ids| && Pending(side, st, desired, ids[n])
    ensures ids[n] in EnsureRoutes(k, side, st, desired, ids).routes <==>
      StartRoute(k, side, StartState(k, side, st, desired, ids, n), desired[ids[n]]).runtime.Some?
  {
    LaterIsUntouched(k, side, st, desired, ids, n, n);
    VisitedStep(k, side, st, desired, ids, n);
    OtherVisits(k, side, st, desired, ids, n + 1, |ids|, ids[n]);
    assert ids[..|ids|] == ids;
    StartStateConserved(k, side, st, desired, ids, n);
    StartRouteEffect(k, side, StartState(k, side, st, desired, ids, n), desired[ids[n]]);
  }

  lemma SettledNoConflict(k: Kernel, side: Side, desired: map<Id, Desired>, i: Id, j: Id, want: Desired)
    requires NonConflicting(k, side, desired) && i in desired && j in desired && i != j
    requires !RouteChanged(side, want, desired[j])
    ensures !Conflict(k, side, desired[i], want)
  {
    forall s, t | Uses(desired[i], s) && Uses(want, t)
      ensures !k.conflicts(EndpointOf(side, desired[i], s), EndpointOf(side, want, t))
    {
      UnchangedSameEndpoints(side, want, desired[j], t);
      assert (i, s) != (j, t);
    }
  }

  lemma TakenMember(ids: seq<Id>, n: nat, q: nat)
    requires n <= |ids| && q < |ids|
    ensures q < n ==> ids[q] in ids[..n]
  {
    if q < n { assert ids[..n][q] == ids[q]; }
  }

  /** In an unblocked order nothing that runs at a visit conflicts with the route visited. */
  lemma NothingInTheWay(k: Kernel, side: Side, st: State, desired: map<Id, Desired>, ids: seq<Id>, n: nat, j: Id)
    requires LoopStart(k, side, st, desired, ids) && Unblocked(k, side, st, desired, ids)
    requires n < |ids| && Pending(side, st, desired, ids[n])
    requires j in StartState(k, side, st, desired, ids, n).routes
    ensures !Conflict(k, side, desired[ids[n]], StartState(k, side, st, desired, ids, n).routes[j].want)
  {
    var id, u := ids[n], Visited(k, side, st, desired, ids, n);
    assert j != id && j in u.routes;
    EnsureRoutesSettle(k, side, st, desired, ids[..n], j);
    if j in ids[..n] {
      SettledNoConflict(k, side, desired, id, j, u.routes[j].want);
    } else {
      assert j in ids;
      var q :| 0 <= q < |ids| && ids[q] == j;
      TakenMember(ids, n, q);
      assert !Blocks(k, side, st, desired, ids[n], ids[q]);
      if !Outdated(side, st, desired, j) { SettledNoConflict(k, side, desired, id, j, st.routes[j].want); }
    }
  }

  lemma UnblockedStarts(k: Kernel, side: Side, st: State, desired: map<Id, Desired>, ids: seq<Id>, n: nat)
    requires LoopStart(k, side, st, desired, ids) && Unblocked(k, side, st, desired, ids)
    requires n < |ids| && Pending(side, st, desired, ids[n])
    ensures ids[n] in EnsureRoutes(k, side, st, desired, ids).routes
  {
    var u, want := StartState(k, side, st, desired, ids, n), desired[ids[n]];
    StartStateConserved(k, side, st, desired, ids, n);
    forall j | j in u.routes ensures !Conflict(k, side, want, u.routes[j].want) {
      NothingInTheWay(k, side, st, desired, ids, n, j);
    }
    assert (ids[n], UDP) != (ids[n], TCP);
    StartsFreely(k, side, u, want);
    VisitDecides(k, side, st, desired, ids, n);
  }

  lemma BlockedStaysDown(k: Kernel, side: Side, st: State, desired: map<Id, Desired>, ids: seq<Id>, p: nat, q: nat)
    requires LoopStart(k, side, st, desired, ids) && p < q < |ids| && Blocks(k, side, st, desired, ids[p], ids[q])
    ensures ids[p] !in EnsureRoutes(k, side, st, desired, ids).routes
  {
    LaterIsUntouched(k, side, st, desired, ids, p, q);
    StartStateConserved(k, side, st, desired, ids, p);
    StartFails(k, side, StartState(k, side, st, desired, ids, p), desired[ids[p]], ids[q]);
    VisitDecides(k, side, st, desired, ids, p);
  }

  lemma UnchangedStays(k: Kernel, side: Side, st: State, desired: map<Id, Desired>, ids: seq<Id>, i: Id)
    requires LoopStart(k, side, st, desired, ids) && i in desired
    requires !desired[i].route.protocol.Unsupported? && !Pending(side, st, desired, i)
    ensures i in EnsureRoutes(k, side, st, desired, ids).routes
  {
    EnsureRoutesSettle(k, side, st, desired, ids, i);
  }

  lemma LoopSettles(k: Kernel, side: Side, st: State, desired: map<Id, Desired>, ids: seq<Id>)
    requires LoopStart(k, side, st, desired, ids)
    ensures Settled(side, EnsureRoutes(k, side, st, desired, ids), desired)
  {
    forall i | i in EnsureRoutes(k, side, st, desired, ids).routes
      ensures i in desired && !RouteChanged(side, EnsureRoutes(k, side, st, desired, ids).routes[i].want, desired[i])
    {
      EnsureRoutesSettle(k, side, st, desired, ids, i);
    }
  }

  lemma LoopConvergesExactly(k: Kernel, side: Side, st: State, desired: map<Id, Desired>, ids: seq<Id>)
    requires LoopStart(k, side, st, desired, ids)
    ensures Converged(side, EnsureRoutes(k, side, st, desired, ids), desired) <==> Unblocked(k, side, st, desired, ids)
  {
    LoopSettles(k, side, st, desired, ids);
    if Unblocked(k, side, st, desired, ids) {
      forall i | i in desired && !desired[i].route.protocol.Unsupported?
        ensures i in EnsureRoutes(k, side, st, desired, ids).routes
      {
        if Pending(side, st, desired, i) {
          assert i in ids;
          var n :| 0 <= n < |ids| && ids[n] == i;
          UnblockedStarts(k, side, st, desired, ids, n);
        } else {
          UnchangedStays(k, side, st, desired, ids, i);
        }
      }
    } else {
      var p, q :| 0 <= p < q < |ids| && Blocks(k, side, st, desired, ids[p], ids[q]);
      BlockedStaysDown(k, side, st, desired, ids, p, q);
    }
  }

  // ---- The whole pass ----

  lemma {:induction false} RemoveRoutesAttempts(st: State, ids: seq<Id>)
    ensures RemoveRoutes(st, ids).attempts == st.attempts
    decreases |ids|
  {
    if ids == [] {
    } else {
      RemoveRoutesAttempts(st, ids[..|ids| - 1]);
    }
  }

  lemma StopsLeave(k: Kernel, side: Side, st: State, desired: map<Id, Desired>, stops: seq<Id>, starts: seq<Id>)
    requires Conserved(side, st) && st.running && NonConflicting(k, side, desired) && Healthy(k, st.attempts)
    requires PassOrder(st, desired, stops, starts)
    ensures LoopStart(k, side, RemoveRoutes(st, stops), desired, starts)
    ensures forall i | i in desired :: SameRoute(st, RemoveRoutes(st, stops), i)
  {
    RemoveRoutesConserves(side, st, stops);
    RemoveRoutesAttempts(st, stops);
    forall i
      ensures i in RemoveRoutes(st, stops).routes ==> i in desired
      ensures i in desired ==> SameRoute(st, RemoveRoutes(st, stops), i)
    {
      RemoveRoutesLeaves(st, stops, i);
    }
  }

  lemma SameBlocks(k: Kernel, side: Side, st: State, u: State, desired: map<Id, Desired>, i: Id, j: Id)
    requires SameRoute(st, u, i) && SameRoute(st, u, j)
    ensures Blocks(k, side, u, desired, i, j) <==> Blocks(k, side, st, desired, i, j)
  {
  }

  /**
   * When binds fail only on conflicts and the desired endpoints do not exclude each other, one pass brings up every
   * supported desired route exactly when it visits no route before another whose outdated listeners exclude it.
   */
  lemma OnePassExactly(k: Kernel, side: Side, st: State, desired: map<Id, Desired>, stops: seq<Id>, starts: seq<Id>)
    requires Conserved(side, st) && st.running && NonConflicting(k, side, desired) && Healthy(k, st.attempts)
    requires PassOrder(st, desired, stops, starts)
    ensures Converged(side, Pass(k, side, st, desired, stops, starts), desired) <==>
      Unblocked(k, side, st, desired, starts)
  {
    var u := RemoveRoutes(st, stops);
    StopsLeave(k, side, st, desired, stops, starts);
    LoopConvergesExactly(k, side, u, desired, starts);
    forall p, q | 0 <= p < q < |starts|
      ensures Blocks(k, side, u, desired, starts[p], starts[q]) <==> Blocks(k, side, st, desired, starts[p], starts[q])
    {
      assert starts[p] in desired && starts[q] in desired;
      SameBlocks(k, side, st, u, desired, starts[p], starts[q]);
    }
  }

  // ---- Every order ----

  lemma {:induction false} Enumerate(keys: set<Id>) returns (ids: seq<Id>)
    ensures Visits(ids, keys)
    decreases |keys|
  {
    if keys == {} {
      ids := [];
    } else {
      var k :| k in keys;
      var rest := Enumerate(keys - {k});
      ids := [k] + rest;
    }
  }

  /** There is an order that visits `i` before every other route. */
  lemma VisitFirst(st: State, desired: map<Id, Desired>, i: Id) returns (stops: seq<Id>, starts: seq<Id>)
    requires i in desired
    ensures PassOrder(st, desired, stops, starts) && starts != [] && starts[0] == i
  {
    stops := Enumerate(st.routes.Keys - desired.Keys);
    var rest := Enumerate(desired.Keys - {i});
    starts := [i] + rest;
  }

  /** One pass suffices in every visiting order exactly when no outdated route blocks another pending one. */
  lemma OnePassInEveryOrder(k: Kernel, side: Side, st: State, desired: map<Id, Desired>)
    requires Conserved(side, st) && st.running && NonConflicting(k, side, desired) && Healthy(k, st.attempts)
    ensures
      (forall stops, starts | PassOrder(st, desired, stops, starts) ::
         Converged(side, Pass(k, side, st, desired, stops, starts), desired)) <==>
      (forall i, j | i != j :: !Blocks(k, side, st, desired, i, j))
  {
    if forall i, j | i != j :: !Blocks(k, side, st, desired, i, j) {
      forall stops, starts | PassOrder(st, desired, stops, starts)
        ensures Converged(side, Pass(k, side, st, desired, stops, starts), desired)
      {
        OnePassExactly(k, side, st, desired, stops, starts);
      }
    } else {
      var i, j :| i != j && Blocks(k, side, st, desired, i, j);
      var stops, starts := VisitFirst(st, desired, i);
      assert j in starts;
      var q :| 0 <= q < |starts| && starts[q] == j;
      OnePassExactly(k, side, st, desired, stops, starts);
    }
  }
}
