/**
 * Key generation, enrollment completion, status writes and cleanup under way at once: each operation works on the copy
 * of a node record it loaded, and its allocation, its peer and its node writes are separate accesses. Exactly when
 * every address keeps one owner.
 */
module OverlayRuns {
  import opened Text
  import opened OverlayRecords

  type OpId = nat

  datatype Addresses = Addresses(a4: IP, a6: Option<IP>)

  /** An operation on a node: its copy of the record, and the addresses it has allocated but not yet stored. */
  datatype Operation = Operation(node: Id, copy: Node, due: Option<Addresses>)

  datatype World = World(records: Records, ops: map<OpId, Operation>)

  datatype Event =
    | Load(o: OpId, n: Id)
    | Allocate(o: OpId, page: Records, a: Addresses)
    | Forget(o: OpId)
    | Create(o: OpId, p: Id)
    | Write(o: OpId)
    | Finish(o: OpId)
    | Remove(n: Id, p: Id)
    | Add(n: Id)

  /** The write an event makes. */
  function StepOf(w: World, e: Event): (step: Option<Step>) {
    match e
    case Create(o, p) =>
      if o in w.ops && w.ops[o].due.Some?
      then Some(CreatePeer(w.ops[o].node, p, w.ops[o].due.value.a4, w.ops[o].due.value.a6)) else None
    case Write(o) => if o in w.ops then Some(WriteNode(w.ops[o].node, w.ops[o].copy)) else None
    case Remove(n, p) => Some(Release(n, p))
    case Add(n) => Some(AddNode(n))
    case _ => None
  }

  /** An allocation takes the least addresses no listed record holds. */
  ghost predicate Ready(hub: Hub, w: World, e: Event) {
    && (StepOf(w, e).Some? ==> Enabled(w.records, StepOf(w, e).value))
    && match e
       case Load(o, n) => o !in w.ops && n in w.records.nodes
       case Allocate(o, page, a) =>
         && o in w.ops && w.ops[o].due.None?
         && Page(w.records, page) && ValidHub(hub) && LeastUnused(page, hub, a.a4, a.a6)
       case Create(o, _) => o in w.ops && w.ops[o].due.Some?
       case Remove(_, _) => true
       case Add(_) => true
       case _ => e.o in w.ops
  }

  function OpsAfter(w: World, e: Event): (ops: map<OpId, Operation>) {
    match e
    case Load(o, n) =>
      if n in w.records.nodes then w.ops[o := Operation(n, w.records.nodes[n], None)] else w.ops
    case Allocate(o, _, a) => if o in w.ops then w.ops[o := w.ops[o].(due := Some(a))] else w.ops
    case Forget(o) => if o in w.ops then w.ops[o := w.ops[o].(due := None)] else w.ops
    case Create(o, _) =>
      if o in w.ops && w.ops[o].due.Some? then
        var op := w.ops[o];
        w.ops[o := Operation(op.node, Assigned(op.copy, op.due.value.a4, op.due.value.a6), None)]
      else w.ops
    case Finish(o) => w.ops - {o}
    case _ => w.ops
  }

  function Then(w: World, e: Event): (r: World) {
    World(if StepOf(w, e).Some? then Apply(w.records, StepOf(w, e).value) else w.records, OpsAfter(w, e))
  }

  ghost predicate Feasible(hub: Hub, w: World, events: seq<Event>)
    decreases |events|
  {
    events != [] ==> Ready(hub, w, events[0]) && Feasible(hub, Then(w, events[0]), events[1..])
  }

  function Final(w: World, events: seq<Event>): (r: World)
    decreases |events|
  {
    if events == [] then w else Final(Then(w, events[0]), events[1..])
  }

  /** Nobody loads a record or allocates. */
  predicate NothingNew(events: seq<Event>) {
    forall i | 0 <= i < |events| :: !events[i].Load? && !events[i].Allocate?
  }

  // ---- What operations under way lay claim to ----

  predicate Among(a: Addresses, ip: IP) {
    ip == a.a4 || Some(ip) == a.a6
  }

  /** The operation will store a peer with the address. */
  predicate Awaits(w: World, o: OpId, ip: IP) {
    o in w.ops && w.ops[o].due.Some? && Among(w.ops[o].due.value, ip)
  }

  /** The operation may give its node the address. */
  predicate Claims(w: World, o: OpId, ip: IP) {
    Awaits(w, o, ip) || (o in w.ops && Names(w.ops[o].copy, ip))
  }

  ghost predicate Wf(w: World) {
    forall o | o in w.ops :: w.ops[o].node in w.records.nodes
  }

  /**
   * A claimed address is nobody else's, no peer holds one that is awaited, operations on different nodes claim no
   * common address, and no two operations await one.
   */
  ghost predicate Safe(w: World) {
    && (forall o, ip | Claims(w, o, ip) :: OnlyFor(w.records, w.ops[o].node, ip))
    && (forall o, p, ip :: Awaits(w, o, ip) ==> !PeerHolds(w.records, p, ip))
    && (forall o, q, ip :: Claims(w, o, ip) && Claims(w, q, ip) ==> w.ops[o].node == w.ops[q].node)
    && (forall o, q, ip :: Awaits(w, o, ip) && Awaits(w, q, ip) ==> o == q)
  }

  ghost predicate Sound(w: World) {
    Wf(w) && Unique(w.records) && Safe(w)
  }

  // ---- Events that bring in nothing new ----

  lemma EventKeepsWf(hub: Hub, w: World, e: Event)
    requires Wf(w) && Ready(hub, w, e)
    ensures Wf(Then(w, e))
  {
  }

  lemma SoundWrite(hub: Hub, w: World, e: Event)
    requires Sound(w) && e.Write? && Ready(hub, w, e)
    ensures Sound(Then(w, e))
  {
    var op, r := w.ops[e.o], Then(w, e);
    assert forall ip | Names(op.copy, ip) :: Claims(w, e.o, ip);
    WriteExactly(w.records, op.node, op.copy);
    forall o, ip ensures Claims(r, o, ip) <==> Claims(w, o, ip) {}
    forall o, ip ensures Awaits(r, o, ip) <==> Awaits(w, o, ip) {}
    forall o, ip | Claims(r, o, ip) ensures OnlyFor(r.records, r.ops[o].node, ip) {
      assert OnlyFor(w.records, w.ops[o].node, ip);
      WriteKeepsFor(w.records, op.node, op.copy, w.ops[o].node, ip);
    }
    forall o, p, ip | Awaits(r, o, ip) ensures !PeerHolds(r.records, p, ip) {
      HoldersAfterWrite(w.records, op.node, op.copy, 0, p, ip);
    }
  }

  /** A write of another record that does not name the address leaves it as it was. */
  lemma WriteKeepsFor(r: Records, n: Id, record: Node, m: Id, ip: IP)
    requires OnlyFor(r, m, ip) && (n != m ==> !Names(record, ip))
    ensures OnlyFor(Apply(r, WriteNode(n, record)), m, ip)
  {
    var r' := Apply(r, WriteNode(n, record));
    forall k | k != m ensures !NodeHolds(r', k, ip) { HoldersAfterWrite(r, n, record, k, 0, ip); }
    forall p | PeerHolds(r', p, ip) ensures r'.peers[p].owner == NodeOwner(m) {
      HoldersAfterWrite(r, n, record, n, p, ip);
    }
  }

  lemma CreateKeepsFor(r: Records, n: Id, p: Id, a: Addresses, m: Id, ip: IP)
    requires p !in r.peers && OnlyFor(r, m, ip) && (n != m ==> !Among(a, ip))
    ensures OnlyFor(Apply(r, CreatePeer(n, p, a.a4, a.a6)), m, ip)
  {
    var r' := Apply(r, CreatePeer(n, p, a.a4, a.a6));
    forall k | k != m ensures !NodeHolds(r', k, ip) { HoldersAfterCreate(r, n, p, a.a4, a.a6, k, p, ip); }
    forall q | PeerHolds(r', q, ip) ensures r'.peers[q].owner == NodeOwner(m) {
      HoldersAfterCreate(r, n, p, a.a4, a.a6, n, q, ip);
    }
  }

  /** Storing a peer moves claims of its operation from the allocation to the copy, and adds none. */
  lemma ClaimsAfterCreate(w: World, o: OpId, p: Id, q: OpId, ip: IP)
    requires o in w.ops && w.ops[o].due.Some?
    ensures var r := Then(w, Create(o, p));
      && (Claims(r, q, ip) ==> Claims(w, q, ip)) && (Awaits(r, q, ip) <==> q != o && Awaits(w, q, ip))
  {
  }

  lemma AwaitedAssignable(w: World, o: OpId, ip: IP)
    requires Safe(w) && Awaits(w, o, ip)
    ensures Assignable(w.records, w.ops[o].node, ip)
  {
    assert Claims(w, o, ip);
    assert OnlyFor(w.records, w.ops[o].node, ip);
  }

  lemma SoundCreate(hub: Hub, w: World, e: Event)
    requires Sound(w) && e.Create? && Ready(hub, w, e)
    ensures Sound(Then(w, e))
  {
    var op, r := w.ops[e.o], Then(w, e);
    var n, a := op.node, op.due.value;
    assert forall ip | Among(a, ip) :: Awaits(w, e.o, ip) && Claims(w, e.o, ip);
    AwaitedAssignable(w, e.o, a.a4);
    if a.a6.Some? { AwaitedAssignable(w, e.o, a.a6.value); }
    CreateExactly(w.records, n, e.p, a.a4, a.a6);
    forall q, ip | Claims(r, q, ip) ensures Claims(w, q, ip) { ClaimsAfterCreate(w, e.o, e.p, q, ip); }
    forall q, ip | Awaits(r, q, ip) ensures q != e.o && Awaits(w, q, ip) { ClaimsAfterCreate(w, e.o, e.p, q, ip); }
    forall q, ip | Claims(r, q, ip) ensures OnlyFor(r.records, r.ops[q].node, ip) {
      assert OnlyFor(w.records, w.ops[q].node, ip);
      CreateKeepsFor(w.records, n, e.p, a, w.ops[q].node, ip);
    }
    forall q, p, ip | Awaits(r, q, ip) ensures !PeerHolds(r.records, p, ip) {
      HoldersAfterCreate(w.records, n, e.p, a.a4, a.a6, n, p, ip);
      assert Awaits(w, q, ip) && !(Awaits(w, e.o, ip));
    }
  }

  /** Fewer holders and fewer claims. */
  lemma SoundLess(w: World, r: World)
    requires Sound(w) && Wf(r) && Unique(r.records)
    requires forall q, ip :: Claims(r, q, ip) ==> Claims(w, q, ip) && r.ops[q].node == w.ops[q].node
    requires forall q, ip :: Awaits(r, q, ip) ==> Awaits(w, q, ip)
    requires forall p, ip :: PeerHolds(r.records, p, ip) ==>
      PeerHolds(w.records, p, ip) && r.records.peers[p] == w.records.peers[p]
    requires forall m, ip :: NodeHolds(r.records, m, ip) ==> NodeHolds(w.records, m, ip)
    ensures Sound(r)
  {
    forall o, ip | Claims(r, o, ip) ensures OnlyFor(r.records, r.ops[o].node, ip) {
      assert OnlyFor(w.records, w.ops[o].node, ip);
    }
  }

  lemma SoundOther(hub: Hub, w: World, e: Event)
    requires Sound(w) && (e.Forget? || e.Finish? || e.Remove? || e.Add?) && Ready(hub, w, e)
    ensures Sound(Then(w, e))
  {
    if e.Remove? { ReleaseKeepsUnique(w.records, e.n, e.p); }
    if e.Add? { AddNodeKeepsUnique(w.records, e.n); }
    SoundLess(w, Then(w, e));
  }

  lemma EventKeepsSound(hub: Hub, w: World, e: Event)
    requires Sound(w) && Ready(hub, w, e) && !e.Load? && !e.Allocate?
    ensures Sound(Then(w, e))
  {
    match e
    case Write(_) => SoundWrite(hub, w, e);
    case Create(_, _) => SoundCreate(hub, w, e);
    case _ => SoundOther(hub, w, e);
  }

  lemma {:induction false} StaysSound(hub: Hub, w: World, events: seq<Event>)
    requires Sound(w) && Feasible(hub, w, events) && NothingNew(events)
    ensures Sound(Final(w, events))
    decreases |events|
  {
    if events == [] {
    } else {
      EventKeepsSound(hub, w, events[0]);
      StaysSound(hub, Then(w, events[0]), events[1..]);
    }
  }

  // ---- Claims that can break uniqueness ----

  lemma OneEvent(hub: Hub, w: World, e: Event)
    requires Ready(hub, w, e)
    ensures Feasible(hub, w, [e]) && Final(w, [e]) == Then(w, e)
  {
    assert [e][1..] == [];
  }

  lemma TwoEvents(hub: Hub, w: World, a: Event, b: Event)
    requires Ready(hub, w, a) && Ready(hub, Then(w, a), b)
    ensures Feasible(hub, w, [a, b]) && Final(w, [a, b]) == Then(Then(w, a), b)
  {
    assert [a, b][1..] == [b];
    OneEvent(hub, Then(w, a), b);
  }

  lemma {:induction false} RunOn(hub: Hub, w: World, a: seq<Event>, b: seq<Event>)
    requires Feasible(hub, w, a) && Feasible(hub, Final(w, a), b)
    ensures Feasible(hub, w, a + b) && Final(w, a + b) == Final(Final(w, a), b)
    decreases |a|
  {
    if a == [] {
      assert a + b == b;
    } else {
      RunOn(hub, Then(w, a[0]), a[1..], b);
      assert (a + b)[1..] == a[1..] + b;
    }
  }

  /** The node, or a peer of it, holds the address. */
  ghost predicate HeldFor(r: Records, n: Id, ip: IP) {
    NodeHolds(r, n, ip) || exists p :: PeerHolds(r, p, ip) && r.peers[p].owner == NodeOwner(n)
  }

  lemma TwoHolders(r: Records, n: Id, m: Id, ip: IP)
    requires HeldFor(r, n, ip) && HeldFor(r, m, ip) && n != m
    ensures !Unique(r)
  {
  }

  predicate Takes(e: Event, o: OpId) {
    e == Write(o) || (e.Create? && e.o == o)
  }

  /** An operation can make good its claim with one write. */
  lemma ClaimTaken(hub: Hub, w: World, o: OpId, ip: IP) returns (e: Event)
    requires Wf(w) && Claims(w, o, ip)
    ensures Takes(e, o) && Ready(hub, w, e) && HeldFor(Then(w, e).records, w.ops[o].node, ip)
  {
    var op := w.ops[o];
    if Names(op.copy, ip) {
      e := Write(o);
      assert NodeHolds(Then(w, e).records, op.node, ip);
    } else {
      var p := FreshId(w.records.peers.Keys);
      e := Create(o, p);
      HoldersAfterCreate(w.records, op.node, p, op.due.value.a4, op.due.value.a6, op.node, p, ip);
      assert PeerHolds(Then(w, e).records, p, ip);
    }
  }

  /** It takes nothing from other nodes and leaves other operations alone. */
  lemma OthersKept(hub: Hub, w: World, e: Event, o: OpId, n: Id, ip: IP)
    requires o in w.ops && Takes(e, o) && Ready(hub, w, e) && w.ops[o].node != n && HeldFor(w.records, n, ip)
    ensures HeldFor(Then(w, e).records, n, ip)
  {
    var r := Then(w, e).records;
    if NodeHolds(w.records, n, ip) {
      assert NodeHolds(r, n, ip);
    } else {
      var p :| PeerHolds(w.records, p, ip) && w.records.peers[p].owner == NodeOwner(n);
      assert PeerHolds(r, p, ip);
    }
  }

  lemma OtherClaims(w: World, e: Event, o: OpId, q: OpId, ip: IP)
    requires o in w.ops && Takes(e, o) && q != o
    ensures Claims(Then(w, e), q, ip) <==> Claims(w, q, ip)
    ensures Awaits(Then(w, e), q, ip) <==> Awaits(w, q, ip)
    ensures q in w.ops ==> q in Then(w, e).ops && Then(w, e).ops[q] == w.ops[q]
  {
  }

  /** A continuation, with nothing new, in which an address comes to have two owners. */
  ghost predicate Breaks(hub: Hub, w: World, events: seq<Event>) {
    Feasible(hub, w, events) && NothingNew(events) && !Unique(Final(w, events).records)
  }

  lemma ForeignBreaks(hub: Hub, w: World, o: OpId, ip: IP) returns (events: seq<Event>)
    requires Wf(w) && Claims(w, o, ip) && !OnlyFor(w.records, w.ops[o].node, ip)
    ensures Breaks(hub, w, events)
  {
    var e := ClaimTaken(hub, w, o, ip);
    OneEvent(hub, w, e);
    events := [e];
    ForeignStays(hub, w, e, o, ip);
  }

  /** Whoever else held the address still does. */
  lemma ForeignStays(hub: Hub, w: World, e: Event, o: OpId, ip: IP)
    requires o in w.ops && Takes(e, o) && Ready(hub, w, e) && !OnlyFor(w.records, w.ops[o].node, ip)
    requires HeldFor(Then(w, e).records, w.ops[o].node, ip)
    ensures !Unique(Then(w, e).records)
  {
    var n, r := w.ops[o].node, Then(w, e).records;
    if m :| m != n && NodeHolds(w.records, m, ip) {
      OthersKept(hub, w, e, o, m, ip);
      TwoHolders(r, n, m, ip);
    } else {
      var p :| PeerHolds(w.records, p, ip) && w.records.peers[p].owner != NodeOwner(n);
      assert PeerHolds(r, p, ip) && r.peers[p] == w.records.peers[p];
    }
  }

  /** A peer that holds an awaited address already. */
  lemma AwaitedBreaks(hub: Hub, w: World, o: OpId, p: Id, ip: IP) returns (events: seq<Event>)
    requires Wf(w) && Unique(w.records) && Awaits(w, o, ip) && PeerHolds(w.records, p, ip)
    ensures Breaks(hub, w, events)
  {
    var op := w.ops[o];
    var a := op.due.value;
    var q := FreshId(w.records.peers.Keys);
    OneEvent(hub, w, Create(o, q));
    events := [Create(o, q)];
    CreateExactly(w.records, op.node, q, a.a4, a.a6);
    assert !Assignable(w.records, op.node, ip);
  }

  /** Operations on different nodes that claim one address. */
  lemma SharedClaimBreaks(hub: Hub, w: World, o: OpId, q: OpId, ip: IP) returns (events: seq<Event>)
    requires Wf(w) && Claims(w, o, ip) && Claims(w, q, ip) && w.ops[o].node != w.ops[q].node
    ensures Breaks(hub, w, events)
  {
    var a := ClaimTaken(hub, w, o, ip);
    var w1 := Then(w, a);
    EventKeepsWf(hub, w, a);
    OtherClaims(w, a, o, q, ip);
    var b := ClaimTaken(hub, w1, q, ip);
    OthersKept(hub, w1, b, q, w.ops[o].node, ip);
    TwoHolders(Then(w1, b).records, w.ops[o].node, w.ops[q].node, ip);
    TwoEvents(hub, w, a, b);
    events := [a, b];
  }

  /** Two operations that await one address. */
  lemma SharedAwaitBreaks(hub: Hub, w: World, o: OpId, q: OpId, ip: IP) returns (events: seq<Event>)
    requires Wf(w) && Awaits(w, o, ip) && Awaits(w, q, ip) && o != q
    ensures Breaks(hub, w, events)
  {
    var p := FreshId(w.records.peers.Keys);
    var a, b := Create(o, p), Create(q, p + 1);
    var w1 := Then(w, a);
    OtherClaims(w, a, o, q, ip);
    var x, y := w.ops[o].due.value, w.ops[q].due.value;
    HoldersAfterCreate(w.records, w.ops[o].node, p, x.a4, x.a6, 0, p, ip);
    HoldersAfterCreate(w1.records, w.ops[q].node, p + 1, y.a4, y.a6, 0, p, ip);
    HoldersAfterCreate(w1.records, w.ops[q].node, p + 1, y.a4, y.a6, 0, p + 1, ip);
    TwoEvents(hub, w, a, b);
    events := [a, b];
  }

  /**
   * As long as nobody loads or allocates anew, every address keeps one owner in all continuations exactly when the
   * claims of the operations under way are safe.
   */
  lemma UniqueExactly(hub: Hub, w: World)
    requires Wf(w) && Unique(w.records)
    ensures
      (forall events | Feasible(hub, w, events) && NothingNew(events) :: Unique(Final(w, events).records)) <==> Safe(w)
  {
    if Safe(w) {
      forall events | Feasible(hub, w, events) && NothingNew(events) ensures Unique(Final(w, events).records) {
        StaysSound(hub, w, events);
      }
    } else {
      var events := UnsafeBreaks(hub, w);
    }
  }

  lemma UnsafeBreaks(hub: Hub, w: World) returns (events: seq<Event>)
    requires Wf(w) && Unique(w.records) && !Safe(w)
    ensures Breaks(hub, w, events)
  {
    if o, ip :| Claims(w, o, ip) && !OnlyFor(w.records, w.ops[o].node, ip) {
      events := ForeignBreaks(hub, w, o, ip);
    } else if o, p, ip :| Awaits(w, o, ip) && PeerHolds(w.records, p, ip) {
      events := AwaitedBreaks(hub, w, o, p, ip);
    } else if o, q, ip :| Claims(w, o, ip) && Claims(w, q, ip) && w.ops[o].node != w.ops[q].node {
      events := SharedClaimBreaks(hub, w, o, q, ip);
    } else {
      var o, q, ip :| Awaits(w, o, ip) && Awaits(w, q, ip) && o != q;
      events := SharedAwaitBreaks(hub, w, o, q, ip);
    }
  }

  // ---- Loading and allocating ----

  /** Loading a record is safe at any time. */
  lemma LoadKeepsSound(hub: Hub, w: World, e: Event)
    requires Sound(w) && e.Load? && Ready(hub, w, e)
    ensures Sound(Then(w, e))
  {
    var r, n := Then(w, e), e.n;
    CurrentIsClean(w.records, n);
    forall q, ip ensures Awaits(r, q, ip) <==> Awaits(w, q, ip) {}
    forall q, ip ensures Claims(r, q, ip) <==> if q == e.o then NodeHolds(w.records, n, ip) else Claims(w, q, ip) {}
    forall q, ip | Claims(r, q, ip) ensures OnlyFor(r.records, r.ops[q].node, ip) {
      if q == e.o { assert Names(w.records.nodes[n], ip); }
    }
    forall o, q, ip | Claims(r, o, ip) && Claims(r, q, ip) ensures r.ops[o].node == r.ops[q].node {
      if o != e.o { assert OnlyFor(w.records, w.ops[o].node, ip); }
      if q != e.o { assert OnlyFor(w.records, w.ops[q].node, ip); }
    }
  }

  /** Nobody but the operation's node holds or claims the address, and nobody else awaits it. */
  ghost predicate Available(w: World, o: OpId, ip: IP)
    requires o in w.ops
  {
    && Assignable(w.records, w.ops[o].node, ip)
    && forall q | q != o && Claims(w, q, ip) :: w.ops[q].node == w.ops[o].node && !Awaits(w, q, ip)
  }

  ghost predicate AllAvailable(w: World, o: OpId, a: Addresses)
    requires o in w.ops
  {
    forall ip | Among(a, ip) :: Available(w, o, ip)
  }

  lemma ClaimsAfterAllocate(w: World, e: Event, q: OpId, ip: IP)
    requires e.Allocate? && e.o in w.ops && w.ops[e.o].due.None?
    ensures var r := Then(w, e);
      && (Awaits(r, q, ip) <==> if q == e.o then Among(e.a, ip) else Awaits(w, q, ip))
      && (Claims(r, q, ip) <==> Claims(w, q, ip) || (q == e.o && Among(e.a, ip)))
      && r.records == w.records && r.ops.Keys == w.ops.Keys && (q in w.ops ==> r.ops[q].node == w.ops[q].node)
  {
  }

  lemma AvailableKeepsSound(hub: Hub, w: World, e: Event)
    requires Sound(w) && e.Allocate? && Ready(hub, w, e) && AllAvailable(w, e.o, e.a)
    ensures Sound(Then(w, e))
  {
    var r := Then(w, e);
    forall q, ip
      ensures Awaits(r, q, ip) <==> if q == e.o then Among(e.a, ip) else Awaits(w, q, ip)
      ensures Claims(r, q, ip) <==> Claims(w, q, ip) || (q == e.o && Among(e.a, ip))
    {
      ClaimsAfterAllocate(w, e, q, ip);
    }
    forall q | q in w.ops ensures r.ops[q].node == w.ops[q].node { ClaimsAfterAllocate(w, e, q, e.a.a4); }
    assert forall ip | Among(e.a, ip) :: Available(w, e.o, ip) && OnlyFor(w.records, w.ops[e.o].node, ip);
    assert forall q, ip :: Awaits(w, q, ip) ==> Claims(w, q, ip);
  }

  lemma SafeMeansAvailable(hub: Hub, w: World, e: Event)
    requires e.Allocate? && Ready(hub, w, e) && Safe(Then(w, e))
    ensures AllAvailable(w, e.o, e.a)
  {
    var r := Then(w, e);
    forall ip | Among(e.a, ip) ensures Available(w, e.o, ip) {
      ClaimsAfterAllocate(w, e, e.o, ip);
      AwaitedAssignable(r, e.o, ip);
      forall q | q != e.o && Claims(w, q, ip) ensures w.ops[q].node == w.ops[e.o].node && !Awaits(w, q, ip) {
        ClaimsAfterAllocate(w, e, q, ip);
      }
    }
  }

  /** An allocation leaves claims safe exactly when its addresses are available. */
  lemma AllocateExactly(hub: Hub, w: World, e: Event)
    requires Sound(w) && e.Allocate? && Ready(hub, w, e)
    ensures Safe(Then(w, e)) <==> AllAvailable(w, e.o, e.a)
  {
    if AllAvailable(w, e.o, e.a) { AvailableKeepsSound(hub, w, e); }
    if Safe(Then(w, e)) { SafeMeansAvailable(hub, w, e); }
  }

  // ---- Runs ----

  lemma NextKeepsSound(hub: Hub, w: World, e: Event)
    requires Sound(w) && Ready(hub, w, e) && (e.Allocate? ==> AllAvailable(w, e.o, e.a))
    ensures Sound(Then(w, e))
  {
    if e.Load? {
      LoadKeepsSound(hub, w, e);
    } else if e.Allocate? {
      AvailableKeepsSound(hub, w, e);
    } else {
      EventKeepsSound(hub, w, e);
    }
  }

  /** Every allocation of the run takes addresses that are available then. */
  ghost predicate AvailableRun(hub: Hub, w: World, events: seq<Event>)
    requires Feasible(hub, w, events)
    decreases |events|
  {
    events != [] ==>
      && (events[0].Allocate? ==> AllAvailable(w, events[0].o, events[0].a))
      && AvailableRun(hub, Then(w, events[0]), events[1..])
  }

  /** At no point of the run can the operations then under way give an address a second owner. */
  ghost predicate SafeRun(w: World, events: seq<Event>)
    decreases |events|
  {
    Unique(w.records) && Safe(w) && (events != [] ==> SafeRun(Then(w, events[0]), events[1..]))
  }

  /**
   * Through every run of any number of operations, whatever is loaded, stored, written back late, released or given
   * up, addresses are unique and safe throughout exactly when every allocation takes available addresses.
   */
  lemma {:induction false} RunExactly(hub: Hub, w: World, events: seq<Event>)
    requires Sound(w) && Feasible(hub, w, events)
    ensures SafeRun(w, events) <==> AvailableRun(hub, w, events)
    decreases |events|
  {
    if events == [] {
    } else {
      var e := events[0];
      if e.Allocate? { AllocateExactly(hub, w, e); }
      if e.Allocate? && !AllAvailable(w, e.o, e.a) {
      } else {
        NextKeepsSound(hub, w, e);
        RunExactly(hub, Then(w, e), events[1..]);
      }
    }
  }

  lemma {:induction false} SafeRunUnique(w: World, events: seq<Event>)
    requires SafeRun(w, events)
    ensures Unique(Final(w, events).records)
    decreases |events|
  {
    if events == [] {
    } else {
      SafeRunUnique(Then(w, events[0]), events[1..]);
    }
  }

  // ---- One operation at a time ----

  /** An operation begins only when nobody is under way, and the listings leave nothing out. */
  ghost predicate Serial(w: World, events: seq<Event>)
    decreases |events|
  {
    events != [] ==>
      && (events[0].Load? ==> w.ops == map[]) && (events[0].Allocate? ==> AllListed(w.records))
      && Serial(Then(w, events[0]), events[1..])
  }

  lemma LeastIsUnheld(r: Records, hub: Hub, a: Addresses, ip: IP)
    requires ValidHub(hub) && LeastUnused(r, hub, a.a4, a.a6) && Among(a, ip)
    ensures Unheld(r, ip)
  {
  }

  /** An allocation against complete listings with nobody else under way takes available addresses. */
  lemma AloneIsAvailable(hub: Hub, w: World, e: Event)
    requires e.Allocate? && Ready(hub, w, e) && AllListed(w.records) && w.ops.Keys <= {e.o}
    ensures AllAvailable(w, e.o, e.a)
  {
    PageIsAll(w.records, e.page);
    forall ip | Among(e.a, ip) ensures Available(w, e.o, ip) { LeastIsUnheld(w.records, hub, e.a, ip); }
  }

  lemma {:induction false} SerialIsAvailable(hub: Hub, w: World, events: seq<Event>, o: OpId)
    requires Feasible(hub, w, events) && Serial(w, events) && w.ops.Keys <= {o}
    ensures AvailableRun(hub, w, events)
    decreases |events|
  {
    if events == [] {
    } else {
      var e := events[0];
      if e.Allocate? { AloneIsAvailable(hub, w, e); }
      SerialIsAvailable(hub, Then(w, e), events[1..], if e.Load? then e.o else o);
    }
  }

  function Started(net: IP): (w: World) {
    World(Bootstrap(net), map[])
  }

  lemma StartedSound(net: IP)
    ensures Sound(Started(net))
  {
    BootstrapUnique(net);
  }

  /**
   * From the controller's first store, any number of key generations, enrollments, status writes and cleanups, one
   * operation at a time and whatever writes fail, leave every address with one owner.
   */
  lemma OneAtATime(hub: Hub, net: IP, events: seq<Event>)
    requires Feasible(hub, Started(net), events) && Serial(Started(net), events)
    ensures Unique(Final(Started(net), events).records)
  {
    StartedSound(net);
    SerialIsAvailable(hub, Started(net), events, 0);
    RunExactly(hub, Started(net), events);
    SafeRunUnique(Started(net), events);
  }

  /** The second of two operations to allocate against the same records puts uniqueness at risk. */
  lemma SecondAllocationUnsafe(hub: Hub, w: World, e: Event, f: Event)
    requires Sound(w) && AllListed(w.records) && e.Allocate? && f.Allocate? && e.o != f.o
    requires Ready(hub, w, e) && Ready(hub, Then(w, e), f)
    ensures !Safe(Then(Then(w, e), f))
  {
    var w1 := Then(w, e);
    PageIsAll(w.records, e.page);
    PageIsAll(w.records, f.page);
    Least4Unique(w.records, hub, e.a.a4.b, f.a.a4.b);
    ClaimsAfterAllocate(w, e, e.o, e.a.a4);
    ClaimsAfterAllocate(w1, f, e.o, e.a.a4);
    ClaimsAfterAllocate(w1, f, f.o, e.a.a4);
  }
}
