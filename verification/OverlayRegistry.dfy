/**
 * The registry of peers and nodes: key generation, enrollment, status writes and cleanup as operations on its records,
 * and the mesh configurations built from what they leave.
 */
module OverlayRegistry {
  import opened Text
  import opened AddressBytes
  import opened OverlayRecords
  import opened OverlayRuns
  import Alloc = OverlayAllocator

  // ---- Listings ----

  ghost predicate Lists<T, V>(page: map<Id, T>, s: seq<V>, view: T -> V) {
    (forall k | k in page :: view(page[k]) in s) && (forall v | v in s :: exists k :: k in page && view(page[k]) == v)
  }

  lemma ListsMore<T, V>(page: map<Id, T>, s: seq<V>, view: T -> V, k: Id, x: T)
    requires Lists(page, s, view) && k !in page
    ensures Lists(page[k := x], s + [view(x)], view)
  {
    var more := page[k := x];
    forall v | v in s + [view(x)] ensures exists j :: j in more && view(more[j]) == v {
      if v in s {
        var j :| j in page && view(page[j]) == v;
        assert j in more && view(more[j]) == v;
      } else {
        assert k in more && view(more[k]) == v;
      }
    }
  }

  /** A listing in progress: the records in `page` are listed, those in `todo` are not. */
  ghost predicate Paged<T>(all: map<Id, T>, todo: set<Id>, page: map<Id, T>) {
    && todo <= all.Keys && page.Keys == all.Keys - todo && |page| <= LIST_LIMIT && |page| + |todo| == |all|
    && (forall k | k in page :: page[k] == all[k])
  }

  lemma PagedStep<T>(all: map<Id, T>, todo: set<Id>, page: map<Id, T>, k: Id)
    requires Paged(all, todo, page) && k in todo && |page| < LIST_LIMIT
    ensures k !in page && |page[k := all[k]]| == |page| + 1 && Paged(all, todo - {k}, page[k := all[k]])
  {
    assert page[k := all[k]].Keys == page.Keys + {k};
  }

  ghost predicate Paging<T, V>(all: map<Id, T>, todo: set<Id>, s: seq<V>, page: map<Id, T>, view: T -> V) {
    Paged(all, todo, page) && |s| == |page| && Lists(page, s, view)
  }

  lemma PagingStep<T, V>(all: map<Id, T>, todo: set<Id>, s: seq<V>, page: map<Id, T>, view: T -> V, k: Id)
    requires Paging(all, todo, s, page, view) && k in todo && |s| < LIST_LIMIT
    ensures Paging(all, todo - {k}, s + [view(all[k])], page[k := all[k]], view)
  {
    PagedStep(all, todo, page, k);
    ListsMore(page, s, view, k, all[k]);
  }

  lemma ListsBoth(page: Records, ps: seq<Alloc.Peer>, ns: seq<Alloc.Node>)
    requires Lists(page.peers, ps, PeerView) && Lists(page.nodes, ns, NodeView)
    ensures Listing(page, ps, ns)
  {
    forall v | v in ps ensures StoredPeer(page, v) {}
    forall v | v in ns ensures StoredNode(page, v) {}
  }

  lemma TypedPage(r: Records, page: Records)
    requires Typed(r) && Page(r, page)
    ensures Typed(page)
  {
  }

  // ---- What operations do, event by event ----

  /** An allocation, the peer unless storing it fails, and the node unless its write fails. */
  function KeyGeneration(o: OpId, page: Records, a: Addresses, p: Id, createOk: bool, updateOk: bool)
    : (events: seq<Event>)
  {
    if !createOk then [Allocate(o, page, a), Forget(o)]
    else if !updateOk then [Allocate(o, page, a), Create(o, p)]
    else [Allocate(o, page, a), Create(o, p), Write(o)]
  }

  /** What key generation leaves in the store. */
  function KeysGenerated(r: Records, op: Operation, a: Addresses, p: Id, createOk: bool, updateOk: bool)
    : (r': Records)
  {
    if !createOk then r
    else Records(r.peers[p := Peer(NodeOwner(op.node), Allowed(a.a4, a.a6))],
                 if updateOk then r.nodes[op.node := Assigned(op.copy, a.a4, a.a6)] else r.nodes)
  }

  ghost predicate OthersUntouched(w: World, r: World, o: OpId) {
    o in r.ops && r.ops - {o} == w.ops - {o}
  }

  lemma KeyGenerationRuns(hub: Hub, w: World, o: OpId, page: Records, a: Addresses, p: Id, createOk: bool,
                          updateOk: bool)
    requires Ready(hub, w, Allocate(o, page, a)) && p !in w.records.peers && w.ops[o].node in w.records.nodes
    ensures var events := KeyGeneration(o, page, a, p, createOk, updateOk);
      && Feasible(hub, w, events) && OthersUntouched(w, Final(w, events), o)
      && Final(w, events).records == KeysGenerated(w.records, w.ops[o], a, p, createOk, updateOk)
  {
    var w1 := Then(w, Allocate(o, page, a));
    if !createOk {
      TwoEvents(hub, w, Allocate(o, page, a), Forget(o));
    } else {
      TwoEvents(hub, w, Allocate(o, page, a), Create(o, p));
      if updateOk {
        var events := [Allocate(o, page, a), Create(o, p), Write(o)];
        assert events[1..] == [Create(o, p), Write(o)];
        TwoEvents(hub, w1, Create(o, p), Write(o));
      }
    }
  }

  /** Key generation keeps addresses unique exactly when its assignment is clean. */
  lemma KeysGeneratedUnique(r: Records, op: Operation, a: Addresses, p: Id, updateOk: bool)
    requires Unique(r) && p !in r.peers && op.node in r.nodes
    ensures Unique(KeysGenerated(r, op, a, p, true, updateOk)) <==>
      CleanAssignment(r, op.node, a.a4, a.a6, op.copy, updateOk)
  {
    var r' := KeysGenerated(r, op, a, p, true, updateOk);
    AssigningFollows(r, op.node, p, a.a4, a.a6, op.copy, updateOk);
    AssignmentExactly(r, r', op.node, p, a.a4, a.a6, op.copy, updateOk);
  }

  /** It does with the stored record and addresses allocated against complete listings. */
  lemma FreshIsClean(hub: Hub, r: Records, page: Records, n: Id, a: Addresses, updateOk: bool)
    requires Unique(r) && n in r.nodes && AllListed(r) && Page(r, page)
    requires ValidHub(hub) && LeastUnused(page, hub, a.a4, a.a6)
    ensures CleanAssignment(r, n, a.a4, a.a6, r.nodes[n], updateOk)
  {
    PageIsAll(r, page);
    LeastIsUnheld(r, hub, a, a.a4);
    if a.a6.Some? { LeastIsUnheld(r, hub, a, a.a6.value); }
    FreshClean(r, n, a.a4, a.a6, updateOk);
  }

  /** The node has the addresses, beside an IPv6 address it had, and its new peer exactly those allocated. */
  predicate HasKeys(r: Records, n: Id, p: Id, a: Addresses, loaded: Node) {
    && n in r.nodes && r.nodes[n].ip4 == Some(a.a4)
    && r.nodes[n].ip6 == (match a.a6 case Some(x) => Some(x) case None => loaded.ip6)
    && p in r.peers && r.peers[p].owner == NodeOwner(n)
    && r.peers[p].allowed == (match a.a6 case Some(x) => [Some(a.a4), Some(x)] case None => [Some(a.a4)])
  }

  /** A whole operation: the node is loaded, `inner` happens, and the operation ends. */
  function Whole(o: OpId, n: Id, inner: seq<Event>): (events: seq<Event>) {
    [Load(o, n)] + (inner + [Finish(o)])
  }

  lemma WholeRuns(hub: Hub, w: World, o: OpId, n: Id, inner: seq<Event>)
    requires Ready(hub, w, Load(o, n)) && Feasible(hub, Then(w, Load(o, n)), inner)
    requires OthersUntouched(Then(w, Load(o, n)), Final(Then(w, Load(o, n)), inner), o)
    ensures Feasible(hub, w, Whole(o, n, inner))
    ensures Final(w, Whole(o, n, inner)) == World(Final(Then(w, Load(o, n)), inner).records, w.ops)
  {
    var w1 := Then(w, Load(o, n));
    var w2 := Final(w1, inner);
    OneEvent(hub, w2, Finish(o));
    RunOn(hub, w1, inner, [Finish(o)]);
    assert Whole(o, n, inner)[1..] == inner + [Finish(o)];
    assert w1.ops - {o} == w.ops;
  }

  // ---- The mesh configuration ----

  datatype MeshPeer = MeshPeer(node: Id, allowed: seq<IP>)

  predicate OwnsPeer(r: Records, n: Id) {
    exists p | p in r.peers :: r.peers[p].owner == NodeOwner(n)
  }

  /** Nodes without an overlay address or a peer record are skipped. */
  predicate Meshable(r: Records, n: Id) {
    n in r.nodes && r.nodes[n].ip4.Some? && OwnsPeer(r, n)
  }

  function MeshEntry(r: Records, n: Id): (m: MeshPeer)
    requires Meshable(r, n)
  {
    var node := r.nodes[n];
    MeshPeer(n, [node.ip4.value] + if node.ip6.Some? then [node.ip6.value] else [])
  }

  function MeshOf(r: Records, ids: seq<Id>): (ms: seq<MeshPeer>) {
    if ids == [] then []
    else MeshOf(r, ids[..|ids| - 1]) + if Meshable(r, ids[|ids| - 1]) then [MeshEntry(r, ids[|ids| - 1])] else []
  }

  ghost predicate Distinct(ids: seq<Id>) {
    forall i, j | 0 <= i < j < |ids| :: ids[i] != ids[j]
  }

  /** Each entry is a listed node's, entries are of different nodes, and every meshable node has one. */
  lemma {:induction false} MeshEntries(r: Records, ids: seq<Id>)
    requires Distinct(ids)
    ensures forall m | m in MeshOf(r, ids) :: m.node in ids && Meshable(r, m.node) && m == MeshEntry(r, m.node)
    ensures forall n | n in ids && Meshable(r, n) :: MeshEntry(r, n) in MeshOf(r, ids)
    ensures forall i, j | 0 <= i < j < |MeshOf(r, ids)| :: MeshOf(r, ids)[i].node != MeshOf(r, ids)[j].node
    decreases |ids|
  {
    if ids == [] {
    } else {
      var rest, n := ids[..|ids| - 1], ids[|ids| - 1];
      MeshEntries(r, rest);
      assert ids == rest + [n];
      var ms := MeshOf(r, rest);
      assert forall i | 0 <= i < |ms| :: ms[i] in ms;
    }
  }

  /** No two peers of a mesh configuration share an allowed address. */
  lemma MeshDisjoint(r: Records, ids: seq<Id>, i: nat, j: nat, ip: IP)
    requires Unique(r) && Distinct(ids) && i < j < |MeshOf(r, ids)|
    ensures !(ip in MeshOf(r, ids)[i].allowed && ip in MeshOf(r, ids)[j].allowed)
  {
    MeshEntries(r, ids);
    var a, b := MeshOf(r, ids)[i], MeshOf(r, ids)[j];
    assert a in MeshOf(r, ids) && b in MeshOf(r, ids);
    assert ip in a.allowed ==> NodeHolds(r, a.node, ip);
    assert ip in b.allowed ==> NodeHolds(r, b.node, ip);
  }

  /** An entry's allowed addresses are exactly those its node holds. */
  lemma EntryIsNode(r: Records, n: Id, ip: IP)
    requires Meshable(r, n)
    ensures MeshEntry(r, n).node == n && (ip in MeshEntry(r, n).allowed <==> NodeHolds(r, n, ip))
  {
  }

  predicate PeerOfNode(peers: map<Id, Peer>, n: Id) {
    exists p | p in peers :: peers[p].owner == NodeOwner(n)
  }

  lemma EntryListed(r: Records, ms: seq<MeshPeer>, n: Id)
    requires n in r.nodes && r.nodes[n].ip4.Some? && PeerOfNode(r.peers, n)
    requires Meshable(r, n) ==> MeshEntry(r, n) in ms
    ensures exists i :: 0 <= i < |ms| && ms[i].node == n && forall ip :: ip in ms[i].allowed <==> NodeHolds(r, n, ip)
  {
    var i :| 0 <= i < |ms| && ms[i] == MeshEntry(r, n);
    forall ip ensures ip in ms[i].allowed <==> NodeHolds(r, n, ip) { EntryIsNode(r, n, ip); }
  }

  /** Operations run one at a time leave mesh configurations without shared addresses. */
  lemma OneAtATimeMesh(hub: Hub, net: IP, events: seq<Event>, ids: seq<Id>, i: nat, j: nat, ip: IP)
    requires Feasible(hub, Started(net), events) && Serial(Started(net), events) && Distinct(ids)
    requires i < j < |MeshOf(Final(Started(net), events).records, ids)|
    ensures var ms := MeshOf(Final(Started(net), events).records, ids); !(ip in ms[i].allowed && ip in ms[j].allowed)
  {
    OneAtATime(hub, net, events);
    MeshDisjoint(Final(Started(net), events).records, ids, i, j, ip);
  }

  ghost predicate InGroups(groups: seq<seq<Id>>, n: Id) {
    exists g :: 0 <= g < |groups| && n in groups[g]
  }

  lemma OneMoreGroup(groups: seq<seq<Id>>, g: nat, n: Id)
    requires g < |groups|
    ensures InGroups(groups[..g + 1], n) <==> InGroups(groups[..g], n) || n in groups[g]
  {
    var more, less := groups[..g + 1], groups[..g];
    if InGroups(less, n) {
      var h :| 0 <= h < |less| && n in less[h];
      assert n in more[h];
    }
    if n in groups[g] { assert n in more[g]; }
    if InGroups(more, n) {
      var h :| 0 <= h < |more| && n in more[h];
      if h < g { assert n in less[h]; }
    }
  }

  // ---- The object ----

  class Registry {
    const hub: Hub
    var peers: map<Id, Peer>
    var nodes: map<Id, Node>
    var nextPeer: Id

    ghost function Value(): (r: Records)
      reads this
    {
      Records(peers, nodes)
    }

    /** The controller's first store. */
    constructor (hub: Hub, net: IP)
      requires ValidHub(hub)
      ensures Valid() && this.hub == hub && Value() == Bootstrap(net)
    {
      this.hub := hub;
      peers, nodes, nextPeer := map[0 := Peer(ControllerOwner, [Some(net)])], map[], 1;
    }

    ghost predicate Valid()
      reads this
    {
      ValidHub(hub) && Typed(Value()) && forall p | p in peers :: p < nextPeer
    }

    method ListPeers() returns (s: seq<Alloc.Peer>, ghost page: map<Id, Peer>)
      ensures PageOf(peers, page) && Lists(page, s, PeerView)
      ensures |s| == if |peers| <= LIST_LIMIT then |peers| else LIST_LIMIT
    {
      s, page := [], map[];
      var todo := peers.Keys;
      while todo != {} && |s| < LIST_LIMIT
        invariant Paging(peers, todo, s, page, PeerView)
        decreases todo
      {
        var p :| p in todo;
        PagingStep(peers, todo, s, page, PeerView, p);
        s := s + [PeerView(peers[p])];
        page := page[p := peers[p]];
        todo := todo - {p};
      }
    }

    method ListNodes() returns (s: seq<Alloc.Node>, ghost page: map<Id, Node>)
      ensures PageOf(nodes, page) && Lists(page, s, NodeView)
      ensures |s| == if |nodes| <= LIST_LIMIT then |nodes| else LIST_LIMIT
    {
      s, page := [], map[];
      var todo := nodes.Keys;
      while todo != {} && |s| < LIST_LIMIT
        invariant Paging(nodes, todo, s, page, NodeView)
        decreases todo
      {
        var n :| n in todo;
        PagingStep(nodes, todo, s, page, NodeView, n);
        s := s + [NodeView(nodes[n])];
        page := page[n := nodes[n]];
        todo := todo - {n};
      }
    }

    /** The listings of an allocation. */
    method ListAll() returns (ps: seq<Alloc.Peer>, ns: seq<Alloc.Node>, ghost page: Records)
      requires Valid()
      ensures Page(Value(), page) && Typed(page) && Listing(page, ps, ns)
      ensures AllListed(Value()) ==> Listing(Value(), ps, ns)
    {
      ghost var peerPage, nodePage;
      ps, peerPage := ListPeers();
      ns, nodePage := ListNodes();
      page := Records(peerPage, nodePage);
      ListsBoth(page, ps, ns);
      TypedPage(Value(), page);
      if AllListed(Value()) { PageIsAll(Value(), page); }
    }

    method Allocate4(ps: seq<Alloc.Peer>, ns: seq<Alloc.Node>, ghost page: Records) returns (a: Option<Bytes>)
      requires Valid() && Typed(page) && Listing(page, ps, ns)
      ensures a.None? <==> Full4(page, hub, End4(hub))
      ensures a.Some? ==> Least4(page, hub, a.value)
    {
      a := Alloc.AllocateIPv4(hub.v4.addr, hub.v4.prefix, hub.ctrl4, ps, ns);
      Allocated4(page, hub, ps, ns, a);
    }

    method Allocate6(ps: seq<Alloc.Peer>, ns: seq<Alloc.Node>, ghost page: Records) returns (a: Option<Bytes>)
      requires Valid() && hub.v6.Some? && Typed(page) && Listing(page, ps, ns)
      ensures a.None? <==> Full6(page, hub, End6(hub))
      ensures a.Some? ==> Least6(page, hub, a.value)
    {
      a := Alloc.AllocateIPv6(hub.v6.value.addr, hub.v6.value.prefix, hub.ctrl6, ps, ns);
      Allocated6(page, hub, ps, ns, a);
    }

    /** Both allocations against one listing; they fail exactly when a configured subnet is exhausted in it. */
    method Allocate() returns (r: Option<Addresses>, ghost page: Records)
      requires Valid()
      ensures Page(Value(), page)
      ensures r.None? <==> Exhausted(page, hub)
      ensures r.Some? ==> LeastUnused(page, hub, r.value.a4, r.value.a6)
      ensures AllListed(Value()) ==> (r.None? <==> Exhausted(Value(), hub))
      ensures AllListed(Value()) && r.Some? ==> LeastUnused(Value(), hub, r.value.a4, r.value.a6)
    {
      var ps, ns;
      ps, ns, page := ListAll();
      if AllListed(Value()) { PageIsAll(Value(), page); }
      var a := Allocate4(ps, ns, page);
      if a.None? {
        return None, page;
      }
      if hub.v6.None? {
        return Some(Addresses(Alloc.V4(a.value), None)), page;
      }
      var b := Allocate6(ps, ns, page);
      if b.None? {
        return None, page;
      }
      return Some(Addresses(Alloc.V4(a.value), Some(Alloc.V6(b.value)))), page;
    }

    /**
     * Key generation by operation `o`, which loaded the node earlier; the peer is stored first, and either write may
     * fail.
     */
    method GenerateKeys(n: Id, loaded: Node, createOk: bool, updateOk: bool, ghost w: World, ghost o: OpId)
      returns (ok: bool, ghost page: Records, ghost a: Option<Addresses>, ghost events: seq<Event>)
      requires Valid() && n in nodes && Typed(Records(map[], map[n := loaded]))
      requires w.records == Value() && o in w.ops && w.ops[o] == Operation(n, loaded, None)
      modifies this`peers, this`nodes, this`nextPeer
      ensures Valid() && Page(old(Value()), page)
      ensures Feasible(hub, w, events) && Final(w, events).records == Value() && OthersUntouched(w, Final(w, events), o)
      ensures ok <==> !Exhausted(page, hub) && createOk && updateOk
      ensures a.None? <==> Exhausted(page, hub)
      ensures if a.None? then events == []
              else && LeastUnused(page, hub, a.value.a4, a.value.a6)
                   && exists p :: events == KeyGeneration(o, page, a.value, p, createOk, updateOk)
      ensures Unique(old(Value())) ==>
        (Unique(Value()) <==>
         (a.Some? && createOk ==> CleanAssignment(old(Value()), n, a.value.a4, a.value.a6, loaded, updateOk)))
      ensures ok ==> OwnsPeer(Value(), n)
      ensures ok ==> exists p :: p !in old(peers) && HasKeys(Value(), n, p, a.value, loaded)
    {
      var found;
      found, page := Allocate();
      a := found;
      if found.None? {
        return false, page, a, [];
      }
      var p := nextPeer;
      events := KeyGeneration(o, page, found.value, p, createOk, updateOk);
      KeyGenerationRuns(hub, w, o, page, found.value, p, createOk, updateOk);
      if !createOk {
        return false, page, a, events;
      }
      if Unique(Value()) { KeysGeneratedUnique(Value(), w.ops[o], found.value, p, updateOk); }
      StorePeer(n, found.value, loaded, updateOk);
      ok := updateOk;
    }

    /** The two writes of key generation. */
    method StorePeer(n: Id, a: Addresses, loaded: Node, updateOk: bool)
      requires Valid() && n in nodes && Typed(Records(map[], map[n := loaded]))
      requires a.a4.V4? && (a.a6.Some? ==> a.a6.value.V6?)
      modifies this`peers, this`nodes, this`nextPeer
      ensures Valid() && OwnsPeer(Value(), n)
      ensures Value() == KeysGenerated(old(Value()), Operation(n, loaded, None), a, old(nextPeer), true, updateOk)
      ensures updateOk ==> old(nextPeer) !in old(peers) && HasKeys(Value(), n, old(nextPeer), a, loaded)
    {
      var p := nextPeer;
      nextPeer := nextPeer + 1;
      peers := peers[p := Peer(NodeOwner(n), Allowed(a.a4, a.a6))];
      if updateOk {
        assert n in map[n := loaded];
        nodes := nodes[n := Assigned(loaded, a.a4, a.a6)];
      }
      assert peers[p].owner == NodeOwner(n);
    }

    /** Enrollment of a node that owns no peer, with its record as stored. */
    method EnrollNew(n: Id, createOk: bool, updateOk: bool, ghost w: World, ghost o: OpId)
      returns (ok: bool, ghost page: Records, ghost events: seq<Event>)
      requires Valid() && n in nodes && w.records == Value() && o in w.ops && w.ops[o] == Operation(n, nodes[n], None)
      modifies this`peers, this`nodes, this`nextPeer
      ensures Valid() && Page(old(Value()), page)
      ensures Feasible(hub, w, events) && Final(w, events).records == Value() && OthersUntouched(w, Final(w, events), o)
      ensures Unique(old(Value())) && AllListed(old(Value())) ==> Unique(Value())
      ensures ok <==> !Exhausted(page, hub) && createOk && updateOk
      ensures ok ==> OwnsPeer(Value(), n)
    {
      ghost var a, before := None, Value();
      ok, page, a, events := GenerateKeys(n, nodes[n], createOk, updateOk, w, o);
      if a.Some? && Unique(before) && AllListed(before) {
        FreshIsClean(hub, before, page, n, a.value, updateOk);
      }
    }

    /**
     * Enrollment completion, one operation from loading the node to its end: a node that already owns a peer keeps its
     * addresses, and the record is written back.
     */
    method CompleteEnrollment(n: Id, createOk: bool, markOk: bool, updateOk: bool, ghost w: World, ghost o: OpId)
      returns (ok: bool, ghost page: Records, ghost events: seq<Event>)
      requires Valid() && w.records == Value() && o !in w.ops
      modifies this`peers, this`nodes, this`nextPeer
      ensures Valid() && (n in old(nodes) && !OwnsPeer(old(Value()), n) ==> Page(old(Value()), page))
      ensures Feasible(hub, w, events) && Final(w, events) == World(Value(), w.ops)
      ensures if n in old(nodes) then exists inner :: events == Whole(o, n, inner) else events == []
      ensures OwnsPeer(old(Value()), n) ==> Value() == old(Value())
      ensures Unique(old(Value())) && AllListed(old(Value())) ==> Unique(Value())
      ensures ok ==> OwnsPeer(Value(), n)
      ensures ok <==> n in old(nodes) && markOk && updateOk
                      && (OwnsPeer(old(Value()), n) || (!Exhausted(page, hub) && createOk))
    {
      page := Value();
      if n !in nodes {
        return false, page, [];
      }
      var loaded := nodes[n];
      ghost var w1 := Then(w, Load(o, n));
      ghost var inner: seq<Event> := [];
      if exists p | p in peers :: peers[p].owner == NodeOwner(n) {
        if markOk && updateOk {
          inner := WriteBack(n, loaded, true, w1, o);
          assert Value() == old(Value());
        }
        ok := markOk && updateOk;
      } else {
        ok, page, inner := EnrollNew(n, createOk, markOk && updateOk, w1, o);
      }
      WholeRuns(hub, w, o, n, inner);
      events := Whole(o, n, inner);
    }

    /** Operation `o` stores the node record it loaded earlier. */
    method WriteBack(n: Id, loaded: Node, ok: bool, ghost w: World, ghost o: OpId) returns (ghost events: seq<Event>)
      requires Valid() && Typed(Records(map[], map[n := loaded]))
      requires w.records == Value() && o in w.ops && w.ops[o].node == n && w.ops[o].copy == loaded
      modifies this`nodes
      ensures Valid() && Feasible(hub, w, events) && Final(w, events) == World(Value(), w.ops)
      ensures events == if ok && n in old(nodes) then [Write(o)] else []
      ensures nodes == if ok && n in old(nodes) then old(nodes)[n := loaded] else old(nodes)
      ensures Unique(old(Value())) ==>
        (Unique(Value()) <==> (ok && n in old(nodes) ==> Clean(old(Value()), n, loaded)))
    {
      if !ok || n !in nodes {
        return [];
      }
      assert n in map[n := loaded];
      OneEvent(hub, w, Write(o));
      if Unique(Value()) { WriteExactly(Value(), n, loaded); }
      nodes := nodes[n := loaded];
      events := [Write(o)];
    }

    /** Cleanup deletes some peer record of the node, if there is one and the store obliges. */
    method Cleanup(n: Id, deleteOk: bool, ghost w: World) returns (ghost events: seq<Event>)
      requires Valid() && w.records == Value()
      modifies this`peers
      ensures Valid() && Feasible(hub, w, events) && Final(w, events).records == Value()
      ensures if deleteOk && OwnsPeer(old(Value()), n) then exists p :: events == [Remove(n, p)] else events == []
      ensures Unique(old(Value())) ==> Unique(Value())
    {
      if !deleteOk || !exists p | p in peers :: peers[p].owner == NodeOwner(n) {
        return [];
      }
      var p :| p in peers && peers[p].owner == NodeOwner(n);
      OneEvent(hub, w, Remove(n, p));
      if Unique(Value()) { ReleaseKeepsUnique(Value(), n, p); }
      peers := peers - {p};
      events := [Remove(n, p)];
    }

    /** Collects the members of all groups once each, without the node itself. */
    method CollectMembers(self: Id, groups: seq<seq<Id>>) returns (ids: seq<Id>)
      ensures Distinct(ids)
      ensures forall n :: n in ids <==> n != self && InGroups(groups, n)
    {
      var seen := {self};
      ids := [];
      for g := 0 to |groups|
        invariant Distinct(ids) && self in seen
        invariant forall n :: n in ids <==> n in seen && n != self
        invariant forall n :: n in seen <==> n == self || InGroups(groups[..g], n)
      {
        ghost var before := seen;
        var members := groups[g];
        for i := 0 to |members|
          invariant Distinct(ids) && self in seen
          invariant forall n :: n in ids <==> n in seen && n != self
          invariant forall n :: n in seen <==> n in before || n in members[..i]
        {
          var m := members[i];
          assert members[..i + 1] == members[..i] + [m];
          if m !in seen {
            seen := seen + {m};
            ids := ids + [m];
          }
        }
        assert members[..|members|] == members;
        forall n ensures InGroups(groups[..g + 1], n) <==> InGroups(groups[..g], n) || n in members {
          OneMoreGroup(groups, g, n);
        }
      }
      assert groups[..|groups|] == groups;
    }

    /** The mesh peers of a node: one entry per reachable group member, with no address twice. */
    method GenerateMeshPeers(self: Id, groups: seq<seq<Id>>) returns (ms: seq<MeshPeer>)
      requires Valid()
      ensures Unique(Value()) ==> forall i, j, ip | 0 <= i < j < |ms| :: !(ip in ms[i].allowed && ip in ms[j].allowed)
      ensures forall m | m in ms ::
        m.node != self && InGroups(groups, m.node) && Meshable(Value(), m.node) && m == MeshEntry(Value(), m.node)
      ensures forall g, n | 0 <= g < |groups| && n in groups[g] && n != self && Meshable(Value(), n) ::
        MeshEntry(Value(), n) in ms
      ensures forall n | n != self && InGroups(groups, n) && n in nodes && nodes[n].ip4.Some? && PeerOfNode(peers, n) ::
        exists i :: 0 <= i < |ms| && ms[i].node == n && forall ip :: ip in ms[i].allowed <==> NodeHolds(Value(), n, ip)
    {
      var ids := CollectMembers(self, groups);
      ms := [];
      for i := 0 to |ids|
        invariant ms == MeshOf(Value(), ids[..i])
      {
        assert ids[..i + 1][..i] == ids[..i];
        var n := ids[i];
        if n in nodes && nodes[n].ip4.Some? && exists p | p in peers :: peers[p].owner == NodeOwner(n) {
          var allowed := [nodes[n].ip4.value];
          if nodes[n].ip6.Some? {
            allowed := allowed + [nodes[n].ip6.value];
          }
          assert allowed == MeshEntry(Value(), n).allowed;
          ms := ms + [MeshPeer(n, allowed)];
        } else {
          assert !Meshable(Value(), n);
          assert ms + [] == ms;
        }
      }
      assert ids[..|ids|] == ids;
      MeshEntries(Value(), ids);
      forall n | n != self && InGroups(groups, n) && n in nodes && nodes[n].ip4.Some? && PeerOfNode(peers, n)
        ensures exists i ::
          0 <= i < |ms| && ms[i].node == n && forall ip :: ip in ms[i].allowed <==> NodeHolds(Value(), n, ip)
      {
        EntryListed(Value(), ms, n);
      }
      forall i, j, ip | Unique(Value()) && 0 <= i < j < |ms| ensures !(ip in ms[i].allowed && ip in ms[j].allowed) {
        MeshDisjoint(Value(), ids, i, j, ip);
      }
    }
  }
}
