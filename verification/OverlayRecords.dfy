/**
 * Peer and node records of the overlay: the single writes that assign and release addresses, which of them keep every
 * address with one owner, and what the allocators hand out against the stored records.
 */
module OverlayRecords {
  import opened Text
  import opened AddressBytes
  import Alloc = OverlayAllocator

  type Id = nat
  type IP = Alloc.IP

  datatype Owner = NodeOwner(id: Id) | ControllerOwner
  datatype Peer = Peer(owner: Owner, allowed: seq<Option<IP>>)
  datatype Node = Node(ip4: Option<IP>, ip6: Option<IP>)
  datatype Records = Records(peers: map<Id, Peer>, nodes: map<Id, Node>)

  datatype Subnet = Subnet(addr: Bytes, prefix: nat)

  /** The hub's subnets and its own addresses. */
  datatype Hub = Hub(v4: Subnet, ctrl4: Option<IP>, v6: Option<Subnet>, ctrl6: Option<IP>)

  ghost predicate ValidHub(hub: Hub) {
    && |hub.v4.addr| == 4 && 0 < hub.v4.prefix <= 32
    && (hub.v6.Some? ==> |hub.v6.value.addr| == 16 && hub.v6.value.prefix <= 128)
  }

  /** Lists ask the store for at most this many records. */
  const LIST_LIMIT: nat := 10000

  // ---- Who holds an address ----

  predicate PeerHolds(r: Records, p: Id, ip: IP) {
    p in r.peers && Some(ip) in r.peers[p].allowed
  }

  predicate NodeHolds(r: Records, n: Id, ip: IP) {
    n in r.nodes && (r.nodes[n].ip4 == Some(ip) || r.nodes[n].ip6 == Some(ip))
  }

  ghost predicate Unheld(r: Records, ip: IP) {
    (forall p :: !PeerHolds(r, p, ip)) && (forall n :: !NodeHolds(r, n, ip))
  }

  /** No address is held by two peers or two nodes, and a node and a peer share one only as owner and owned. */
  ghost predicate Unique(r: Records) {
    && (forall ip, p, q :: PeerHolds(r, p, ip) && PeerHolds(r, q, ip) ==> p == q)
    && (forall ip, m, n :: NodeHolds(r, m, ip) && NodeHolds(r, n, ip) ==> m == n)
    && (forall ip, n, p :: NodeHolds(r, n, ip) && PeerHolds(r, p, ip) ==> r.peers[p].owner == NodeOwner(n))
  }

  // ---- Writes ----

  function Allowed(a4: IP, a6: Option<IP>): (s: seq<Option<IP>>) {
    [Some(a4)] + if a6.Some? then [a6] else []
  }

  /** The loaded record with new addresses; an IPv6 address stays when none is allocated. */
  function Assigned(loaded: Node, a4: IP, a6: Option<IP>): (n: Node) {
    Node(Some(a4), if a6.Some? then a6 else loaded.ip6)
  }

  /** One write of the store. Whatever writes a node record writes it whole, as it was loaded but for its changes. */
  datatype Step =
    | CreatePeer(n: Id, p: Id, a4: IP, a6: Option<IP>)
    | Release(n: Id, p: Id)
    | AddNode(n: Id)
    | WriteNode(n: Id, record: Node)

  predicate Enabled(r: Records, step: Step) {
    match step
    case CreatePeer(_, p, _, _) => p !in r.peers
    case Release(n, p) => p in r.peers && r.peers[p].owner == NodeOwner(n)
    case AddNode(n) => n !in r.nodes
    case WriteNode(n, _) => n in r.nodes
  }

  function Apply(r: Records, step: Step): (r': Records) {
    match step
    case CreatePeer(n, p, a4, a6) => r.(peers := r.peers[p := Peer(NodeOwner(n), Allowed(a4, a6))])
    case Release(n, p) => r.(peers := r.peers - {p})
    case AddNode(n) => r.(nodes := r.nodes[n := Node(None, None)])
    case WriteNode(n, record) => r.(nodes := r.nodes[n := record])
  }

  predicate Next(r: Records, r': Records, step: Step) {
    Enabled(r, step) && r' == Apply(r, step)
  }

  /** The writes of one operation, back to back. */
  predicate Follows(r: Records, steps: seq<Step>, r': Records)
    decreases |steps|
  {
    if steps == [] then r' == r
    else Enabled(r, steps[0]) && Follows(Apply(r, steps[0]), steps[1..], r')
  }

  lemma FollowsOne(r: Records, step: Step, r': Records)
    ensures Follows(r, [step], r') <==> Next(r, r', step)
  {
    assert [step][1..] == [];
  }

  lemma FollowsTwo(r: Records, a: Step, b: Step, r': Records)
    ensures Follows(r, [a, b], r') <==> Enabled(r, a) && Next(Apply(r, a), r', b)
  {
    assert [a, b][1..] == [b];
    FollowsOne(Apply(r, a), b, r');
  }

  // ---- Which writes keep addresses unique ----

  predicate Names(node: Node, ip: IP) {
    node.ip4 == Some(ip) || node.ip6 == Some(ip)
  }

  /** Only node `n` and its peers hold the address, if anybody. */
  ghost predicate OnlyFor(r: Records, n: Id, ip: IP) {
    && (forall m :: m != n ==> !NodeHolds(r, m, ip))
    && (forall p :: PeerHolds(r, p, ip) ==> r.peers[p].owner == NodeOwner(n))
  }

  /** Nobody else holds an address of the record. */
  ghost predicate Clean(r: Records, n: Id, record: Node) {
    forall ip | Names(record, ip) :: OnlyFor(r, n, ip)
  }

  /** No peer holds the address, and no node but `n`. */
  ghost predicate Assignable(r: Records, n: Id, ip: IP) {
    (forall p :: !PeerHolds(r, p, ip)) && (forall m :: NodeHolds(r, m, ip) ==> m == n)
  }

  ghost predicate CleanStep(r: Records, step: Step) {
    match step
    case CreatePeer(n, _, a4, a6) => Assignable(r, n, a4) && (a6.Some? ==> Assignable(r, n, a6.value))
    case WriteNode(n, record) => Clean(r, n, record)
    case _ => true
  }

  lemma HoldersAfterCreate(r: Records, n: Id, p: Id, a4: IP, a6: Option<IP>, m: Id, q: Id, ip: IP)
    ensures var r' := Apply(r, CreatePeer(n, p, a4, a6));
      && (NodeHolds(r', m, ip) <==> NodeHolds(r, m, ip))
      && (PeerHolds(r', q, ip) <==> if q == p then ip == a4 || Some(ip) == a6 else PeerHolds(r, q, ip))
  {
    assert a6.Some? ==> Allowed(a4, a6) == [Some(a4), a6];
  }

  lemma CleanCreateUnique(r: Records, n: Id, p: Id, a4: IP, a6: Option<IP>)
    requires Unique(r) && p !in r.peers && CleanStep(r, CreatePeer(n, p, a4, a6))
    ensures Unique(Apply(r, CreatePeer(n, p, a4, a6)))
  {
    var r' := Apply(r, CreatePeer(n, p, a4, a6));
    forall ip, q, q' | PeerHolds(r', q, ip) && PeerHolds(r', q', ip) ensures q == q' {
      HoldersAfterCreate(r, n, p, a4, a6, n, q, ip);
      HoldersAfterCreate(r, n, p, a4, a6, n, q', ip);
    }
    forall ip, k, m | NodeHolds(r', k, ip) && NodeHolds(r', m, ip) ensures k == m {
      HoldersAfterCreate(r, n, p, a4, a6, k, p, ip);
      HoldersAfterCreate(r, n, p, a4, a6, m, p, ip);
    }
    forall ip, m, q | NodeHolds(r', m, ip) && PeerHolds(r', q, ip) ensures r'.peers[q].owner == NodeOwner(m) {
      HoldersAfterCreate(r, n, p, a4, a6, m, q, ip);
    }
  }

  lemma UniqueAfterCreate(r: Records, n: Id, p: Id, a4: IP, a6: Option<IP>, ip: IP)
    requires p !in r.peers && Unique(Apply(r, CreatePeer(n, p, a4, a6))) && (ip == a4 || Some(ip) == a6)
    ensures Assignable(r, n, ip)
  {
    var r' := Apply(r, CreatePeer(n, p, a4, a6));
    HoldersAfterCreate(r, n, p, a4, a6, n, p, ip);
    forall q ensures !PeerHolds(r, q, ip) { HoldersAfterCreate(r, n, p, a4, a6, n, q, ip); }
    forall m | NodeHolds(r, m, ip) ensures m == n {
      HoldersAfterCreate(r, n, p, a4, a6, m, p, ip);
      assert r'.peers[p].owner == NodeOwner(n);
    }
  }

  /** A new peer keeps addresses unique exactly when no other peer and no node but its owner holds one of its own. */
  lemma CreateExactly(r: Records, n: Id, p: Id, a4: IP, a6: Option<IP>)
    requires Unique(r) && p !in r.peers
    ensures Unique(Apply(r, CreatePeer(n, p, a4, a6))) <==> CleanStep(r, CreatePeer(n, p, a4, a6))
  {
    if CleanStep(r, CreatePeer(n, p, a4, a6)) {
      CleanCreateUnique(r, n, p, a4, a6);
    } else if Unique(Apply(r, CreatePeer(n, p, a4, a6))) {
      UniqueAfterCreate(r, n, p, a4, a6, a4);
      if a6.Some? { UniqueAfterCreate(r, n, p, a4, a6, a6.value); }
    }
  }

  lemma ReleaseKeepsUnique(r: Records, n: Id, p: Id)
    requires Unique(r)
    ensures Unique(Apply(r, Release(n, p)))
  {
    var r' := Apply(r, Release(n, p));
    forall q, ip | PeerHolds(r', q, ip) ensures PeerHolds(r, q, ip) && r'.peers[q] == r.peers[q] {}
    forall m, ip ensures NodeHolds(r', m, ip) <==> NodeHolds(r, m, ip) {}
  }

  lemma AddNodeKeepsUnique(r: Records, n: Id)
    requires Unique(r)
    ensures Unique(Apply(r, AddNode(n)))
  {
    var r' := Apply(r, AddNode(n));
    forall q, ip ensures PeerHolds(r', q, ip) <==> PeerHolds(r, q, ip) {}
    forall m, ip | NodeHolds(r', m, ip) ensures NodeHolds(r, m, ip) {}
  }

  lemma HoldersAfterWrite(r: Records, n: Id, record: Node, m: Id, p: Id, ip: IP)
    ensures var r' := Apply(r, WriteNode(n, record));
      && (NodeHolds(r', m, ip) <==> if m == n then Names(record, ip) else NodeHolds(r, m, ip))
      && (PeerHolds(r', p, ip) <==> PeerHolds(r, p, ip))
  {
  }

  lemma CleanWriteUnique(r: Records, n: Id, record: Node)
    requires Unique(r) && Clean(r, n, record)
    ensures Unique(Apply(r, WriteNode(n, record)))
  {
    var r' := Apply(r, WriteNode(n, record));
    forall ip, k, m | NodeHolds(r', k, ip) && NodeHolds(r', m, ip) ensures k == m {
      HoldersAfterWrite(r, n, record, k, 0, ip);
      HoldersAfterWrite(r, n, record, m, 0, ip);
    }
    forall ip, m, p | NodeHolds(r', m, ip) && PeerHolds(r', p, ip) ensures r'.peers[p].owner == NodeOwner(m) {
      HoldersAfterWrite(r, n, record, m, p, ip);
    }
    forall ip, p, q | PeerHolds(r', p, ip) && PeerHolds(r', q, ip) ensures p == q {
      HoldersAfterWrite(r, n, record, n, p, ip);
      HoldersAfterWrite(r, n, record, n, q, ip);
    }
  }

  lemma UniqueAfterWrite(r: Records, n: Id, record: Node)
    requires Unique(Apply(r, WriteNode(n, record)))
    ensures Clean(r, n, record)
  {
    var r' := Apply(r, WriteNode(n, record));
    forall ip | Names(record, ip) ensures OnlyFor(r, n, ip) {
      assert NodeHolds(r', n, ip);
      forall m | m != n ensures !NodeHolds(r, m, ip) { HoldersAfterWrite(r, n, record, m, 0, ip); }
      forall p | PeerHolds(r, p, ip) ensures r.peers[p].owner == NodeOwner(n) {
        HoldersAfterWrite(r, n, record, n, p, ip);
      }
    }
  }

  /** Writing a node record keeps addresses unique exactly when nobody else holds one of its addresses. */
  lemma WriteExactly(r: Records, n: Id, record: Node)
    requires Unique(r)
    ensures Unique(Apply(r, WriteNode(n, record))) <==> Clean(r, n, record)
  {
    if Clean(r, n, record) { CleanWriteUnique(r, n, record); }
    if Unique(Apply(r, WriteNode(n, record))) { UniqueAfterWrite(r, n, record); }
  }

  /** A record that is still the stored one is clean. */
  lemma CurrentIsClean(r: Records, n: Id)
    requires Unique(r) && n in r.nodes
    ensures Clean(r, n, r.nodes[n])
  {
    assert Apply(r, WriteNode(n, r.nodes[n])) == r;
    UniqueAfterWrite(r, n, r.nodes[n]);
  }

  lemma StepUnique(r: Records, r': Records, step: Step)
    requires Unique(r) && Next(r, r', step)
    ensures Unique(r') <==> CleanStep(r, step)
  {
    match step
    case CreatePeer(n, p, a4, a6) => CreateExactly(r, n, p, a4, a6);
    case Release(n, p) => ReleaseKeepsUnique(r, n, p);
    case AddNode(n) => AddNodeKeepsUnique(r, n);
    case WriteNode(n, record) => WriteExactly(r, n, record);
  }

  // ---- Runs: the writes of any number of operations, interleaved ----

  ghost predicate Execution(states: seq<Records>, steps: seq<Step>) {
    && |states| == |steps| + 1 && Unique(states[0])
    && forall i | 0 <= i < |steps| :: Next(states[i], states[i + 1], steps[i])
  }

  lemma {:induction false} CleanRunUnique(states: seq<Records>, steps: seq<Step>, i: nat)
    requires Execution(states, steps) && i < |states|
    requires forall j | 0 <= j < |steps| :: CleanStep(states[j], steps[j])
    ensures Unique(states[i])
    decreases i
  {
    if i == 0 {
    } else {
      CleanRunUnique(states, steps, i - 1);
      StepUnique(states[i - 1], states[i], steps[i - 1]);
    }
  }

  /**
   * Through every interleaving of writes addresses stay unique exactly when no write gives a peer or a node an
   * address that somebody else holds by then.
   */
  lemma AddressUniqueness(states: seq<Records>, steps: seq<Step>)
    requires Execution(states, steps)
    ensures (forall i | 0 <= i < |states| :: Unique(states[i])) <==>
      (forall j | 0 <= j < |steps| :: CleanStep(states[j], steps[j]))
  {
    if forall j | 0 <= j < |steps| :: CleanStep(states[j], steps[j]) {
      forall i | 0 <= i < |states| ensures Unique(states[i]) { CleanRunUnique(states, steps, i); }
    }
    if forall i | 0 <= i < |states| :: Unique(states[i]) {
      forall j | 0 <= j < |steps| ensures CleanStep(states[j], steps[j]) {
        StepUnique(states[j], states[j + 1], steps[j]);
      }
    }
  }

  // ---- One assignment, its two writes back to back ----

  /** A new peer record for `n`; the node record follows unless its update fails or is never reached. */
  function Assigning(n: Id, p: Id, a4: IP, a6: Option<IP>, loaded: Node, updated: bool): (steps: seq<Step>) {
    if updated then [CreatePeer(n, p, a4, a6), WriteNode(n, Assigned(loaded, a4, a6))]
    else [CreatePeer(n, p, a4, a6)]
  }

  /** What an assignment writes back of the record it loaded. */
  function WrittenBack(loaded: Node, a6: Option<IP>): (rest: Node) {
    Node(None, if a6.Some? then None else loaded.ip6)
  }

  /** The addresses can be given to `n`, and what is written back of its record is nobody else's. */
  ghost predicate CleanAssignment(r: Records, n: Id, a4: IP, a6: Option<IP>, loaded: Node, updated: bool) {
    && Assignable(r, n, a4) && (a6.Some? ==> Assignable(r, n, a6.value))
    && (updated ==> Clean(r, n, WrittenBack(loaded, a6)))
  }

  /** A peer of `n` takes nothing away from `n`. */
  lemma OnlyForAfterCreate(r: Records, n: Id, p: Id, a4: IP, a6: Option<IP>, ip: IP)
    requires p !in r.peers
    ensures OnlyFor(Apply(r, CreatePeer(n, p, a4, a6)), n, ip) <==> OnlyFor(r, n, ip)
  {
    var r' := Apply(r, CreatePeer(n, p, a4, a6));
    forall m ensures NodeHolds(r', m, ip) <==> NodeHolds(r, m, ip) {}
    forall q | q != p ensures PeerHolds(r', q, ip) <==> PeerHolds(r, q, ip) {}
    assert !PeerHolds(r, p, ip) && r'.peers[p].owner == NodeOwner(n);
  }

  lemma CleanAfterCreate(r: Records, n: Id, p: Id, a4: IP, a6: Option<IP>, loaded: Node)
    requires p !in r.peers && Assignable(r, n, a4) && (a6.Some? ==> Assignable(r, n, a6.value))
    ensures Clean(Apply(r, CreatePeer(n, p, a4, a6)), n, Assigned(loaded, a4, a6)) <==>
      Clean(r, n, WrittenBack(loaded, a6))
  {
    var r' := Apply(r, CreatePeer(n, p, a4, a6));
    forall ip ensures OnlyFor(r', n, ip) <==> OnlyFor(r, n, ip) { OnlyForAfterCreate(r, n, p, a4, a6, ip); }
    assert OnlyFor(r, n, a4) && (a6.Some? ==> OnlyFor(r, n, a6.value));
    var record, rest := Assigned(loaded, a4, a6), WrittenBack(loaded, a6);
    assert forall ip :: Names(record, ip) <==> ip == a4 || Some(ip) == a6 || Names(rest, ip);
  }

  /** A write of the owner's record does not mend what a new peer broke. */
  lemma AssignableBefore(r: Records, n: Id, p: Id, a4: IP, a6: Option<IP>, record: Node, ip: IP)
    requires p !in r.peers && (ip == a4 || Some(ip) == a6)
    requires Unique(Apply(Apply(r, CreatePeer(n, p, a4, a6)), WriteNode(n, record)))
    ensures Assignable(r, n, ip)
  {
    var mid := Apply(r, CreatePeer(n, p, a4, a6));
    var r' := Apply(mid, WriteNode(n, record));
    forall m, q
      ensures PeerHolds(r', q, ip) <==> q == p || PeerHolds(r, q, ip)
      ensures m != n && NodeHolds(r, m, ip) ==> NodeHolds(r', m, ip)
    {
      HoldersAfterCreate(r, n, p, a4, a6, m, q, ip);
      HoldersAfterWrite(mid, n, record, m, q, ip);
    }
    assert PeerHolds(r', p, ip) && r'.peers[p].owner == NodeOwner(n) && !PeerHolds(r, p, ip);
    forall m | NodeHolds(r, m, ip) ensures m == n { assert m != n ==> NodeHolds(r', m, ip); }
    forall q ensures !PeerHolds(r, q, ip) { assert PeerHolds(r, q, ip) ==> PeerHolds(r', q, ip); }
  }

  /**
   * An assignment, its node write reached or not, keeps addresses unique exactly when nobody else holds the addresses
   * it assigns or the IPv6 address it writes back.
   */
  lemma AssignmentExactly(r: Records, r': Records, n: Id, p: Id, a4: IP, a6: Option<IP>, loaded: Node, updated: bool)
    requires Unique(r) && Follows(r, Assigning(n, p, a4, a6, loaded, updated), r')
    ensures Unique(r') <==> CleanAssignment(r, n, a4, a6, loaded, updated)
  {
    var create, write := CreatePeer(n, p, a4, a6), WriteNode(n, Assigned(loaded, a4, a6));
    if updated { FollowsTwo(r, create, write, r'); } else { FollowsOne(r, create, r'); }
    CreateExactly(r, n, p, a4, a6);
    if updated && Unique(r') {
      AssignableBefore(r, n, p, a4, a6, write.record, a4);
      if a6.Some? { AssignableBefore(r, n, p, a4, a6, write.record, a6.value); }
    }
    if updated && CleanStep(r, create) {
      WriteExactly(Apply(r, create), n, write.record);
      CleanAfterCreate(r, n, p, a4, a6, loaded);
    }
  }

  lemma FreshClean(r: Records, n: Id, a4: IP, a6: Option<IP>, updated: bool)
    requires Unique(r) && n in r.nodes && Unheld(r, a4) && (a6.Some? ==> Unheld(r, a6.value))
    ensures CleanAssignment(r, n, a4, a6, r.nodes[n], updated)
  {
    CurrentIsClean(r, n);
    assert forall ip :: Names(WrittenBack(r.nodes[n], a6), ip) ==> Names(r.nodes[n], ip);
  }

  /** In particular with unheld addresses and the record as stored. */
  lemma FreshAssignmentUnique(r: Records, r': Records, n: Id, p: Id, a4: IP, a6: Option<IP>, updated: bool)
    requires Unique(r) && n in r.nodes && Unheld(r, a4) && (a6.Some? ==> Unheld(r, a6.value))
    requires Follows(r, Assigning(n, p, a4, a6, r.nodes[n], updated), r')
    ensures Unique(r')
  {
    FreshClean(r, n, a4, a6, updated);
    AssignmentExactly(r, r', n, p, a4, a6, r.nodes[n], updated);
  }

  /** Two assignments that overlap in one address leave it with two owners. */
  lemma OverlapShares(r: Records, r': Records, n: Id, m: Id, p: Id, q: Id, a4: IP, a6: Option<IP>, b6: Option<IP>)
    requires Follows(r, [CreatePeer(n, p, a4, a6), CreatePeer(m, q, a4, b6)], r')
    ensures !Unique(r')
  {
    var first, second := CreatePeer(n, p, a4, a6), CreatePeer(m, q, a4, b6);
    var mid := Apply(r, first);
    FollowsTwo(r, first, second, r');
    assert p in mid.peers && q !in mid.peers;
    assert Some(a4) == Allowed(a4, a6)[0] && Some(a4) == Allowed(a4, b6)[0];
    assert PeerHolds(r', p, a4) && PeerHolds(r', q, a4);
  }

  lemma AssigningFollows(r: Records, n: Id, p: Id, a4: IP, a6: Option<IP>, loaded: Node, updated: bool)
    requires p !in r.peers && n in r.nodes
    ensures var mid := r.(peers := r.peers[p := Peer(NodeOwner(n), Allowed(a4, a6))]);
      Follows(r, Assigning(n, p, a4, a6, loaded, updated),
              if updated then mid.(nodes := r.nodes[n := Assigned(loaded, a4, a6)]) else mid)
  {
    var create, write := CreatePeer(n, p, a4, a6), WriteNode(n, Assigned(loaded, a4, a6));
    var mid := Apply(r, create);
    FollowsOne(r, create, mid);
    FollowsTwo(r, create, write, Apply(mid, write));
  }

  // ---- Allocation against the stored records ----

  function PeerView(p: Peer): (v: Alloc.Peer) { Alloc.Peer(p.allowed) }
  function NodeView(n: Node): (v: Alloc.Node) { Alloc.Node(n.ip4, n.ip6) }

  /** What a listing of at most LIST_LIMIT records returns: all of them, or that many. */
  ghost predicate PageOf<T>(all: map<Id, T>, page: map<Id, T>) {
    && page.Keys <= all.Keys && (forall k | k in page :: page[k] == all[k])
    && |page| == if |all| <= LIST_LIMIT then |all| else LIST_LIMIT
  }

  ghost predicate Page(r: Records, page: Records) {
    PageOf(r.peers, page.peers) && PageOf(r.nodes, page.nodes)
  }

  /** The listings leave nothing out. */
  ghost predicate AllListed(r: Records) {
    |r.peers| <= LIST_LIMIT && |r.nodes| <= LIST_LIMIT
  }

  lemma FullPage<T>(all: map<Id, T>, page: map<Id, T>)
    requires PageOf(all, page) && |all| <= LIST_LIMIT
    ensures page == all
  {
    SubsetSize(page.Keys, all.Keys);
  }

  lemma PageIsAll(r: Records, page: Records)
    requires Page(r, page) && AllListed(r)
    ensures page == r
  {
    FullPage(r.peers, page.peers);
    FullPage(r.nodes, page.nodes);
  }

  /** A listing that left nothing out and made nothing up. */
  ghost predicate Listing(r: Records, peers: seq<Alloc.Peer>, nodes: seq<Alloc.Node>) {
    && (forall p | p in r.peers :: PeerView(r.peers[p]) in peers)
    && (forall n | n in r.nodes :: NodeView(r.nodes[n]) in nodes)
    && (forall v | v in peers :: StoredPeer(r, v))
    && (forall v | v in nodes :: StoredNode(r, v))
  }

  ghost predicate StoredPeer(r: Records, v: Alloc.Peer) {
    exists p :: p in r.peers && PeerView(r.peers[p]) == v
  }

  ghost predicate StoredNode(r: Records, v: Alloc.Node) {
    exists n :: n in r.nodes && NodeView(r.nodes[n]) == v
  }

  ghost predicate Typed(r: Records) {
    forall n | n in r.nodes ::
      && (r.nodes[n].ip4.Some? ==> r.nodes[n].ip4.value.V4?)
      && (r.nodes[n].ip6.Some? ==> r.nodes[n].ip6.value.V6?)
  }

  lemma InAll<T>(xs: seq<T>, x: T, f: T -> set<Bytes>, b: Bytes)
    requires x in xs && b in f(x)
    ensures b in Alloc.All(xs, f)
  {
    var i :| 0 <= i < |xs| && xs[i] == x;
    Alloc.AllHolds(xs, f, b);
  }

  /** The addresses the listed peers use are those a stored peer holds. */
  lemma PeerUse(r: Records, peers: seq<Alloc.Peer>, nodes: seq<Alloc.Node>, ip: IP, f: Option<IP> -> set<Bytes>,
                g: Alloc.Peer -> set<Bytes>, b: Bytes)
    requires Listing(r, peers, nodes)
    requires forall x :: b in f(x) <==> x == Some(ip)
    requires forall v :: g(v) == Alloc.All(v.allowed, f)
    ensures b in Alloc.All(peers, g) <==> exists p :: PeerHolds(r, p, ip)
  {
    Alloc.AllHolds(peers, g, b);
    if b in Alloc.All(peers, g) {
      var i :| 0 <= i < |peers| && b in g(peers[i]);
      Alloc.AllHolds(peers[i].allowed, f, b);
      assert StoredPeer(r, peers[i]);
      var p :| p in r.peers && PeerView(r.peers[p]) == peers[i];
      assert PeerHolds(r, p, ip);
    }
    if p :| PeerHolds(r, p, ip) {
      InAll(r.peers[p].allowed, Some(ip), f, b);
      InAll(peers, PeerView(r.peers[p]), g, b);
    }
  }

  lemma NodeUse(r: Records, peers: seq<Alloc.Peer>, nodes: seq<Alloc.Node>, ip: IP, f: Alloc.Node -> set<Bytes>,
                b: Bytes)
    requires Listing(r, peers, nodes)
    requires forall n | n in r.nodes :: b in f(NodeView(r.nodes[n])) <==> NodeHolds(r, n, ip)
    ensures b in Alloc.All(nodes, f) <==> exists n :: NodeHolds(r, n, ip)
  {
    Alloc.AllHolds(nodes, f, b);
    if b in Alloc.All(nodes, f) {
      var i :| 0 <= i < |nodes| && b in f(nodes[i]);
      assert StoredNode(r, nodes[i]);
      var n :| n in r.nodes && NodeView(r.nodes[n]) == nodes[i];
      assert NodeHolds(r, n, ip);
    }
    if n :| NodeHolds(r, n, ip) { InAll(nodes, NodeView(r.nodes[n]), f, b); }
  }

  function Net4(hub: Hub): (net: Bytes) { Masked(hub.v4.addr, hub.v4.prefix) }

  function Net6(hub: Hub): (net: Bytes)
    requires hub.v6.Some?
  {
    Masked(hub.v6.value.addr, hub.v6.value.prefix)
  }

  /** Reserved, or held by a stored peer or node. */
  ghost predicate InUse4(r: Records, hub: Hub, b: Bytes) {
    b == Net4(hub) || b == LastAddress(Net4(hub), hub.v4.prefix) || b in Alloc.To4(hub.ctrl4) || !Unheld(r, Alloc.V4(b))
  }

  ghost predicate InUse6(r: Records, hub: Hub, b: Bytes)
    requires hub.v6.Some?
  {
    b == Net6(hub) || b in Alloc.To16(hub.ctrl6) || !Unheld(r, Alloc.V6(b))
  }

  lemma Used4Is(r: Records, hub: Hub, peers: seq<Alloc.Peer>, nodes: seq<Alloc.Node>, b: Bytes)
    requires Typed(r) && Listing(r, peers, nodes)
    ensures b in Alloc.Used4(Net4(hub), hub.v4.prefix, hub.ctrl4, peers, nodes) <==> InUse4(r, hub, b)
  {
    PeerUse(r, peers, nodes, Alloc.V4(b), Alloc.To4, Alloc.PeerAddresses4, b);
    NodeUse(r, peers, nodes, Alloc.V4(b), (n: Alloc.Node) => Alloc.To4(n.ip4), b);
  }

  lemma Used6Is(r: Records, hub: Hub, peers: seq<Alloc.Peer>, nodes: seq<Alloc.Node>, b: Bytes)
    requires hub.v6.Some? && Typed(r) && Listing(r, peers, nodes)
    ensures b in Alloc.Used6(Net6(hub), hub.ctrl6, peers, nodes) <==> InUse6(r, hub, b)
  {
    PeerUse(r, peers, nodes, Alloc.V6(b), Alloc.To16Only, Alloc.PeerAddresses6, b);
    NodeUse(r, peers, nodes, Alloc.V6(b), (n: Alloc.Node) => Alloc.To16(n.ip6), b);
  }

  /** Every address of the subnet below number `upto` and above its first is in use. */
  ghost predicate Full4(r: Records, hub: Hub, upto: nat) {
    forall w: nat | Value(Net4(hub)) < w < upto :: InUse4(r, hub, BytesOf(w, 4))
  }

  ghost predicate Full6(r: Records, hub: Hub, upto: nat)
    requires hub.v6.Some?
  {
    forall w: nat | Value(Net6(hub)) < w < upto :: InUse6(r, hub, BytesOf(w, 16))
  }

  ghost function End4(hub: Hub): (n: nat)
    requires ValidHub(hub)
  {
    Value(Net4(hub)) + Pow2(32 - hub.v4.prefix)
  }

  ghost function End6(hub: Hub): (n: nat)
    requires ValidHub(hub) && hub.v6.Some?
  {
    Value(Net6(hub)) + Pow2(128 - hub.v6.value.prefix)
  }

  /** A configured subnet has no address left. */
  ghost predicate Exhausted(r: Records, hub: Hub)
    requires ValidHub(hub)
  {
    Full4(r, hub, End4(hub)) || (hub.v6.Some? && Full6(r, hub, End6(hub)))
  }

  /** The least address not in use. */
  ghost predicate Least4(r: Records, hub: Hub, x: Bytes)
    requires ValidHub(hub)
  {
    |x| == 4 && Value(Net4(hub)) < Value(x) < End4(hub) && !InUse4(r, hub, x) && Full4(r, hub, Value(x))
  }

  ghost predicate Least6(r: Records, hub: Hub, x: Bytes)
    requires ValidHub(hub) && hub.v6.Some?
  {
    |x| == 16 && Value(Net6(hub)) < Value(x) < End6(hub) && !InUse6(r, hub, x) && Full6(r, hub, Value(x))
  }

  /** The least addresses not in use, one for each configured subnet. */
  ghost predicate LeastUnused(r: Records, hub: Hub, a4: IP, a6: Option<IP>)
    requires ValidHub(hub)
  {
    && a4.V4? && Least4(r, hub, a4.b)
    && (a6.Some? <==> hub.v6.Some?)
    && (a6.Some? ==> a6.value.V6? && Least6(r, hub, a6.value.b))
  }

  lemma Allocated4(r: Records, hub: Hub, peers: seq<Alloc.Peer>, nodes: seq<Alloc.Node>, a: Option<Bytes>)
    requires ValidHub(hub) && Typed(r) && Listing(r, peers, nodes)
    requires Alloc.LeastFree(a, Value(Net4(hub)), Pow2(32 - hub.v4.prefix), 4,
                             Alloc.Used4(Net4(hub), hub.v4.prefix, hub.ctrl4, peers, nodes))
    ensures a.None? <==> Full4(r, hub, End4(hub))
    ensures a.Some? ==> Least4(r, hub, a.value)
  {
    var upto := if a.None? then End4(hub) else Value(a.value);
    forall w: nat | Value(Net4(hub)) < w < upto ensures InUse4(r, hub, BytesOf(w, 4)) {
      Used4Is(r, hub, peers, nodes, BytesOf(w, 4));
    }
    if a.Some? {
      Used4Is(r, hub, peers, nodes, a.value);
      BytesOfValue(a.value);
    }
  }

  lemma Allocated6(r: Records, hub: Hub, peers: seq<Alloc.Peer>, nodes: seq<Alloc.Node>, a: Option<Bytes>)
    requires ValidHub(hub) && hub.v6.Some? && Typed(r) && Listing(r, peers, nodes)
    requires Alloc.LeastFree(a, Value(Net6(hub)), Pow2(128 - hub.v6.value.prefix), 16,
                             Alloc.Used6(Net6(hub), hub.ctrl6, peers, nodes))
    ensures a.None? <==> Full6(r, hub, End6(hub))
    ensures a.Some? ==> Least6(r, hub, a.value)
  {
    var upto := if a.None? then End6(hub) else Value(a.value);
    forall w: nat | Value(Net6(hub)) < w < upto ensures InUse6(r, hub, BytesOf(w, 16)) {
      Used6Is(r, hub, peers, nodes, BytesOf(w, 16));
    }
    if a.Some? {
      Used6Is(r, hub, peers, nodes, a.value);
      BytesOfValue(a.value);
    }
  }

  lemma Least4Unique(r: Records, hub: Hub, x: Bytes, y: Bytes)
    requires ValidHub(hub) && Least4(r, hub, x) && Least4(r, hub, y)
    ensures x == y
  {
    BytesOfValue(x);
    BytesOfValue(y);
  }

  /** Two enrollments that both allocate before either stores its peer always share an address. */
  lemma SameListingShares(r: Records, r': Records, hub: Hub, n: Id, m: Id, p: Id, q: Id,
                          a4: IP, a6: Option<IP>, b4: IP, b6: Option<IP>)
    requires ValidHub(hub) && LeastUnused(r, hub, a4, a6) && LeastUnused(r, hub, b4, b6)
    requires Follows(r, [CreatePeer(n, p, a4, a6), CreatePeer(m, q, b4, b6)], r')
    ensures !Unique(r')
  {
    Least4Unique(r, hub, a4.b, b4.b);
    OverlapShares(r, r', n, m, p, q, a4, a6, b6);
  }

  // ---- A stale write-back ----

  /** The store a controller starts with: its own peer, which lists the overlay subnet. */
  function Bootstrap(net: IP): (r: Records) {
    Records(map[0 := ControllerPeer(net)], map[])
  }

  lemma BootstrapUnique(net: IP)
    ensures Unique(Bootstrap(net))
  {
  }

  /**
   * Node 1 gets `a` and loses its peer, gets `b`, node 2 gets `a`, and a pipeline that loaded node 1 before writes
   * its old record back.
   */
  function StaleSteps(a: IP, b: IP): (steps: seq<Step>) {
    [AddNode(1), AddNode(2), CreatePeer(1, 1, a, None), WriteNode(1, Node(Some(a), None)), Release(1, 1),
     CreatePeer(1, 2, b, None), WriteNode(1, Node(Some(b), None)), CreatePeer(2, 3, a, None),
     WriteNode(2, Node(Some(a), None)), WriteNode(1, Node(Some(a), None))]
  }

  function ControllerPeer(net: IP): (p: Peer) { Peer(ControllerOwner, [Some(net)]) }
  function PeerOf(n: Id, ip: IP): (p: Peer) { Peer(NodeOwner(n), [Some(ip)]) }
  function NodeAt(ip: IP): (n: Node) { Node(Some(ip), None) }

  function TwoNodes(peers: map<Id, Peer>, one: Node, two: Node): (r: Records) {
    Records(peers, map[1 := one, 2 := two])
  }

  /** The run up to where node 1 has `a`, and on from there. */
  function FirstStates(net: IP, a: IP): (states: seq<Records>) {
    var c, none := ControllerPeer(net), Node(None, None);
    [Bootstrap(net), Records(map[0 := c], map[1 := none]), TwoNodes(map[0 := c], none, none),
     TwoNodes(map[0 := c, 1 := PeerOf(1, a)], none, none), TwoNodes(map[0 := c, 1 := PeerOf(1, a)], NodeAt(a), none)]
  }

  function LaterStates(net: IP, a: IP, b: IP): (states: seq<Records>) {
    var c, none := ControllerPeer(net), Node(None, None);
    var two := map[0 := c, 2 := PeerOf(1, b)];
    var three := map[0 := c, 2 := PeerOf(1, b), 3 := PeerOf(2, a)];
    [TwoNodes(map[0 := c], NodeAt(a), none), TwoNodes(two, NodeAt(a), none), TwoNodes(two, NodeAt(b), none),
     TwoNodes(three, NodeAt(b), none), TwoNodes(three, NodeAt(b), NodeAt(a)), TwoNodes(three, NodeAt(a), NodeAt(a))]
  }

  function StaleStates(net: IP, a: IP, b: IP): (states: seq<Records>) {
    FirstStates(net, a) + LaterStates(net, a, b)
  }

  lemma CreateNext(r: Records, n: Id, p: Id, ip: IP)
    requires p !in r.peers
    ensures Next(r, r.(peers := r.peers[p := PeerOf(n, ip)]), CreatePeer(n, p, ip, None))
  {
    assert Allowed(ip, None) == [Some(ip)];
  }

  lemma WriteNext(peers: map<Id, Peer>, one: Node, two: Node, n: Id, record: Node)
    requires n == 1 || n == 2
    ensures Next(TwoNodes(peers, one, two),
                 TwoNodes(peers, if n == 1 then record else one, if n == 2 then record else two), WriteNode(n, record))
  {
  }

  lemma FirstRun(net: IP, a: IP, b: IP)
    ensures forall i | 0 <= i < 4 :: Next(FirstStates(net, a)[i], FirstStates(net, a)[i + 1], StaleSteps(a, b)[i])
  {
    var s, steps := FirstStates(net, a), StaleSteps(a, b);
    var c, none := ControllerPeer(net), Node(None, None);
    assert Next(s[0], s[1], steps[0]);
    assert map[1 := none][2 := none] == map[1 := none, 2 := none];
    assert Next(s[1], s[2], steps[1]);
    CreateNext(s[2], 1, 1, a);
    assert map[0 := c][1 := PeerOf(1, a)] == map[0 := c, 1 := PeerOf(1, a)];
    WriteNext(s[3].peers, none, none, 1, NodeAt(a));
  }

  lemma LaterRun(net: IP, a: IP, b: IP)
    ensures forall i | 0 <= i < 5 ::
      Next(LaterStates(net, a, b)[i], LaterStates(net, a, b)[i + 1], StaleSteps(a, b)[i + 5])
  {
    var s, steps := LaterStates(net, a, b), StaleSteps(a, b);
    var c, none := ControllerPeer(net), Node(None, None);
    CreateNext(s[0], 1, 2, b);
    assert map[0 := c][2 := PeerOf(1, b)] == map[0 := c, 2 := PeerOf(1, b)];
    WriteNext(s[1].peers, NodeAt(a), none, 1, NodeAt(b));
    CreateNext(s[2], 2, 3, a);
    assert s[2].peers[3 := PeerOf(2, a)] == s[3].peers;
    WriteNext(s[3].peers, NodeAt(b), none, 2, NodeAt(a));
    WriteNext(s[4].peers, NodeAt(b), NodeAt(a), 1, NodeAt(a));
  }

  lemma PeerReleased(net: IP, a: IP, b: IP)
    ensures Next(FirstStates(net, a)[4], LaterStates(net, a, b)[0], StaleSteps(a, b)[4])
  {
    var c := ControllerPeer(net);
    assert map[0 := c, 1 := PeerOf(1, a)] - {1} == map[0 := c];
  }

  lemma StaleRun(net: IP, a: IP, b: IP)
    ensures forall i | 0 <= i < 10 ::
      Next(StaleStates(net, a, b)[i], StaleStates(net, a, b)[i + 1], StaleSteps(a, b)[i])
  {
    var s, first, later := StaleStates(net, a, b), FirstStates(net, a), LaterStates(net, a, b);
    FirstRun(net, a, b);
    PeerReleased(net, a, b);
    LaterRun(net, a, b);
    forall i | 0 <= i < 10 ensures Next(s[i], s[i + 1], StaleSteps(a, b)[i]) {
      if i < 4 {
        assert s[i] == first[i] && s[i + 1] == first[i + 1];
      } else if i == 4 {
        assert s[4] == first[4] && s[5] == later[0];
      } else {
        assert s[i] == later[i - 5] && s[i + 1] == later[i - 5 + 1];
      }
    }
  }

  lemma BeforeStaleUnique(net: IP, a: IP, b: IP)
    requires a != b && a != net && b != net
    ensures Unique(LaterStates(net, a, b)[4])
  {
    var r := LaterStates(net, a, b)[4];
    forall p, ip ensures PeerHolds(r, p, ip) <==> (p == 0 && ip == net) || (p == 2 && ip == b) || (p == 3 && ip == a) {}
    forall n, ip ensures NodeHolds(r, n, ip) <==> (n == 1 && ip == b) || (n == 2 && ip == a) {}
  }

  /** What the controller's first store holds stays held, and with it what is in use. */
  lemma FullLasts(net: IP, r: Records, r': Records, hub: Hub, upto: nat)
    requires forall ip :: !Unheld(r, ip) ==> ip == net
    requires 0 in r'.peers && r'.peers[0] == ControllerPeer(net) && Full4(r, hub, upto)
    ensures Full4(r', hub, upto)
  {
    assert PeerHolds(r', 0, net);
    forall w: nat | Value(Net4(hub)) < w < upto ensures InUse4(r', hub, BytesOf(w, 4)) {
      assert InUse4(r, hub, BytesOf(w, 4));
    }
  }

  /** Once node 1 has moved on, the allocator hands out its first address again. */
  lemma HandedOutAgain(hub: Hub, net: IP, a: IP, b: IP)
    requires ValidHub(hub) && hub.v6.None? && a != b && a != net
    requires LeastUnused(FirstStates(net, a)[2], hub, a, None)
    ensures LeastUnused(LaterStates(net, a, b)[2], hub, a, None)
  {
    var r, r' := FirstStates(net, a)[2], LaterStates(net, a, b)[2];
    forall p, ip ensures PeerHolds(r, p, ip) <==> p == 0 && ip == net {}
    forall n, ip ensures !NodeHolds(r, n, ip) {}
    FullLasts(net, r, r', hub, Value(a.b));
    forall p ensures !PeerHolds(r', p, a) {}
    forall n ensures !NodeHolds(r', n, a) {}
  }

  /** The addresses a run hands out differ from each other and from the controller's. */
  lemma HandedOutApart(hub: Hub, net: IP, a: IP, b: IP)
    requires ValidHub(hub) && LeastUnused(FirstStates(net, a)[2], hub, a, None)
    requires LeastUnused(LaterStates(net, a, b)[0], hub, b, None)
    ensures a != b && a != net && b != net
  {
    assert PeerHolds(FirstStates(net, a)[2], 0, net);
    assert PeerHolds(LaterStates(net, a, b)[0], 0, net) && NodeHolds(LaterStates(net, a, b)[0], 1, a);
  }

  /**
   * On every hub without an IPv6 subnet that has two addresses to hand out there is a run from the controller's first
   * store, with the allocator handing out the first address, the second, and the first again, in which addresses are
   * unique until the last write, a stale write-back, leaves the first with two nodes.
   */
  lemma StaleWriteBackShares(hub: Hub, net: IP, a: IP, b: IP)
    requires ValidHub(hub) && hub.v6.None?
    requires LeastUnused(StaleStates(net, a, b)[2], hub, a, None)
    requires LeastUnused(StaleStates(net, a, b)[5], hub, b, None)
    ensures var states := StaleStates(net, a, b);
      && Execution(states, StaleSteps(a, b)) && LeastUnused(states[7], hub, a, None)
      && Unique(states[9]) && !Unique(states[10])
  {
    var s, first, later := StaleStates(net, a, b), FirstStates(net, a), LaterStates(net, a, b);
    assert s[0] == Bootstrap(net) && s[2] == first[2] && s[5] == later[0] && s[7] == later[2];
    assert s[9] == later[4] && s[10] == later[5];
    HandedOutApart(hub, net, a, b);
    HandedOutAgain(hub, net, a, b);
    BootstrapUnique(net);
    StaleRun(net, a, b);
    BeforeStaleUnique(net, a, b);
    assert NodeHolds(later[5], 1, a) && NodeHolds(later[5], 2, a);
  }
}
