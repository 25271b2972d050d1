/** The overlay address allocator: the first address of a subnet that no record holds. */
module OverlayAllocator {
  import opened Text
  import opened AddressBytes

  /** A parsed address; IPv4-mapped IPv6 addresses are `V4`. */
  datatype IP = V4(b: Bytes) | V6(b: Bytes)

  /** What the allocator reads of a peer and of a node; unparsable or missing addresses are `None`. */
  datatype Peer = Peer(allowed: seq<Option<IP>>)
  datatype Node = Node(ip4: Option<IP>, ip6: Option<IP>)

  function To4(ip: Option<IP>): (bs: set<Bytes>) {
    if ip.Some? && ip.value.V4? then {ip.value.b} else {}
  }

  function To16(ip: Option<IP>): (bs: set<Bytes>) {
    if ip.None? then {}
    else if ip.value.V6? then {ip.value.b}
    else {Zeroes(10) + [255, 255] + ip.value.b}
  }

  function To16Only(ip: Option<IP>): (bs: set<Bytes>) {
    if ip.Some? && ip.value.V6? then {ip.value.b} else {}
  }

  // ---- The addresses in use, as the loops collect them ----

  function All<T>(xs: seq<T>, f: T -> set<Bytes>): (r: set<Bytes>) {
    if xs == [] then {} else All(xs[..|xs| - 1], f) + f(xs[|xs| - 1])
  }

  lemma {:induction false} AllHolds<T>(xs: seq<T>, f: T -> set<Bytes>, b: Bytes)
    ensures b in All(xs, f) <==> exists i :: 0 <= i < |xs| && b in f(xs[i])
    decreases |xs|
  {
    if xs == [] {
    } else {
      var n := |xs| - 1;
      AllHolds(xs[..n], f, b);
      assert (exists i :: 0 <= i < |xs| && b in f(xs[i])) <==>
        (exists i :: 0 <= i < n && b in f(xs[i])) || b in f(xs[n]);
      assert forall i | 0 <= i < n :: xs[..n][i] == xs[i];
    }
  }

  function PeerAddresses4(p: Peer): (r: set<Bytes>) { All(p.allowed, To4) }
  function PeerAddresses6(p: Peer): (r: set<Bytes>) { All(p.allowed, To16Only) }

  function Used4(net: Bytes, prefix: nat, ctrl: Option<IP>, peers: seq<Peer>, nodes: seq<Node>): (used: set<Bytes>) {
    {net, LastAddress(net, prefix)} + To4(ctrl) + All(peers, PeerAddresses4) + All(nodes, (n: Node) => To4(n.ip4))
  }

  function Used6(net: Bytes, ctrl: Option<IP>, peers: seq<Peer>, nodes: seq<Node>): (used: set<Bytes>) {
    {net} + To16(ctrl) + All(peers, PeerAddresses6) + All(nodes, (n: Node) => To16(n.ip6))
  }

  /** The collecting loops over peers, their addresses, and nodes. */
  method Collect<T>(xs: seq<T>, f: T -> set<Bytes>, used0: set<Bytes>) returns (used: set<Bytes>)
    ensures used == used0 + All(xs, f)
  {
    used := used0;
    for i := 0 to |xs|
      invariant used == used0 + All(xs[..i], f)
    {
      assert xs[..i + 1][..i] == xs[..i];
      used := used + f(xs[i]);
    }
    assert xs[..|xs|] == xs;
  }

  // ---- What an allocation promises ----

  /** Every address strictly between `base` and `upto` is in use. */
  ghost predicate Taken(base: nat, upto: nat, width: nat, used: set<Bytes>) {
    forall w | base < w < upto :: BytesOf(w, width) in used
  }

  lemma TakenOneMore(base: nat, upto: nat, width: nat, used: set<Bytes>)
    requires Taken(base, upto, width, used) && BytesOf(upto, width) in used
    ensures Taken(base, upto + 1, width, used)
  {
  }

  /** The least address above the block's first that is not in use, or none when all are in use. */
  ghost predicate LeastFree(r: Option<Bytes>, base: nat, size: nat, width: nat, used: set<Bytes>) {
    match r
    case Some(a) =>
      |a| == width && base < Value(a) < base + size && a !in used && Taken(base, Value(a), width, used)
    case None => Taken(base, base + size, width, used)
  }

  /** The promise fixes the answer. */
  lemma LeastFreeUnique(r: Option<Bytes>, s: Option<Bytes>, base: nat, size: nat, width: nat, used: set<Bytes>)
    requires LeastFree(r, base, size, width, used) && LeastFree(s, base, size, width, used)
    ensures r == s
  {
    if r.Some? { BytesOfValue(r.value); }
    if s.Some? { BytesOfValue(s.value); }
    if r.Some? && s.Some? && Value(r.value) == Value(s.value) { ValueInjective(r.value, s.value); }
  }

  /** A network address starts its block, and the block fits the address width. */
  lemma BlockOf(addr: Bytes, prefix: nat)
    requires prefix <= 8 * |addr|
    ensures var net, size := Masked(addr, prefix), Pow2(8 * |addr| - prefix);
      && |net| == |addr| && Floor(Value(net), size) == Value(net)
      && Value(LastAddress(net, prefix)) == Value(net) + size - 1
      && Value(net) + size <= Span(|addr|)
  {
    var net, size := Masked(addr, prefix), Pow2(8 * |addr| - prefix);
    MaskedIs(addr, prefix);
    FloorIs(Value(addr), size);
    LastAddressIs(net, prefix);
    ValueBound(LastAddress(net, prefix));
  }

  // ---- IPv4 ----

  /** The number of 32-bit addresses, where the increment wraps. */
  const SPAN4: nat := 0x1_0000_0000

  lemma Span4()
    ensures Span(4) == SPAN4 && Pow2(32) == SPAN4
  {
    SpanIs(4);
    assert Span(2) == 0x1_0000;
    assert Span(4) == 256 * (256 * Span(2));
  }

  lemma ShortPrefixIsHalf(prefix: nat)
    requires 0 < prefix <= 32
    ensures 2 * Pow2(32 - prefix) <= SPAN4
  {
    Span4();
    Pow2Monotone(32 - prefix, 31);
    assert Pow2(32) == 2 * Pow2(31);
  }

  /** `incrementIP`: big-endian decode, wrapping increment, encode in place. */
  method IncrementIP(ip: array<Byte>)
    requires ip.Length == 4
    modifies ip
    ensures ip[..] == BytesOf((Value(old(ip[..])) + 1) % 0x1_0000_0000, 4)
  {
    var v := (Value(ip[..]) + 1) % 0x1_0000_0000;
    var bs := BytesOf(v, 4);
    ip[0], ip[1], ip[2], ip[3] := bs[0], bs[1], bs[2], bs[3];
    assert ip[..] == bs;
  }

  /** `broadcastAddr` and `lastIPv6Addr`: OR with the inverted mask in place, byte by byte. */
  method LastAddressInPlace(net: Bytes, prefix: nat) returns (r: Bytes)
    ensures r == LastAddress(net, prefix)
  {
    var ip := new Byte[|net|](i requires 0 <= i < |net| => net[i]);
    for i := 0 to |net|
      invariant forall j | 0 <= j < i :: ip[j] == LastAddress(net, prefix)[j]
      invariant forall j | i <= j < |net| :: ip[j] == net[j]
    {
      MaskedAt(net, prefix, i);
      ip[i] := ByteOr(ip[i], 255 - MaskByte(prefix, i));
    }
    r := ip[..];
  }

  lemma WrapAround(base: nat, size: nat, v: nat, x: nat)
    requires base < v <= base + size <= SPAN4 && x == v % 0x1_0000_0000
    ensures v < base + size ==> x == v
    ensures v == base + size && base <= x < base + size ==> base == 0 && size == SPAN4
  {
  }

  /** Where the scan stands: `v` counts on without wrapping, the buffer wraps. */
  lemma ScanPosition(net: Bytes, prefix: nat, size: nat, v: nat, ip: Bytes)
    requires |net| == 4 && prefix <= 32 && size == Pow2(32 - prefix)
    requires Floor(Value(net), size) == Value(net) && Value(net) < v <= Value(net) + size <= SPAN4
    requires ip == BytesOf(v % 0x1_0000_0000, 4)
    ensures v < Value(net) + size ==> InNetwork(net, prefix, ip) && Value(ip) == v
    ensures v == Value(net) + size && InNetwork(net, prefix, ip) ==> Value(net) == 0 && size == SPAN4
  {
    var x := v % 0x1_0000_0000;
    assert Value(ip) == x by {
      Span4();
      ValueOfBytesOf(x, 4);
    }
    InNetworkIs(net, prefix, ip);
    WrapAround(Value(net), size, v, x);
  }

  /**
   * Allocation in an IPv4 subnet. With prefix 0 the scan wraps around the whole address space, so it ends
   * only if some address is free; every other prefix ends by leaving the subnet.
   */
  method AllocateIPv4(addr: Bytes, prefix: nat, ctrl: Option<IP>, peers: seq<Peer>, nodes: seq<Node>)
    returns (r: Option<Bytes>)
    requires |addr| == 4 && prefix <= 32
    requires prefix == 0 ==>
      exists w :: 0 < w < SPAN4 && BytesOf(w, 4) !in Used4(Masked(addr, prefix), prefix, ctrl, peers, nodes)
    ensures var net := Masked(addr, prefix);
      LeastFree(r, Value(net), Pow2(32 - prefix), 4, Used4(net, prefix, ctrl, peers, nodes))
  {
    var net := Masked(addr, prefix);
    BlockOf(addr, prefix);
    Span4();
    var broadcast := LastAddressInPlace(net, prefix);
    var used := Collect(peers, PeerAddresses4, {net, broadcast} + To4(ctrl));
    used := Collect(nodes, (n: Node) => To4(n.ip4), used);
    assert used == Used4(net, prefix, ctrl, peers, nodes);
    r := ScanIPv4(net, prefix, used);
  }

  /** The scan of a subnet stands at number `v`, with everything below it in use. */
  ghost predicate Scanning(net: Bytes, prefix: nat, v: nat, ip: Bytes, used: set<Bytes>) {
    && |net| == 4 && prefix <= 32
    && var base, size := Value(net), Pow2(32 - prefix);
       && Floor(base, size) == base && base < v <= base + size <= SPAN4
       && ip == BytesOf(v % 0x1_0000_0000, 4) && Taken(base, v, 4, used)
       && (prefix == 0 ==> exists w :: 0 < w < SPAN4 && BytesOf(w, 4) !in used)
  }

  /** While the buffer is in the subnet it holds `v`, which is still below the end. */
  lemma ScanInside(net: Bytes, prefix: nat, v: nat, ip: Bytes, used: set<Bytes>)
    requires Scanning(net, prefix, v, ip, used) && InNetwork(net, prefix, ip)
    ensures v < Value(net) + Pow2(32 - prefix) && Value(ip) == v && ip == BytesOf(v, 4)
  {
    ScanPosition(net, prefix, Pow2(32 - prefix), v, ip);
    if prefix > 0 { ShortPrefixIsHalf(prefix); }
    BytesOfValue(ip);
  }

  lemma ScanOn(net: Bytes, prefix: nat, v: nat, ip: Bytes, used: set<Bytes>)
    requires Scanning(net, prefix, v, ip, used) && v < Value(net) + Pow2(32 - prefix) && BytesOf(v, 4) in used
    ensures Scanning(net, prefix, v + 1, BytesOf((v + 1) % 0x1_0000_0000, 4), used)
  {
    TakenOneMore(Value(net), v, 4, used);
  }

  lemma ScanEnds(net: Bytes, prefix: nat, v: nat, ip: Bytes, used: set<Bytes>)
    requires Scanning(net, prefix, v, ip, used) && !InNetwork(net, prefix, ip)
    ensures v == Value(net) + Pow2(32 - prefix)
  {
    ScanPosition(net, prefix, Pow2(32 - prefix), v, ip);
  }

  method ScanIPv4(net: Bytes, prefix: nat, used: set<Bytes>) returns (r: Option<Bytes>)
    requires |net| == 4 && prefix <= 32
    requires Floor(Value(net), Pow2(32 - prefix)) == Value(net) && Value(net) + Pow2(32 - prefix) <= SPAN4
    requires prefix == 0 ==> exists w :: 0 < w < SPAN4 && BytesOf(w, 4) !in used
    ensures LeastFree(r, Value(net), Pow2(32 - prefix), 4, used)
  {
    var ip := new Byte[4](i requires 0 <= i < 4 => net[i]);
    assert ip[..] == net;
    IncrementIP(ip);
    ghost var v := Value(net) + 1;
    while InNetwork(net, prefix, ip[..])
      invariant Scanning(net, prefix, v, ip[..], used)
      decreases Value(net) + Pow2(32 - prefix) - v
    {
      ScanInside(net, prefix, v, ip[..], used);
      if ip[..] !in used {
        return Some(ip[..]);
      }
      ScanOn(net, prefix, v, ip[..], used);
      IncrementIP(ip);
      v := v + 1;
    }
    ScanEnds(net, prefix, v, ip[..], used);
    r := None;
  }

  // ---- IPv6 ----

  method AllocateIPv6(addr: Bytes, prefix: nat, ctrl: Option<IP>, peers: seq<Peer>, nodes: seq<Node>)
    returns (r: Option<Bytes>)
    requires |addr| == 16 && prefix <= 128
    ensures var net := Masked(addr, prefix);
      LeastFree(r, Value(net), Pow2(8 * |addr| - prefix), 16, Used6(net, ctrl, peers, nodes))
  {
    var net := Masked(addr, prefix);
    var used := Collect(peers, PeerAddresses6, {net} + To16(ctrl));
    used := Collect(nodes, (n: Node) => To16(n.ip6), used);
    var lastIP := LastAddressInPlace(net, prefix);
    BlockOf(addr, prefix);
    r := ScanIPv6(Value(net), Value(lastIP), used);
  }

  lemma Candidate(current: nat)
    requires current < Span(16)
    ensures |MinimalBytes(current)| <= 16
    ensures Zeroes(16 - |MinimalBytes(current)|) + MinimalBytes(current) == BytesOf(current, 16)
    ensures |BytesOf(current, 16)| == 16 && Value(BytesOf(current, 16)) == current
  {
    PaddedIsBytesOf(current, 16);
    ValueOfBytesOf(current, 16);
  }

  /** The scan over big integers; each candidate is padded to 16 bytes. */
  method ScanIPv6(base: nat, last: nat, used: set<Bytes>) returns (r: Option<Bytes>)
    requires base <= last < Span(16)
    ensures LeastFree(r, base, last + 1 - base, 16, used)
  {
    var current := base + 1;
    while current <= last
      invariant base < current <= last + 1
      invariant Taken(base, current, 16, used)
    {
      Candidate(current);
      var b := MinimalBytes(current);
      var ip := Zeroes(16 - |b|) + b;
      if ip !in used {
        return Some(ip);
      }
      TakenOneMore(base, current, 16, used);
      current := current + 1;
    }
    r := None;
  }
}
