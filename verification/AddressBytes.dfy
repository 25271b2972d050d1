/** Address arithmetic on big-endian bytes: bitwise operations, CIDR masks and conversion to numbers. */
module AddressBytes {
  import opened Text

  function Pow2(n: nat): (r: nat)
    ensures r > 0
  {
    if n == 0 then 1 else 2 * Pow2(n - 1)
  }

  lemma {:induction false} Pow2Adds(m: nat, n: nat)
    ensures Pow2(m + n) == Pow2(m) * Pow2(n)
    decreases m
  {
    if m == 0 {
    } else {
      Pow2Adds(m - 1, n);
      assert Pow2(m + n) == 2 * (Pow2(m - 1) * Pow2(n));
    }
  }

  lemma {:induction false} Pow2Monotone(m: nat, n: nat)
    requires m <= n
    ensures Pow2(m) <= Pow2(n)
    decreases n
  {
    if m < n { Pow2Monotone(m, n - 1); }
  }

  lemma Pow2Of8()
    ensures Pow2(8) == 256
  {
    assert Pow2(4) == 16;
    Pow2Adds(4, 4);
  }

  /** Rounding down to a multiple of `m`. */
  function Floor(v: nat, m: nat): (r: nat)
    requires m > 0
  {
    if v < m then 0 else m + Floor(v - m, m)
  }

  /** The floor is a multiple of `m`, and the only one within `m` below `v`. */
  lemma {:induction false} FloorIs(v: nat, m: nat)
    requires m > 0
    ensures Floor(v, m) <= v < Floor(v, m) + m
    ensures Floor(Floor(v, m), m) == Floor(v, m)
    decreases v
  {
    if v >= m { FloorIs(v - m, m); }
  }

  lemma {:induction false} FloorUnique(base: nat, v: nat, m: nat)
    requires m > 0 && Floor(base, m) == base
    ensures Floor(v, m) == base <==> base <= v < base + m
    decreases base
  {
    FloorIs(v, m);
    if base >= m && v >= m { FloorUnique(base - m, v - m, m); }
  }

  /** Rounding down commutes with appending a low bit that is rounded away. */
  lemma {:induction false} AppendBit(q: nat, m: nat, r: nat)
    requires m > 0 && r < 2
    ensures Floor(2 * q + r, 2 * m) == 2 * Floor(q, m)
    decreases q
  {
    if q >= m { AppendBit(q - m, m, r); }
  }

  /** Rounding down commutes with appending a low byte that is rounded away. */
  lemma {:induction false} AppendByte(q: nat, m: nat, r: Byte)
    requires m > 0
    ensures Floor(256 * q + r, 256 * m) == 256 * Floor(q, m)
    decreases q
  {
    if q >= m { AppendByte(q - m, m, r); }
  }

  lemma {:induction false} AddMultiple(base: nat, v: nat, m: nat)
    requires m > 0 && Floor(base, m) == base
    ensures Floor(base + v, m) == base + Floor(v, m)
    decreases base
  {
    if base >= m { AddMultiple(base - m, v, m); }
  }

  lemma {:induction false} MultipleIsFloor(k: nat, m: nat)
    requires m > 0
    ensures Floor(k * m, m) == k * m
  {
    if k == 0 {
    } else {
      assert k * m == (k - 1) * m + m;
      MultipleIsFloor(k - 1, m);
    }
  }

  // ---- Bitwise operations, one bit at a time ----

  function BitOr(a: nat, b: nat, bits: nat): (r: nat) {
    if bits == 0 then 0
    else 2 * BitOr(a / 2, b / 2, bits - 1) + if a % 2 == 1 || b % 2 == 1 then 1 else 0
  }

  function BitAnd(a: nat, b: nat, bits: nat): (r: nat) {
    if bits == 0 then 0
    else 2 * BitAnd(a / 2, b / 2, bits - 1) + if a % 2 == 1 && b % 2 == 1 then 1 else 0
  }

  lemma {:induction false} BitOrZero(a: nat, bits: nat)
    requires a < Pow2(bits)
    ensures BitOr(a, 0, bits) == a
    decreases bits
  {
    if bits == 0 {
    } else {
      BitOrZero(a / 2, bits - 1);
    }
  }

  lemma {:induction false} BitAndOnes(a: nat, bits: nat)
    requires a < Pow2(bits)
    ensures BitAnd(a, Pow2(bits) - 1, bits) == a
    decreases bits
  {
    if bits == 0 {
    } else {
      assert (Pow2(bits) - 1) / 2 == Pow2(bits - 1) - 1;
      BitAndOnes(a / 2, bits - 1);
    }
  }

  /** OR with `h` low ones raises the number to the top of its block of `2^h`. */
  lemma {:induction false} BitOrLowOnes(a: nat, h: nat, bits: nat)
    requires h <= bits && a < Pow2(bits)
    ensures BitOr(a, Pow2(h) - 1, bits) == Floor(a, Pow2(h)) + Pow2(h) - 1
    decreases bits
  {
    if h == 0 {
      MultipleIsFloor(a, 1);
      BitOrZero(a, bits);
    } else {
      LowOnesHalf(h);
      BitOrLowOnes(a / 2, h - 1, bits - 1);
      AppendBit(a / 2, Pow2(h - 1), a % 2);
    }
  }

  lemma HighOnesHalf(h: nat, bits: nat)
    requires 0 < h <= bits
    ensures Pow2(h - 1) <= Pow2(bits - 1) && (Pow2(bits) - Pow2(h)) / 2 == Pow2(bits - 1) - Pow2(h - 1)
    ensures (Pow2(bits) - Pow2(h)) % 2 == 0
  {
    Pow2Monotone(h - 1, bits - 1);
  }

  lemma LowOnesHalf(h: nat)
    requires 0 < h
    ensures (Pow2(h) - 1) / 2 == Pow2(h - 1) - 1 && (Pow2(h) - 1) % 2 == 1
  {
  }

  /** AND with ones above `h` low zeroes rounds the number down to a multiple of `2^h`. */
  lemma {:induction false} BitAndHighOnes(a: nat, h: nat, bits: nat)
    requires h <= bits && a < Pow2(bits)
    ensures Pow2(h) <= Pow2(bits) && BitAnd(a, Pow2(bits) - Pow2(h), bits) == Floor(a, Pow2(h))
    decreases bits
  {
    Pow2Monotone(h, bits);
    if h == 0 {
      MultipleIsFloor(a, 1);
      BitAndOnes(a, bits);
    } else {
      HighOnesHalf(h, bits);
      BitAndHighOnes(a / 2, h - 1, bits - 1);
      AppendBit(a / 2, Pow2(h - 1), a % 2);
    }
  }

  // ---- Big-endian bytes ----

  function Value(bs: Bytes): (v: nat) {
    if bs == [] then 0 else 256 * Value(bs[..|bs| - 1]) + bs[|bs| - 1]
  }

  function BytesOf(v: nat, n: nat): (bs: Bytes)
    ensures |bs| == n
  {
    if n == 0 then [] else BytesOf(v / 256, n - 1) + [v % 256]
  }

  /** How many addresses `n` bytes can write. */
  function Span(n: nat): (r: nat)
    ensures r > 0
  {
    if n == 0 then 1 else 256 * Span(n - 1)
  }

  lemma {:induction false} SpanIs(n: nat)
    ensures Span(n) == Pow2(8 * n)
  {
    if n == 0 {
    } else {
      SpanIs(n - 1);
      Pow2Of8();
      Pow2Adds(8, 8 * (n - 1));
      assert 8 + 8 * (n - 1) == 8 * n;
    }
  }

  lemma {:induction false} ValueBound(bs: Bytes)
    ensures Value(bs) < Span(|bs|)
  {
    if bs == [] {
    } else {
      ValueBound(bs[..|bs| - 1]);
    }
  }

  lemma {:induction false} ValueOfBytesOf(v: nat, n: nat)
    requires v < Span(n)
    ensures Value(BytesOf(v, n)) == v
    decreases n
  {
    if n == 0 {
    } else {
      ValueOfBytesOf(v / 256, n - 1);
      var bs := BytesOf(v, n);
      assert bs[..n - 1] == BytesOf(v / 256, n - 1);
    }
  }

  lemma {:induction false} BytesOfValue(bs: Bytes)
    ensures BytesOf(Value(bs), |bs|) == bs
    decreases |bs|
  {
    if bs == [] {
    } else {
      var front := bs[..|bs| - 1];
      BytesOfValue(front);
      assert (256 * Value(front) + bs[|bs| - 1]) / 256 == Value(front);
      assert bs == front + [bs[|bs| - 1]];
    }
  }

  lemma ValueInjective(a: Bytes, b: Bytes)
    requires |a| == |b| && Value(a) == Value(b)
    ensures a == b
  {
    BytesOfValue(a);
    BytesOfValue(b);
  }

  /** `big.Int.Bytes`: no leading zero bytes. */
  function MinimalBytes(v: nat): (bs: Bytes) {
    if v == 0 then [] else MinimalBytes(v / 256) + [v % 256]
  }

  lemma {:induction false} MinimalFits(v: nat, n: nat)
    requires v < Span(n)
    ensures |MinimalBytes(v)| <= n
    decreases n
  {
    if n > 0 && v > 0 { MinimalFits(v / 256, n - 1); }
  }

  function Zeroes(n: nat): (bs: Bytes)
    ensures |bs| == n
  {
    seq(n, i => 0)
  }

  /** Copying the minimal bytes to the end of an `n`-byte buffer writes the number in full width. */
  lemma {:induction false} PaddedIsBytesOf(v: nat, n: nat)
    requires v < Span(n)
    ensures |MinimalBytes(v)| <= n
    ensures Zeroes(n - |MinimalBytes(v)|) + MinimalBytes(v) == BytesOf(v, n)
    decreases n
  {
    MinimalFits(v, n);
    if v == 0 {
      ZeroBytes(n);
    } else {
      PaddedIsBytesOf(v / 256, n - 1);
      var m := MinimalBytes(v / 256);
      assert Zeroes(n - |MinimalBytes(v)|) + MinimalBytes(v) == (Zeroes(n - 1 - |m|) + m) + [v % 256];
    }
  }

  lemma {:induction false} ZeroBytes(n: nat)
    ensures BytesOf(0, n) == Zeroes(n)
  {
    if n == 0 {
    } else {
      ZeroBytes(n - 1);
    }
  }

  // ---- CIDR masks ----

  /** Byte `i` of the mask with `prefix` leading ones. */
  function MaskByte(prefix: nat, i: nat): (b: Byte)
  {
    if prefix >= 8 * (i + 1) then 255
    else if prefix <= 8 * i then 0
    else
      Pow2Monotone(8 * (i + 1) - prefix, 8);
      Pow2Of8();
      256 - Pow2(8 * (i + 1) - prefix)
  }

  function ByteOr(a: Byte, b: Byte): (r: Byte) {
    BitOrBound(a, b, 8);
    Pow2Of8();
    BitOr(a, b, 8)
  }

  function ByteAnd(a: Byte, b: Byte): (r: Byte) {
    BitAndBound(a, b, 8);
    Pow2Of8();
    BitAnd(a, b, 8)
  }

  lemma {:induction false} BitOrBound(a: nat, b: nat, bits: nat)
    ensures BitOr(a, b, bits) < Pow2(bits)
  {
    if bits == 0 {
    } else {
      BitOrBound(a / 2, b / 2, bits - 1);
    }
  }

  lemma {:induction false} BitAndBound(a: nat, b: nat, bits: nat)
    ensures BitAnd(a, b, bits) < Pow2(bits)
  {
    if bits == 0 {
    } else {
      BitAndBound(a / 2, b / 2, bits - 1);
    }
  }

  /** The mask byte the prefix ends in, as ones above `h` low zeroes. */
  lemma SplitMaskByte(prefix: nat, n: nat, a: Byte)
    requires 0 < n && 8 * (n - 1) < prefix <= 8 * n
    ensures var h := 8 * n - prefix;
      && ByteOr(a, 255 - MaskByte(prefix, n - 1)) == Floor(a, Pow2(h)) + Pow2(h) - 1
      && ByteAnd(a, MaskByte(prefix, n - 1)) == Floor(a, Pow2(h))
  {
    Pow2Of8();
    var h := 8 * n - prefix;
    BitOrLowOnes(a, h, 8);
    BitAndHighOnes(a, h, 8);
  }

  /** A mask byte beyond the prefix. */
  lemma ZeroMaskByte(prefix: nat, n: nat, a: Byte)
    requires 0 < n && prefix <= 8 * (n - 1)
    ensures ByteOr(a, 255 - MaskByte(prefix, n - 1)) == 255 && ByteAnd(a, MaskByte(prefix, n - 1)) == 0
  {
    Pow2Of8();
    BitOrLowOnes(a, 8, 8);
    BitAndHighOnes(a, 8, 8);
  }

  /** `ip & mask`, byte by byte. */
  function Masked(ip: Bytes, prefix: nat): (r: Bytes)
    ensures |r| == |ip|
  {
    if ip == [] then []
    else Masked(ip[..|ip| - 1], prefix) + [ByteAnd(ip[|ip| - 1], MaskByte(prefix, |ip| - 1))]
  }

  /** `ip | ^mask`, byte by byte: the last address of the block. */
  function LastAddress(ip: Bytes, prefix: nat): (r: Bytes)
    ensures |r| == |ip|
  {
    if ip == [] then []
    else LastAddress(ip[..|ip| - 1], prefix) + [ByteOr(ip[|ip| - 1], 255 - MaskByte(prefix, |ip| - 1))]
  }

  lemma {:induction false} MaskedAt(ip: Bytes, prefix: nat, i: nat)
    requires i < |ip|
    ensures Masked(ip, prefix)[i] == ByteAnd(ip[i], MaskByte(prefix, i))
    ensures LastAddress(ip, prefix)[i] == ByteOr(ip[i], 255 - MaskByte(prefix, i))
    decreases |ip|
  {
    if i < |ip| - 1 { MaskedAt(ip[..|ip| - 1], prefix, i); }
  }

  /** `IPNet.Contains`. */
  predicate InNetwork(net: Bytes, prefix: nat, ip: Bytes)
    requires |net| == |ip|
  {
    if ip == [] then true
    else
      var n := |ip| - 1;
      && InNetwork(net[..n], prefix, ip[..n])
      && ByteAnd(net[n], MaskByte(prefix, n)) == ByteAnd(ip[n], MaskByte(prefix, n))
  }

  lemma ByteUnderOnes(a: Byte)
    ensures ByteAnd(a, 255) == a && ByteOr(a, 0) == a
  {
    Pow2Of8();
    BitAndOnes(a, 8);
    BitOrZero(a, 8);
  }

  /** With every bit of `ip` under the mask, masking changes nothing. */
  lemma {:induction false} FullMask(ip: Bytes, prefix: nat)
    requires prefix >= 8 * |ip|
    ensures Masked(ip, prefix) == ip && LastAddress(ip, prefix) == ip
    decreases |ip|
  {
    if ip == [] {
    } else {
      FullMask(ip[..|ip| - 1], prefix);
      ByteUnderOnes(ip[|ip| - 1]);
      assert ip == ip[..|ip| - 1] + [ip[|ip| - 1]];
    }
  }

  lemma ValueAppend(front: Bytes, last: Byte)
    ensures Value(front + [last]) == 256 * Value(front) + last
  {
    assert (front + [last])[..|front|] == front;
  }

  // One more byte, either the one the mask ends in or one that it leaves out whole.

  lemma MaskedInside(ip: Bytes, prefix: nat)
    requires ip != [] && 8 * (|ip| - 1) < prefix <= 8 * |ip|
    ensures var front := ip[..|ip| - 1];
      Value(Masked(ip, prefix)) - 256 * Value(Masked(front, prefix)) ==
      Floor(Value(ip), Pow2(8 * |ip| - prefix)) - 256 * Value(front)
  {
    var n := |ip| - 1;
    ValueAppend(Masked(ip[..n], prefix), ByteAnd(ip[n], MaskByte(prefix, n)));
    SplitMaskByte(prefix, n + 1, ip[n]);
    LowFloor(Value(ip[..n]), ip[n], 8 * |ip| - prefix);
  }

  lemma MaskedBeyond(ip: Bytes, prefix: nat)
    requires ip != [] && prefix <= 8 * (|ip| - 1)
    ensures Value(Masked(ip, prefix)) == 256 * Value(Masked(ip[..|ip| - 1], prefix))
  {
    var n := |ip| - 1;
    ValueAppend(Masked(ip[..n], prefix), ByteAnd(ip[n], MaskByte(prefix, n)));
    ZeroMaskByte(prefix, n + 1, ip[n]);
  }

  lemma LastAddressInside(ip: Bytes, prefix: nat)
    requires ip != [] && 8 * (|ip| - 1) < prefix <= 8 * |ip|
    ensures var front, size := ip[..|ip| - 1], Pow2(8 * |ip| - prefix);
      Value(LastAddress(ip, prefix)) - 256 * Value(LastAddress(front, prefix)) ==
      Floor(Value(ip), size) + size - 1 - 256 * Value(front)
  {
    var n := |ip| - 1;
    ValueAppend(LastAddress(ip[..n], prefix), ByteOr(ip[n], 255 - MaskByte(prefix, n)));
    SplitMaskByte(prefix, n + 1, ip[n]);
    LowFloor(Value(ip[..n]), ip[n], 8 * |ip| - prefix);
  }

  lemma LastAddressBeyond(ip: Bytes, prefix: nat)
    requires ip != [] && prefix <= 8 * (|ip| - 1)
    ensures Value(LastAddress(ip, prefix)) == 256 * Value(LastAddress(ip[..|ip| - 1], prefix)) + 255
  {
    var n := |ip| - 1;
    ValueAppend(LastAddress(ip[..n], prefix), ByteOr(ip[n], 255 - MaskByte(prefix, n)));
    ZeroMaskByte(prefix, n + 1, ip[n]);
  }

  lemma FloorBeyond(ip: Bytes, prefix: nat)
    requires ip != [] && prefix <= 8 * (|ip| - 1)
    ensures var front, inner := ip[..|ip| - 1], Pow2(8 * (|ip| - 1) - prefix);
      Pow2(8 * |ip| - prefix) == 256 * inner && Floor(Value(ip), 256 * inner) == 256 * Floor(Value(front), inner)
  {
    BlockFloor(Value(ip[..|ip| - 1]), ip[|ip| - 1], 8 * (|ip| - 1) - prefix);
  }

  /** Byte-wise masking rounds the address down to a multiple of the block size. */
  lemma {:induction false} MaskedIs(ip: Bytes, prefix: nat)
    requires prefix <= 8 * |ip|
    ensures Value(Masked(ip, prefix)) == Floor(Value(ip), Pow2(8 * |ip| - prefix))
    decreases |ip|
  {
    if ip == [] {
    } else if prefix > 8 * (|ip| - 1) {
      MaskedInside(ip, prefix);
      FullMask(ip[..|ip| - 1], prefix);
    } else {
      MaskedBeyond(ip, prefix);
      FloorBeyond(ip, prefix);
      MaskedIs(ip[..|ip| - 1], prefix);
    }
  }

  /** Byte-wise OR with the inverted mask gives the last address of the block. */
  lemma {:induction false} LastAddressIs(ip: Bytes, prefix: nat)
    requires prefix <= 8 * |ip|
    ensures Value(LastAddress(ip, prefix))
         == Floor(Value(ip), Pow2(8 * |ip| - prefix)) + Pow2(8 * |ip| - prefix) - 1
    decreases |ip|
  {
    if ip == [] {
    } else if prefix > 8 * (|ip| - 1) {
      LastAddressInside(ip, prefix);
      FullMask(ip[..|ip| - 1], prefix);
    } else {
      LastAddressBeyond(ip, prefix);
      FloorBeyond(ip, prefix);
      LastAddressIs(ip[..|ip| - 1], prefix);
    }
  }

  lemma Associates(a: nat, b: nat, c: nat)
    ensures a * (b * c) == (a * b) * c
  {
  }

  lemma WholeBytesAreBlocks(front: nat, h: nat)
    requires h < 8
    ensures Floor(256 * front, Pow2(h)) == 256 * front
  {
    Pow2Of8();
    Pow2Adds(8 - h, h);
    Associates(front, Pow2(8 - h), Pow2(h));
    MultipleIsFloor(front * Pow2(8 - h), Pow2(h));
  }

  /** A block inside the last byte leaves the other bytes alone. */
  lemma LowFloor(front: nat, last: Byte, h: nat)
    requires h < 8
    ensures Floor(256 * front + last, Pow2(h)) == 256 * front + Floor(last, Pow2(h))
  {
    WholeBytesAreBlocks(front, h);
    AddMultiple(256 * front, last, Pow2(h));
  }

  /** A block of whole last bytes is rounded on the other bytes. */
  lemma BlockFloor(front: nat, last: Byte, h: nat)
    ensures Pow2(h + 8) == 256 * Pow2(h)
    ensures Floor(256 * front + last, Pow2(h + 8)) == 256 * Floor(front, Pow2(h))
  {
    Pow2Of8();
    Pow2Adds(8, h);
    AppendByte(front, Pow2(h), last);
  }

  lemma {:induction false} NetworkMasked(net: Bytes, prefix: nat, ip: Bytes)
    requires |net| == |ip|
    ensures InNetwork(net, prefix, ip) <==> Masked(net, prefix) == Masked(ip, prefix)
    decreases |ip|
  {
    if ip == [] {
    } else {
      var n := |ip| - 1;
      NetworkMasked(net[..n], prefix, ip[..n]);
      var a, b := Masked(net, prefix), Masked(ip, prefix);
      assert a[..n] == Masked(net[..n], prefix) && b[..n] == Masked(ip[..n], prefix);
      assert a == a[..n] + [a[n]] && b == b[..n] + [b[n]];
    }
  }

  /** Membership in a network is membership in the interval of its block. */
  lemma InNetworkIs(net: Bytes, prefix: nat, ip: Bytes)
    requires |net| == |ip| && prefix <= 8 * |ip|
    requires Floor(Value(net), Pow2(8 * |ip| - prefix)) == Value(net)
    ensures InNetwork(net, prefix, ip) <==> Value(net) <= Value(ip) < Value(net) + Pow2(8 * |ip| - prefix)
  {
    NetworkMasked(net, prefix, ip);
    MaskedIs(net, prefix);
    MaskedIs(ip, prefix);
    if Value(Masked(net, prefix)) == Value(Masked(ip, prefix)) {
      ValueInjective(Masked(net, prefix), Masked(ip, prefix));
    }
    FloorUnique(Value(net), Value(ip), Pow2(8 * |ip| - prefix));
  }
}
