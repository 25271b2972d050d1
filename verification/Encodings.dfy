/** The text encodings a session token is made of: decimal integers, UUIDs and unpadded URL-safe base64. */
module Encodings {
  import opened Text

  // ---- Decimal integers ----

  const MINUS: Byte := 45
  const PLUS: Byte := 43
  const ZERO: Byte := 48

  function Digits(n: nat): (s: Bytes)
    ensures |s| > 0
  {
    if n < 10 then [ZERO + n] else Digits(n / 10) + [ZERO + n % 10]
  }

  /** `%d` printing. */
  function PrintInt(n: int): (s: Bytes) {
    if n < 0 then [MINUS] + Digits(-n) else Digits(n)
  }

  predicate IsDigit(b: Byte) {
    48 <= b <= 57
  }

  /** How many digits `s` starts with. */
  function DigitRun(s: Bytes): (n: nat)
    ensures n <= |s|
    ensures forall i | 0 <= i < n :: IsDigit(s[i])
    ensures n < |s| ==> !IsDigit(s[n])
  {
    if s == [] || !IsDigit(s[0]) then 0 else 1 + DigitRun(s[1..])
  }

  function Number(s: Bytes): (n: int) {
    if s == [] then 0 else 10 * Number(s[..|s| - 1]) + (s[|s| - 1] as int - 48)
  }

  predicate IsInt64(n: int) {
    -0x8000_0000_0000_0000 <= n < 0x8000_0000_0000_0000
  }

  /** Blanks other than a line break. */
  predicate IsBlank(b: Byte) {
    b == 32 || b == 9 || b == 11 || b == 12 || b == 13
  }

  /** Skips leading blanks; a line break among them is an error. */
  function SkipBlanks(s: Bytes): (r: Option<Bytes>) {
    if s == [] then Some([])
    else if s[0] == 10 || (s[0] == 13 && |s| > 1 && s[1] == 10) then None
    else if IsBlank(s[0]) then SkipBlanks(s[1..])
    else Some(s)
  }

  /** `%d` scanning into a 64-bit integer: blanks, an optional sign, digits; what follows is ignored. */
  function ScanInt(s: Bytes): (r: Option<int>) {
    var t := SkipBlanks(s);
    if t.None? || t.value == [] then None
    else
      var signed := t.value[0] == MINUS || t.value[0] == PLUS;
      var u := if signed then t.value[1..] else t.value;
      var n := DigitRun(u);
      var value := if t.value[0] == MINUS then -Number(u[..n]) else Number(u[..n]);
      if n == 0 || !IsInt64(value) then None else Some(value)
  }

  lemma {:induction false} DigitsAreDigits(n: nat)
    ensures forall i | 0 <= i < |Digits(n)| :: IsDigit(Digits(n)[i])
  {
    if n >= 10 {
      DigitsAreDigits(n / 10);
    }
  }

  lemma {:induction false} NumberOfDigits(n: nat)
    ensures Number(Digits(n)) == n
  {
    if n >= 10 {
      NumberOfDigits(n / 10);
      assert Digits(n)[..|Digits(n)| - 1] == Digits(n / 10);
    } else {
      assert Digits(n)[..0] == [];
    }
  }

  lemma {:induction false} AllDigitsRun(s: Bytes)
    requires forall i | 0 <= i < |s| :: IsDigit(s[i])
    ensures DigitRun(s) == |s|
  {
    if s == [] {
    } else {
      AllDigitsRun(s[1..]);
    }
  }

  /** Printing and scanning a 64-bit integer round-trips. */
  lemma ScanPrint(n: int)
    requires IsInt64(n)
    ensures ScanInt(PrintInt(n)) == Some(n)
  {
    var m := if n < 0 then -n else n;
    DigitsAreDigits(m);
    NumberOfDigits(m);
    AllDigitsRun(Digits(m));
    var s := PrintInt(n);
    assert SkipBlanks(s) == Some(s);
    assert n < 0 ==> s[1..] == Digits(m);
    assert Digits(m)[..|Digits(m)|] == Digits(m);
  }

  /** Decimal notation: a further digit stands for ten times the number and the digit. */
  lemma DecimalNotation(n: nat, d: nat)
    requires d < 10 && n > 0
    ensures PrintInt(d) == [48 + d] && PrintInt(-(n as int)) == [45] + PrintInt(n)
    ensures PrintInt(10 * n + d) == PrintInt(n) + [48 + d]
  {
    var m := 10 * n + d;
    assert m / 10 == n && m % 10 == d;
    assert Digits(m) == Digits(m / 10) + [ZERO + m % 10];
  }

  /** A printed integer holds only digits and a minus sign. */
  lemma PrintedBytes(n: int, b: Byte)
    requires b in PrintInt(n)
    ensures b == MINUS || IsDigit(b)
  {
    DigitsAreDigits(if n < 0 then -n else n);
  }

  // ---- UUIDs ----

  type Uuid = u: Bytes | |u| == 16 witness seq(16, i => 0)

  const DASH: Byte := 45

  function HexDigit(v: nat): (b: Byte)
    requires v < 16
  {
    if v < 10 then 48 + v else 87 + v
  }

  function HexValue(b: Byte): (v: Option<nat>)
    ensures v.Some? ==> v.value < 16
  {
    if 48 <= b <= 57 then Some(b - 48)
    else if 97 <= b <= 102 then Some(b - 87)
    else if 65 <= b <= 70 then Some(b - 55)
    else None
  }

  function Hex(s: Bytes): (h: Bytes)
    ensures |h| == 2 * |s|
  {
    if s == [] then [] else [HexDigit(s[0] / 16), HexDigit(s[0] % 16)] + Hex(s[1..])
  }

  function Unhex(h: Bytes): (s: Option<Bytes>)
    ensures s.Some? ==> |h| == 2 * |s.value|
  {
    if h == [] then Some([])
    else if |h| == 1 then None
    else
      var a, b, rest := HexValue(h[0]), HexValue(h[1]), Unhex(h[2..]);
      if a.None? || b.None? || rest.None? then None else Some([16 * a.value + b.value] + rest.value)
  }

  function UuidString(u: Uuid): (s: Bytes)
    ensures |s| == 36
  {
    var h := Hex(u);
    h[..8] + [DASH] + h[8..12] + [DASH] + h[12..16] + [DASH] + h[16..20] + [DASH] + h[20..]
  }

  /** The 36-character form, or a longer text starting with it. */
  function ParseDashed(s: Bytes): (u: Option<Uuid>)
    requires |s| >= 36
  {
    if s[8] != DASH || s[13] != DASH || s[18] != DASH || s[23] != DASH then None
    else Unhex(s[..8] + s[9..13] + s[14..18] + s[19..23] + s[24..36])
  }

  function LowerByte(b: Byte): (r: Byte) {
    if 65 <= b <= 90 then b + 32 else b
  }

  /** `urn:uuid:` in any letter case. */
  predicate IsUrnPrefix(s: Bytes) {
    && |s| == 9
    && LowerByte(s[0]) == 117 && LowerByte(s[1]) == 114 && LowerByte(s[2]) == 110 && s[3] == 58
    && LowerByte(s[4]) == 117 && LowerByte(s[5]) == 117 && LowerByte(s[6]) == 105 && LowerByte(s[7]) == 100
    && s[8] == 58
  }

  /** The dashed form, that form in braces or after `urn:uuid:`, or 32 bare digits. */
  function ParseUuid(s: Bytes): (u: Option<Uuid>) {
    if |s| == 36 then ParseDashed(s)
    else if |s| == 45 then (if IsUrnPrefix(s[..9]) then ParseDashed(s[9..]) else None)
    else if |s| == 38 then ParseDashed(s[1..])
    else if |s| == 32 then Unhex(s)
    else None
  }

  lemma {:induction false} UnhexHex(s: Bytes)
    ensures Unhex(Hex(s)) == Some(s)
    decreases |s|
  {
    if s == [] {
    } else {
      UnhexHex(s[1..]);
      assert Hex(s)[2..] == Hex(s[1..]);
      assert s == [s[0]] + s[1..];
    }
  }

  lemma DashesOut(h: Bytes)
    requires |h| == 32
    ensures var s := h[..8] + [DASH] + h[8..12] + [DASH] + h[12..16] + [DASH] + h[16..20] + [DASH] + h[20..];
      && s[8] == DASH && s[13] == DASH && s[18] == DASH && s[23] == DASH
      && s[..8] + s[9..13] + s[14..18] + s[19..23] + s[24..36] == h
  {
    var s := h[..8] + [DASH] + h[8..12] + [DASH] + h[12..16] + [DASH] + h[16..20] + [DASH] + h[20..];
    assert s[..8] == h[..8] && s[9..13] == h[8..12] && s[14..18] == h[12..16];
    assert s[19..23] == h[16..20] && s[24..36] == h[20..];
  }

  lemma ParseUuidString(u: Uuid)
    ensures ParseUuid(UuidString(u)) == Some(u)
  {
    DashesOut(Hex(u));
    UnhexHex(u);
  }

  lemma {:induction false} HexBytes(s: Bytes, b: Byte)
    requires b in Hex(s)
    ensures IsDigit(b) || 97 <= b <= 102
    decreases |s|
  {
    if b in Hex(s[1..]) {
      HexBytes(s[1..], b);
    }
  }

  lemma UuidBytes(u: Uuid, b: Byte)
    requires b in UuidString(u)
    ensures b == DASH || IsDigit(b) || 97 <= b <= 102
  {
    if b != DASH {
      HexBytes(u, b);
    }
  }

  // ---- Unpadded URL-safe base64 ----

  type Sextet = x: int | 0 <= x < 64

  function Symbol(v: Sextet): (b: Byte) {
    if v < 26 then 65 + v else if v < 52 then 71 + v else if v < 62 then v - 4 else if v == 62 then 45 else 95
  }

  function SymbolValue(b: Byte): (v: Option<Sextet>) {
    if 65 <= b <= 90 then Some(b - 65)
    else if 97 <= b <= 122 then Some(b - 71)
    else if 48 <= b <= 57 then Some(b + 4)
    else if b == 45 then Some(62)
    else if b == 95 then Some(63)
    else None
  }

  // The four values three bytes are spread over.

  function FirstValue(a: Byte): (v: Sextet) {
    a / 4
  }

  function SecondValue(a: Byte, b: Byte): (v: Sextet) {
    a % 4 * 16 + b / 16
  }

  function ThirdValue(b: Byte, c: Byte): (v: Sextet) {
    b % 16 * 4 + c / 64
  }

  function FourthValue(c: Byte): (v: Sextet) {
    c % 64
  }

  /** The bytes regrouped into 6-bit values, the last filled up with zero bits. */
  function Pack(s: Bytes): (vs: seq<Sextet>) {
    if s == [] then []
    else if |s| == 1 then [FirstValue(s[0]), SecondValue(s[0], 0)]
    else if |s| == 2 then [FirstValue(s[0]), SecondValue(s[0], s[1]), ThirdValue(s[1], 0)]
    else [FirstValue(s[0]), SecondValue(s[0], s[1]), ThirdValue(s[1], s[2]), FourthValue(s[2])] + Pack(s[3..])
  }

  function Symbols(vs: seq<Sextet>): (s: Bytes) {
    if vs == [] then [] else [Symbol(vs[0])] + Symbols(vs[1..])
  }

  function Encode(s: Bytes): (r: Bytes) {
    Symbols(Pack(s))
  }

  predicate IsLineBreak(b: Byte) {
    b == 10 || b == 13
  }

  function WithoutBreaks(s: Bytes): (r: Bytes) {
    if s == [] then []
    else if IsLineBreak(s[0]) then WithoutBreaks(s[1..])
    else [s[0]] + WithoutBreaks(s[1..])
  }

  /** The values of the symbols, if all bytes are symbols. */
  function Values(s: Bytes): (vs: Option<seq<Sextet>>)
    ensures vs.Some? ==> |vs.value| == |s|
  {
    if s == [] then Some([])
    else
      var v, rest := SymbolValue(s[0]), Values(s[1..]);
      if v.None? || rest.None? then None else Some([v.value] + rest.value)
  }

  // The three bytes spread over four values.

  function FirstByte(v: Sextet, w: Sextet): (b: Byte) {
    v as int * 4 + w as int / 16
  }

  function SecondByte(w: Sextet, x: Sextet): (b: Byte) {
    w as int % 16 * 16 + x as int / 4
  }

  function ThirdByte(x: Sextet, y: Sextet): (b: Byte) {
    x as int % 4 * 64 + y as int
  }

  /** Unpacks 6-bit values; spare bits at the end are dropped, and a single spare value is an error. */
  function Unpack(vs: seq<Sextet>): (s: Option<Bytes>) {
    if vs == [] then Some([])
    else if |vs| == 1 then None
    else if |vs| == 2 then Some([FirstByte(vs[0], vs[1])])
    else if |vs| == 3 then Some([FirstByte(vs[0], vs[1]), SecondByte(vs[1], vs[2])])
    else
      var rest := Unpack(vs[4..]);
      if rest.None? then None
      else Some([FirstByte(vs[0], vs[1]), SecondByte(vs[1], vs[2]), ThirdByte(vs[2], vs[3])] + rest.value)
  }

  /** Decoding: line breaks are skipped, any other byte outside the alphabet is an error. */
  function Decode(s: Bytes): (r: Option<Bytes>) {
    var vs := Values(WithoutBreaks(s));
    if vs.None? then None else Unpack(vs.value)
  }

  lemma SymbolRoundTrip(v: Sextet)
    ensures SymbolValue(Symbol(v)) == Some(v) && !IsLineBreak(Symbol(v)) && Symbol(v) != 46
  {
  }

  lemma {:induction false} SymbolsHaveNoBreaks(vs: seq<Sextet>)
    ensures WithoutBreaks(Symbols(vs)) == Symbols(vs) && 46 !in Symbols(vs)
    decreases |vs|
  {
    if vs == [] {
    } else {
      SymbolsHaveNoBreaks(vs[1..]);
      assert Symbols(vs)[1..] == Symbols(vs[1..]);
    }
  }

  lemma {:induction false} ValuesOfSymbols(vs: seq<Sextet>)
    ensures Values(Symbols(vs)) == Some(vs)
    decreases |vs|
  {
    if vs == [] {
    } else {
      var rest := vs[1..];
      ValuesOfSymbols(rest);
      SymbolRoundTrip(vs[0]);
      assert Symbols(vs)[1..] == Symbols(rest);
      assert vs == [vs[0]] + rest;
    }
  }

  lemma Regrouped(a: Byte, b: Byte, c: Byte)
    ensures FirstByte(FirstValue(a), SecondValue(a, b)) == a
    ensures SecondByte(SecondValue(a, b), ThirdValue(b, c)) == b
    ensures ThirdByte(ThirdValue(b, c), FourthValue(c)) == c
  {
  }

  lemma UnpackQuad(v: Sextet, w: Sextet, x: Sextet, y: Sextet, rest: seq<Sextet>)
    requires Unpack(rest).Some?
    ensures Unpack([v, w, x, y] + rest) ==
      Some([FirstByte(v, w), SecondByte(w, x), ThirdByte(x, y)] + Unpack(rest).value)
  {
    assert ([v, w, x, y] + rest)[4..] == rest;
  }

  lemma UnpackPackQuad(s: Bytes)
    requires |s| >= 3 && Unpack(Pack(s[3..])) == Some(s[3..])
    ensures Unpack(Pack(s)) == Some([s[0], s[1], s[2]] + s[3..])
  {
    Regrouped(s[0], s[1], s[2]);
    UnpackQuad(
      FirstValue(s[0]), SecondValue(s[0], s[1]), ThirdValue(s[1], s[2]), FourthValue(s[2]), Pack(s[3..]));
  }

  lemma UnpackPackOne(s: Bytes)
    requires |s| == 1
    ensures Unpack(Pack(s)) == Some(s)
  {
    var v, w := FirstValue(s[0]), SecondValue(s[0], 0);
    assert FirstByte(v, w) == s[0];
    assert Pack(s) == [v, w];
    assert [s[0]] == s;
  }

  lemma UnpackPackTwo(s: Bytes)
    requires |s| == 2
    ensures Unpack(Pack(s)) == Some(s)
  {
    var v, w, x := FirstValue(s[0]), SecondValue(s[0], s[1]), ThirdValue(s[1], 0);
    Regrouped(s[0], s[1], 0);
    assert [FirstByte(v, w), SecondByte(w, x)] == s;
  }

  lemma {:induction false} UnpackPack(s: Bytes)
    ensures Unpack(Pack(s)) == Some(s)
    decreases |s|
  {
    if |s| == 1 {
      UnpackPackOne(s);
    } else if |s| == 2 {
      UnpackPackTwo(s);
    } else if |s| >= 3 {
      UnpackPack(s[3..]);
      UnpackPackQuad(s);
      assert s == [s[0], s[1], s[2]] + s[3..];
    }
  }

  /** Decoding undoes encoding, and no encoding holds a dot. */
  lemma DecodeEncode(s: Bytes)
    ensures Decode(Encode(s)) == Some(s) && 46 !in Encode(s)
  {
    SymbolsHaveNoBreaks(Pack(s));
    ValuesOfSymbols(Pack(s));
    UnpackPack(s);
  }

  // ---- The notations are the standard ones ----

  /** The alphabet of section 5 of RFC 4648: capital letters, small letters, digits, minus and underscore. */
  lemma SymbolIsStandard(v: Sextet)
    ensures Symbol(v) ==
      if v <= 25 then 'A' as int + v
      else if v <= 51 then 'a' as int + (v - 26)
      else if v <= 61 then '0' as int + (v - 52)
      else if v == 62 then '-' as int
      else '_' as int
  {
  }

  /** Three bytes become the four 6-bit digits of the 24-bit number they make up, one group after the other. */
  lemma PackThree(a: Byte, b: Byte, c: Byte, rest: Bytes)
    ensures var vs := Pack([a, b, c] + rest);
      && |vs| >= 4 && vs[4..] == Pack(rest)
      && vs[0] as int * 262144 + vs[1] as int * 4096 + vs[2] as int * 64 + vs[3] as int ==
         a as int * 65536 + b as int * 256 + c as int
  {
    assert ([a, b, c] + rest)[3..] == rest;
  }

  /** One or two bytes left over become two or three digits, filled up with zero bits and without padding. */
  lemma PackLeftOver(a: Byte, b: Byte)
    ensures Pack([]) == []
    ensures var vs := Pack([a]); |vs| == 2 && vs[0] as int * 64 + vs[1] as int == a as int * 16
    ensures var vs := Pack([a, b]);
      |vs| == 3 && vs[0] as int * 4096 + vs[1] as int * 64 + vs[2] as int == (a as int * 256 + b as int) * 4
  {
  }

  lemma {:induction false} SymbolAt(vs: seq<Sextet>, i: nat)
    requires i < |vs|
    ensures |Symbols(vs)| == |vs| && Symbols(vs)[i] == Symbol(vs[i])
  {
    if |vs| == 1 {
    } else {
      SymbolAt(vs[1..], if i == 0 then 0 else i - 1);
    }
  }

  /** Byte `i` of a UUID as two lower-case hexadecimal digits, high one first. */
  lemma {:induction false} HexAt(s: Bytes, i: nat)
    requires i < |s|
    ensures Hex(s)[2 * i] == "0123456789abcdef"[s[i] / 16] as int
    ensures Hex(s)[2 * i + 1] == "0123456789abcdef"[s[i] % 16] as int
    decreases i
  {
    HexDigitIs(s[i] / 16);
    HexDigitIs(s[i] % 16);
    if i > 0 { HexAt(s[1..], i - 1); }
  }

  lemma HexDigitIs(v: nat)
    requires v < 16
    ensures HexDigit(v) == "0123456789abcdef"[v] as int
  {
  }

  /** Where the digits and the dashes of a printed UUID stand: 8, 4, 4, 4 and 12 digits. */
  lemma UuidLayout(u: Uuid)
    ensures var s, h := UuidString(u), Hex(u);
      && s[8] == 45 && s[13] == 45 && s[18] == 45 && s[23] == 45
      && s[..8] + s[9..13] + s[14..18] + s[19..23] + s[24..] == h
  {
    var s, h := UuidString(u), Hex(u);
    assert s[..8] == h[..8] && s[9..13] == h[8..12] && s[14..18] == h[12..16] && s[19..23] == h[16..20];
    assert s[24..] == h[20..];
    assert h == h[..8] + h[8..12] + h[12..16] + h[16..20] + h[20..];
  }
}
