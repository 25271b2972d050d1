/** What the DNS server answers: the configured zones and records read by plain scans. */
module DnsLookup {
  import opened Text
  import opened DnsZones

  datatype Data =
    | AData(ip: Option<Bytes>)
    | NsData(host: string)
    | CnameData(target: string)
    | SoaData(ns: string, mbox: string, serial: nat, refresh: nat, retry: nat, expire: nat, minTtl: nat)
    | PtrData(host: string)
    | MxData(preference: nat, host: string)
    | TxtData(text: string)
    | AaaaData(ip6: Bytes)
    | SrvData(priority: nat, weight: nat, port: nat, host: string)
    | CaaData(flag: nat, tag: string, caa: string)

  /** A resource record; its type is determined by its data. */
  datatype RR = RR(name: string, ttl: nat, data: Data)

  /** Resource record types as DNS numbers them. */
  const TYPE_NS := 2
  const TYPE_CNAME := 5
  const TYPE_SOA := 6
  const TYPE_AXFR := 252

  function Type(data: Data): (code: nat) {
    match data
    case AData(_) => 1
    case NsData(_) => TYPE_NS
    case CnameData(_) => TYPE_CNAME
    case SoaData(_, _, _, _, _, _, _) => TYPE_SOA
    case PtrData(_) => 12
    case MxData(_, _) => 15
    case TxtData(_) => 16
    case AaaaData(_) => 28
    case SrvData(_, _, _, _) => 33
    case CaaData(_, _, _) => 257
  }

  /** The lookup key: lower-case name and type. */
  datatype Key = Key(name: string, code: nat)

  function KeyOf(rr: RR): (k: Key) {
    Key(Lower(rr.name), Type(rr.data))
  }

  datatype ZoneConfig = ZoneConfig(name: string, ttl: int, serial: nat, records: seq<Record>)

  datatype Question = Question(name: string, qtype: nat)

  datatype Response =
    | Response(rcode: nat, authoritative: bool, answer: seq<RR>, authority: seq<RR>)
    | Transfer(zone: string)

  const NO_ERROR := 0
  const SERVER_FAILURE := 2
  const NAME_ERROR := 3
  const REFUSED := 5

  /** An address as `net.ParseIP` returns it: its 16-byte form, and the 4-byte one when it has one. */
  datatype Parsed = Parsed(four: Option<Bytes>, sixteen: Bytes)

  // ---- Converting a configured record ----

  function TrailingBackslashes(s: string): (n: nat) {
    if s == "" || s[|s| - 1] != '\\' then 0 else 1 + TrailingBackslashes(s[..|s| - 1])
  }

  /** Fully qualified: ends in a dot that is not escaped. */
  predicate IsFqdn(s: string) {
    s != "" && s[|s| - 1] == '.' && TrailingBackslashes(s[..|s| - 1]) % 2 == 0
  }

  function Fqdn(s: string): (r: string)
    ensures r != "" && r[|r| - 1] == '.' && s <= r
  {
    if IsFqdn(s) then s else s + "."
  }

  function Word(v: Option<int>, otherwise: nat): (r: nat) {
    if v.Some? then v.value % 0x1_0000 else otherwise
  }

  function ZoneTtl(ttl: int): (r: nat)
    ensures r > 0
  {
    if ttl % 0x1_0000_0000 == 0 then 300 else ttl % 0x1_0000_0000
  }

  function CaaOf(value: string): (d: Option<Data>) {
    if ' ' !in value then None else
      var i := IndexOf(value, ' ');
      var rest := value[i + 1..];
      if ' ' !in rest then None else
        var j := IndexOf(rest, ' ');
        Some(CaaData(if value[..i] == "128" then 128 else 0, rest[..j], rest[j + 1..]))
  }

  function DataOf(parse: string -> Option<Parsed>, rec: Record): (d: Option<Data>) {
    match rec.kind
    case A => var p := parse(rec.value); if p.None? then None else Some(AData(p.value.four))
    case AAAA => var p := parse(rec.value); if p.None? then None else Some(AaaaData(p.value.sixteen))
    case CNAME => Some(CnameData(Fqdn(rec.value)))
    case MX => Some(MxData(Word(rec.priority, 10), Fqdn(rec.value)))
    case TXT => Some(TxtData(rec.value))
    case NS => Some(NsData(Fqdn(rec.value)))
    case SRV => Some(SrvData(Word(rec.priority, 0), Word(rec.weight, 0), Word(rec.port, 0), Fqdn(rec.value)))
    case CAA => CaaOf(rec.value)
    case PTR => Some(PtrData(Fqdn(rec.value)))
    case Unsupported => None
  }

  function OwnerName(name: string, zone: string): (r: string) {
    Fqdn(if name == "@" || name == "" then zone else name + "." + zone)
  }

  function RecordTtl(ttl: Option<int>, zoneTtl: nat): (r: nat) {
    if ttl.Some? && ttl.value > 0 then ttl.value % 0x1_0000_0000 else zoneTtl
  }

  function Convert(parse: string -> Option<Parsed>, rec: Record, zone: string, zoneTtl: nat): (rrs: seq<RR>)
    ensures |rrs| <= 1
  {
    var d := DataOf(parse, rec);
    if d.None? then [] else [RR(OwnerName(rec.name, zone), RecordTtl(rec.ttl, zoneTtl), d.value)]
  }

  /** What each configured record converts to. */
  function Converted(parse: string -> Option<Parsed>, z: ZoneConfig): (lists: seq<seq<RR>>)
    ensures |lists| == |z.records|
    ensures forall i | 0 <= i < |lists| :: lists[i] == Convert(parse, z.records[i], z.name, ZoneTtl(z.ttl))
  {
    seq(|z.records|, i requires 0 <= i < |z.records| => Convert(parse, z.records[i], z.name, ZoneTtl(z.ttl)))
  }

  function Concat(lists: seq<seq<RR>>, n: nat): (rrs: seq<RR>)
    requires n <= |lists|
  {
    if n == 0 then [] else Concat(lists, n - 1) + lists[n - 1]
  }

  /** All resource records of a zone in configuration order. */
  function AllRecords(parse: string -> Option<Parsed>, z: ZoneConfig): (rrs: seq<RR>) {
    Concat(Converted(parse, z), |z.records|)
  }

  // ---- Plain scans ----

  /** The records with a key, in order. */
  function Select(rrs: seq<RR>, k: Key): (r: seq<RR>) {
    if rrs == [] then []
    else Select(rrs[..|rrs| - 1], k) + if KeyOf(rrs[|rrs| - 1]) == k then [rrs[|rrs| - 1]] else []
  }

  ghost predicate NameExists(rrs: seq<RR>, name: string) {
    exists i | 0 <= i < |rrs| :: Lower(rrs[i].name) == name
  }

  /** The zone is the query name or one of its parents. */
  predicate Matches(zone: string, qname: string) {
    qname == zone || HasSuffix(qname, "." + zone)
  }

  predicate Serves(config: seq<ZoneConfig>, i: nat, qname: string) {
    i < |config| && Matches(Lower(config[i].name), qname)
  }

  /** The last of the largest among the first `n` that hit, or none. */
  function LastLargest(hits: seq<bool>, sizes: seq<nat>, n: nat): (b: Option<nat>)
    requires n <= |hits| == |sizes|
    ensures b.Some? ==> b.value < n
  {
    if n == 0 then None
    else
      var b := LastLargest(hits, sizes, n - 1);
      if hits[n - 1] && (b.Some? ==> sizes[n - 1] >= sizes[b.value]) then Some(n - 1) else b
  }

  function Hits(config: seq<ZoneConfig>, qname: string): (hits: seq<bool>)
    ensures |hits| == |config| && forall i: nat | i < |config| :: hits[i] == Serves(config, i, qname)
  {
    seq(|config|, i requires 0 <= i < |config| => Serves(config, i, qname))
  }

  function Sizes(config: seq<ZoneConfig>): (sizes: seq<nat>)
    ensures |sizes| == |config| && forall i | 0 <= i < |config| :: sizes[i] == |config[i].name|
  {
    seq(|config|, i requires 0 <= i < |config| => |config[i].name|)
  }

  /** The last of the longest zones that match a name, or none. */
  function BestZone(config: seq<ZoneConfig>, qname: string): (b: Option<nat>)
    ensures b.Some? ==> b.value < |config|
  {
    LastLargest(Hits(config, qname), Sizes(config), |config|)
  }

  function Soa(z: ZoneConfig): (rr: RR) {
    RR(z.name, ZoneTtl(z.ttl), SoaData("ns1." + z.name, "hostmaster." + z.name, z.serial, 3600, 900, 604800, 300))
  }

  function ApexNs(z: ZoneConfig): (rr: RR) {
    RR(z.name, ZoneTtl(z.ttl), NsData("ns1." + z.name))
  }

  /** The answer from one zone holding exactly the records `rrs`. */
  ghost function ZoneAnswer(z: ZoneConfig, rrs: seq<RR>, qname: string, qtype: nat): (r: Response) {
    var direct := Select(rrs, Key(qname, qtype));
    var cnames := Select(rrs, Key(qname, TYPE_CNAME));
    if qtype == TYPE_AXFR then Transfer(z.name)
    else if qtype == TYPE_SOA then Response(NO_ERROR, true, [Soa(z)], [])
    else if direct != [] then Response(NO_ERROR, true, direct, [])
    else if qtype == TYPE_NS && qname == Lower(z.name) then Response(NO_ERROR, true, [ApexNs(z)], [])
    else if cnames != [] then
      SelectKeys(rrs, Key(qname, TYPE_CNAME), 0);
      Response(NO_ERROR, true, cnames + Select(rrs, Key(Lower(cnames[0].data.target), qtype)), [])
    else Response(if NameExists(rrs, qname) then NO_ERROR else NAME_ERROR, true, [], [Soa(z)])
  }

  /** The answer to a request, from the configuration alone. */
  ghost function Answer(parse: string -> Option<Parsed>, config: seq<ZoneConfig>, q: Option<Question>): (r: Response) {
    if q.None? then Response(SERVER_FAILURE, true, [], [])
    else
      var qname := Lower(q.value.name);
      var b := BestZone(config, qname);
      if b.None? then Response(REFUSED, false, [], [])
      else
        var z := config[b.value];
        ZoneAnswer(z, AllRecords(parse, z), qname, q.value.qtype)
  }

  // ---- The scans mean what they should ----

  lemma {:induction false} SelectKeys(rrs: seq<RR>, k: Key, i: nat)
    ensures i < |Select(rrs, k)| ==> KeyOf(Select(rrs, k)[i]) == k && Select(rrs, k)[i] in rrs
    decreases |rrs|
  {
    if rrs == [] {
    } else {
      SelectKeys(rrs[..|rrs| - 1], k, i);
    }
  }

  /** Zones of one length that match a name are the same zone. */
  lemma SameLengthSameZone(y: string, z: string, qname: string)
    requires Matches(y, qname) && Matches(z, qname) && |y| == |z|
    ensures y == z
  {
    SuffixOf(y, qname);
    SuffixOf(z, qname);
  }

  lemma SuffixOf(z: string, qname: string)
    requires Matches(z, qname)
    ensures |z| <= |qname| && z == qname[|qname| - |z|..]
  {
    if qname != z {
      var n := |qname| - |z| - 1;
      assert z == ("." + z)[1..] == qname[n..][1..] == qname[n + 1..];
    }
  }

  lemma {:induction false} LastLargestIs(hits: seq<bool>, sizes: seq<nat>, n: nat)
    requires n <= |hits| == |sizes|
    ensures match LastLargest(hits, sizes, n)
      case None => forall i | 0 <= i < n :: !hits[i]
      case Some(b) =>
        hits[b] && forall i | 0 <= i < n && hits[i] :: sizes[i] < sizes[b] || (sizes[i] == sizes[b] && i <= b)
  {
    if n == 0 {
    } else {
      LastLargestIs(hits, sizes, n - 1);
    }
  }

  /** The chosen zone matches, none that matches is longer, and of its duplicates it is the last. */
  lemma BestZoneIs(config: seq<ZoneConfig>, qname: string, i: nat)
    requires Serves(config, i, qname)
    ensures var b := BestZone(config, qname);
      && b.Some? && Serves(config, b.value, qname)
      && (|config[i].name| < |config[b.value].name| ||
          (i <= b.value && Lower(config[i].name) == Lower(config[b.value].name)))
  {
    var hits, sizes := Hits(config, qname), Sizes(config);
    LastLargestIs(hits, sizes, |config|);
    assert hits[i];
    var b := BestZone(config, qname).value;
    if sizes[i] == sizes[b] {
      SameLengthSameZone(Lower(config[i].name), Lower(config[b].name), qname);
    }
  }

  lemma BestZoneServes(config: seq<ZoneConfig>, qname: string)
    ensures BestZone(config, qname).Some? ==> Serves(config, BestZone(config, qname).value, qname)
  {
    LastLargestIs(Hits(config, qname), Sizes(config), |config|);
  }

  ghost predicate EndsWith(labels: seq<string>, tail: seq<string>) {
    |tail| <= |labels| && labels[|labels| - |tail|..] == tail
  }

  lemma SplitAround(p: string, sep: char, z: string)
    ensures Split(p + [sep] + z, sep) == Split(p, sep) + Split(z, sep)
  {
    var ps, zs := Split(p, sep), Split(z, sep);
    JoinSplit(p, sep);
    JoinSplit(z, sep);
    JoinConcat(ps, zs, sep);
    SplitJoin(ps + zs, sep);
  }

  /** A zone matches exactly when its labels are the last labels of the query name. */
  lemma MatchesLabels(zone: string, qname: string)
    ensures Matches(zone, qname) <==> EndsWith(Split(qname, '.'), Split(zone, '.'))
  {
    if Matches(zone, qname) && qname != zone {
      MatchEndsLabels(zone, qname);
    }
    if EndsWith(Split(qname, '.'), Split(zone, '.')) {
      LabelsEndMatch(zone, qname);
    }
  }

  lemma MatchEndsLabels(zone: string, qname: string)
    requires HasSuffix(qname, "." + zone)
    ensures EndsWith(Split(qname, '.'), Split(zone, '.'))
  {
    var p := qname[..|qname| - |zone| - 1];
    assert qname == p + ['.'] + zone;
    SplitAround(p, '.', zone);
  }

  lemma JoinedEndsWith(front: seq<string>, zs: seq<string>, sep: char)
    requires front != [] && zs != []
    ensures HasSuffix(Join(front + zs, sep), [sep] + Join(zs, sep))
  {
    JoinConcat(front, zs, sep);
    var p, z := Join(front, sep), Join(zs, sep);
    assert p + [sep] + z == p + ([sep] + z);
  }

  lemma LabelsEndMatch(zone: string, qname: string)
    requires EndsWith(Split(qname, '.'), Split(zone, '.'))
    ensures Matches(zone, qname)
  {
    var ls, zs := Split(qname, '.'), Split(zone, '.');
    var front := ls[..|ls| - |zs|];
    assert ls == front + zs;
    assert qname == Join(ls, '.') by { JoinSplit(qname, '.'); }
    assert zone == Join(zs, '.') by { JoinSplit(zone, '.'); }
    if front != [] {
      JoinedEndsWith(front, zs, '.');
    } else {
      assert ls == zs;
    }
  }

  /** A zone stored without its final dot never answers a fully qualified query. */
  lemma UndottedZoneNeverMatches(zone: string, qname: string)
    requires qname != "" && qname[|qname| - 1] == '.'
    requires zone != "" && zone[|zone| - 1] != '.'
    ensures !Matches(zone, qname)
  {
    if Matches(zone, qname) {
      SuffixOf(zone, qname);
    }
  }

  /** NXDOMAIN is answered exactly when a zone serves the name, it holds no record there, and nothing is synthesized. */
  lemma NameErrorExactly(parse: string -> Option<Parsed>, config: seq<ZoneConfig>, q: Question)
    ensures var qname, r := Lower(q.name), Answer(parse, config, Some(q));
      var b := BestZone(config, qname);
      r.Response? && r.rcode == NAME_ERROR <==>
      && b.Some? && q.qtype != TYPE_AXFR && q.qtype != TYPE_SOA
      && !(q.qtype == TYPE_NS && qname == Lower(config[b.value].name))
      && !NameExists(AllRecords(parse, config[b.value]), qname)
  {
    var qname := Lower(q.name);
    var b := BestZone(config, qname);
    if b.Some? {
      var rrs := AllRecords(parse, config[b.value]);
      SelectExists(rrs, Key(qname, q.qtype));
      SelectExists(rrs, Key(qname, TYPE_CNAME));
    }
  }

  lemma SelectExists(rrs: seq<RR>, k: Key)
    ensures Select(rrs, k) != [] ==> NameExists(rrs, k.name)
  {
    SelectKeys(rrs, k, 0);
    if Select(rrs, k) != [] {
      var i :| 0 <= i < |rrs| && rrs[i] == Select(rrs, k)[0];
      assert Lower(rrs[i].name) == k.name;
    }
  }

  // ---- Configured records are served, and nothing else is ----

  lemma {:induction false} ConcatHas(lists: seq<seq<RR>>, n: nat, i: nat, rr: RR)
    requires i < n <= |lists| && rr in lists[i]
    ensures rr in Concat(lists, n)
    decreases n
  {
    if i < n - 1 {
      ConcatHas(lists, n - 1, i, rr);
    }
  }

  lemma ConvertedType(parse: string -> Option<Parsed>, rec: Record, zone: string, ttl: nat, rr: RR)
    requires rr in Convert(parse, rec, zone, ttl)
    ensures Type(rr.data) != TYPE_SOA && Type(rr.data) != TYPE_AXFR
  {
    var d := DataOf(parse, rec);
    assert rr.data == d.value && !d.value.SoaData?;
  }

  lemma {:induction false} SelectHas(rrs: seq<RR>, rr: RR)
    requires rr in rrs
    ensures rr in Select(rrs, KeyOf(rr))
    decreases |rrs|
  {
    var n := |rrs| - 1;
    if rr in rrs[..n] {
      SelectHas(rrs[..n], rr);
    } else {
      assert rrs == rrs[..n] + [rrs[n]];
    }
  }

  lemma {:induction false} BackslashesAfterDot(p: string, z: string)
    ensures TrailingBackslashes(p + "." + z) == TrailingBackslashes(z)
    decreases |z|
  {
    if z == "" {
      assert (p + "." + z)[|p|] == '.';
    } else {
      BackslashesAfterDot(p, z[..|z| - 1]);
      assert (p + "." + z)[..|p + "." + z| - 1] == p + "." + z[..|z| - 1];
    }
  }

  lemma LowerOfOwner(name: string, zone: string)
    ensures HasSuffix(Lower(name + "." + zone), "." + Lower(zone))
  {
    var s := Lower(name + "." + zone);
    assert s[|name|..] == "." + Lower(zone);
  }

  /** An owner name below a zone is fully qualified as written exactly when the zone is. */
  lemma OwnerIsFqdn(name: string, zone: string)
    requires zone != ""
    ensures IsFqdn(name + "." + zone) <==> IsFqdn(zone)
  {
    var s, z := name + "." + zone, zone[..|zone| - 1];
    BackslashesAfterDot(name, z);
    assert s[..|s| - 1] == name + "." + z;
  }

  /** A text that repeats itself one place further on ends in two dots. */
  lemma ShiftedByDot(zone: string, s: string)
    requires zone != "" && HasSuffix(s, zone) && Matches(Lower(zone), Lower(s + "."))
    ensures IsFqdn(zone)
  {
    var n, q := |zone|, Lower(s + ".");
    SuffixOf(Lower(zone), q);
    assert q[|q| - 1] == '.';
    assert Lower(zone)[n - 1] == q[|q| - 1];
    if n > 1 {
      assert Lower(zone)[n - 2] == q[|q| - 2] == LowerChar(s[|s| - 1]);
      assert s[|s| - 1] == s[|s| - n..][n - 1] == zone[n - 1];
    }
  }

  /** Without its own final dot a zone matches none of its owner names. */
  lemma UndottedOwner(name: string, zone: string)
    requires zone != "" && !IsFqdn(zone)
    ensures !Matches(Lower(zone), Lower(OwnerName(name, zone)))
  {
    var s := if name == "@" || name == "" then zone else name + "." + zone;
    OwnerIsFqdn(name, zone);
    assert HasSuffix(s, zone);
    if Matches(Lower(zone), Lower(s + ".")) { ShiftedByDot(zone, s); }
  }

  /** A zone matches the owner names of its records exactly when it is stored with its final dot. */
  lemma OwnerInZoneExactly(name: string, zone: string)
    requires zone != ""
    ensures Matches(Lower(zone), Lower(OwnerName(name, zone))) <==> IsFqdn(zone)
  {
    if !IsFqdn(zone) {
      UndottedOwner(name, zone);
    } else if name != "@" && name != "" {
      OwnerIsFqdn(name, zone);
      LowerOfOwner(name, zone);
    }
  }

  /**
   * A zone serves an owner name of its own exactly when it is stored with its final dot, no longer zone matches
   * the name, and no zone of the same name is configured after it.
   */
  lemma OwnZoneServesExactly(config: seq<ZoneConfig>, b: nat, name: string)
    requires b < |config| && config[b].name != ""
    ensures BestZone(config, Lower(OwnerName(name, config[b].name))) == Some(b) <==>
      IsFqdn(config[b].name) && Uncontested(config, b, Lower(OwnerName(name, config[b].name)))
  {
    var qname := Lower(OwnerName(name, config[b].name));
    OwnerInZoneExactly(name, config[b].name);
    if BestZone(config, qname) == Some(b) {
      BestZoneServes(config, qname);
      BestIsUncontested(config, b, qname);
    } else if IsFqdn(config[b].name) {
      BestZoneIs(config, qname, b);
      BestZoneServes(config, qname);
    }
  }

  /** No longer zone matches the name, and no later zone has the same name. */
  ghost predicate Uncontested(config: seq<ZoneConfig>, b: nat, qname: string)
    requires b < |config|
  {
    && (forall i: nat | Serves(config, i, qname) :: |config[i].name| <= |config[b].name|)
    && (forall i: nat | b < i < |config| :: Lower(config[i].name) != Lower(config[b].name))
  }

  lemma BestIsUncontested(config: seq<ZoneConfig>, b: nat, qname: string)
    requires b < |config| && BestZone(config, qname) == Some(b)
    ensures Uncontested(config, b, qname)
  {
    BestZoneServes(config, qname);
    forall i: nat | Serves(config, i, qname) ensures |config[i].name| <= |config[b].name| {
      BestZoneIs(config, qname, i);
      assert |Lower(config[i].name)| == |config[i].name|;
    }
    forall i: nat | b < i < |config| ensures Lower(config[i].name) != Lower(config[b].name) {
      if Serves(config, i, qname) { BestZoneIs(config, qname, i); }
    }
  }

  lemma HeldIsAnswered(z: ZoneConfig, rrs: seq<RR>, rr: RR)
    requires rr in Select(rrs, KeyOf(rr)) && Type(rr.data) != TYPE_SOA && Type(rr.data) != TYPE_AXFR
    ensures ZoneAnswer(z, rrs, Lower(rr.name), Type(rr.data)) == Response(NO_ERROR, true, Select(rrs, KeyOf(rr)), [])
  {
  }

  lemma ServedByItsZone(parse: string -> Option<Parsed>, config: seq<ZoneConfig>, b: nat, i: nat, rr: RR, asked: string)
    requires b < |config| && i < |config[b].records|
    requires rr in Converted(parse, config[b])[i]
    requires Lower(asked) == Lower(rr.name) && BestZone(config, Lower(asked)) == Some(b)
    ensures var r := Answer(parse, config, Some(Question(asked, Type(rr.data))));
      r.Response? && r.rcode == NO_ERROR && r.authoritative && rr in r.answer
  {
    var z := config[b];
    ConvertedType(parse, z.records[i], z.name, ZoneTtl(z.ttl), rr);
    ConcatHas(Converted(parse, z), |z.records|, i, rr);
    SelectHas(AllRecords(parse, z), rr);
    HeldIsAnswered(z, AllRecords(parse, z), rr);
  }

  /**
   * In a zone stored with its final dot, that no longer matching zone and no later zone of the same name takes over,
   * asking for a configured record by owner name and type, in any letter case, gives an answer that holds it.
   */
  lemma RecordIsServed(parse: string -> Option<Parsed>, config: seq<ZoneConfig>, b: nat, i: nat, rr: RR, asked: string)
    requires b < |config| && i < |config[b].records| && IsFqdn(config[b].name)
    requires rr in Converted(parse, config[b])[i] && Lower(asked) == Lower(rr.name)
    requires Uncontested(config, b, Lower(asked))
    ensures var r := Answer(parse, config, Some(Question(asked, Type(rr.data))));
      r.Response? && r.rcode == NO_ERROR && r.authoritative && rr in r.answer
  {
    OwnZoneServesExactly(config, b, config[b].records[i].name);
    ServedByItsZone(parse, config, b, i, rr, asked);
  }

  /** Whatever is answered is a record of the zone that serves the name, or one of the two synthesized records. */
  lemma AnswersAreConfigured(parse: string -> Option<Parsed>, config: seq<ZoneConfig>, q: Question, rr: RR)
    requires Answer(parse, config, Some(q)).Response? && rr in Answer(parse, config, Some(q)).answer
    ensures var b := BestZone(config, Lower(q.name));
      && b.Some?
      && var z := config[b.value];
         rr in AllRecords(parse, z) || rr == Soa(z) || rr == ApexNs(z)
  {
    var qname := Lower(q.name);
    var b := BestZone(config, qname);
    if b.Some? {
      var z := config[b.value];
      var rrs := AllRecords(parse, z);
      ZoneAnswerFrom(z, rrs, qname, q.qtype, rr);
    }
  }

  lemma SelectedIsListed(rrs: seq<RR>, k: Key, rr: RR)
    requires rr in Select(rrs, k)
    ensures rr in rrs
  {
    var i :| 0 <= i < |Select(rrs, k)| && Select(rrs, k)[i] == rr;
    SelectKeys(rrs, k, i);
  }

  lemma ZoneAnswerFrom(z: ZoneConfig, rrs: seq<RR>, qname: string, qtype: nat, rr: RR)
    requires ZoneAnswer(z, rrs, qname, qtype).Response? && rr in ZoneAnswer(z, rrs, qname, qtype).answer
    ensures rr in rrs || rr == Soa(z) || rr == ApexNs(z)
  {
    var direct, cname := Key(qname, qtype), Key(qname, TYPE_CNAME);
    if rr in Select(rrs, direct) {
      SelectedIsListed(rrs, direct, rr);
    } else if rr in Select(rrs, cname) {
      SelectedIsListed(rrs, cname, rr);
    } else if Select(rrs, cname) != [] {
      SelectKeys(rrs, cname, 0);
      var target := Key(Lower(Select(rrs, cname)[0].data.target), qtype);
      if rr in Select(rrs, target) { SelectedIsListed(rrs, target, rr); }
    }
  }
}
