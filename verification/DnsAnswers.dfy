/** Every answer of the DNS server, case by case, in terms of the configured zone's records. */
module DnsAnswers {
  import opened Text
  import opened DnsZones
  import opened DnsLookup

  // ---- The records of a name and type, in configuration order ----

  predicate At(rr: RR, name: string, code: nat) {
    Lower(rr.name) == name && Type(rr.data) == code
  }

  /** `ix` are the places, in order, of all records with the name and type, and `out` are the records there. */
  ghost predicate Places(rrs: seq<RR>, name: string, code: nat, out: seq<RR>, ix: seq<nat>) {
    && |ix| == |out|
    && (forall k | 0 <= k < |ix| :: ix[k] < |rrs| && out[k] == rrs[ix[k]])
    && (forall a, b | 0 <= a < b < |ix| :: ix[a] < ix[b])
    && (forall i: nat | i < |rrs| :: At(rrs[i], name, code) <==> i in ix)
  }

  /** `out` holds exactly the records with the name and type, in their order. */
  ghost predicate Lists(rrs: seq<RR>, name: string, code: nat, out: seq<RR>) {
    exists ix :: Places(rrs, name, code, out, ix)
  }

  lemma {:induction false} SelectLists(rrs: seq<RR>, name: string, code: nat) returns (ix: seq<nat>)
    ensures Places(rrs, name, code, Select(rrs, Key(name, code)), ix)
    decreases |rrs|
  {
    if rrs == [] {
      ix := [];
    } else {
      var n := |rrs| - 1;
      ix := SelectLists(rrs[..n], name, code);
      PlacesMore(rrs, name, code, Select(rrs[..n], Key(name, code)), ix);
      if At(rrs[n], name, code) { ix := ix + [n]; }
    }
  }

  lemma PlacesMore(rrs: seq<RR>, name: string, code: nat, out: seq<RR>, ix: seq<nat>)
    requires rrs != [] && Places(rrs[..|rrs| - 1], name, code, out, ix)
    ensures var n := |rrs| - 1;
      if At(rrs[n], name, code) then Places(rrs, name, code, out + [rrs[n]], ix + [n])
      else Places(rrs, name, code, out + [], ix)
  {
    var n := |rrs| - 1;
    forall i: nat | i < n ensures At(rrs[i], name, code) <==> i in ix { assert rrs[..n][i] == rrs[i]; }
    assert out + [] == out;
  }

  lemma SelectIsList(rrs: seq<RR>, name: string, code: nat)
    ensures Lists(rrs, name, code, Select(rrs, Key(name, code)))
    ensures Select(rrs, Key(name, code)) == [] <==> forall i | 0 <= i < |rrs| :: !At(rrs[i], name, code)
  {
    var ix := SelectLists(rrs, name, code);
    var out := Select(rrs, Key(name, code));
    if out != [] { assert At(rrs[ix[0]], name, code) by { assert ix[0] in ix; } }
    if i :| 0 <= i < |rrs| && At(rrs[i], name, code) { assert i in ix; }
  }

  /** There is a record with the name and type. */
  ghost predicate Occurs(rrs: seq<RR>, name: string, code: nat) {
    exists i :: 0 <= i < |rrs| && At(rrs[i], name, code)
  }

  // ---- Answers ----

  /** The zone that answers, with its records. */
  ghost predicate ServedBy(parse: string -> Option<Parsed>, config: seq<ZoneConfig>, q: Question, z: ZoneConfig,
                           rrs: seq<RR>) {
    var b := BestZone(config, Lower(q.name));
    b.Some? && z == config[b.value] && rrs == AllRecords(parse, z)
  }

  /** The zone's start-of-authority record. */
  function Authority(z: ZoneConfig): (rr: RR) {
    var ttl := z.ttl % 4294967296;
    RR(z.name, if ttl == 0 then 300 else ttl,
       SoaData("ns1." + z.name, "hostmaster." + z.name, z.serial, 3600, 900, 604800, 300))
  }

  lemma AnswerIs(parse: string -> Option<Parsed>, config: seq<ZoneConfig>, q: Question, z: ZoneConfig, rrs: seq<RR>)
    requires ServedBy(parse, config, q, z, rrs)
    ensures Answer(parse, config, Some(q)) == ZoneAnswer(z, rrs, Lower(q.name), q.qtype)
  {
  }

  lemma ZoneDirect(z: ZoneConfig, rrs: seq<RR>, qname: string, qtype: nat)
    requires qtype != 252 && qtype != 6 && Select(rrs, Key(qname, qtype)) != []
    ensures ZoneAnswer(z, rrs, qname, qtype) == Response(0, true, Select(rrs, Key(qname, qtype)), [])
  {
  }

  lemma ZoneCname(z: ZoneConfig, rrs: seq<RR>, qname: string, qtype: nat)
    requires qtype != 252 && qtype != 6 && Select(rrs, Key(qname, qtype)) == []
    requires !(qtype == 2 && qname == Lower(z.name)) && Select(rrs, Key(qname, 5)) != []
    ensures var cnames := Select(rrs, Key(qname, 5));
      && cnames[0].data.CnameData?
      && ZoneAnswer(z, rrs, qname, qtype) ==
         Response(0, true, cnames + Select(rrs, Key(Lower(cnames[0].data.target), qtype)), [])
  {
    SelectKeys(rrs, Key(qname, 5), 0);
  }

  lemma ZoneNameServer(z: ZoneConfig, rrs: seq<RR>)
    requires Select(rrs, Key(Lower(z.name), 2)) == []
    ensures ZoneAnswer(z, rrs, Lower(z.name), 2) ==
      Response(0, true, [RR(z.name, Authority(z).ttl, NsData("ns1." + z.name))], [])
  {
  }

  /** Asked for a type it has at the name, the server gives exactly those records. */
  lemma DirectAnswer(parse: string -> Option<Parsed>, config: seq<ZoneConfig>, q: Question, z: ZoneConfig, rrs: seq<RR>)
    requires ServedBy(parse, config, q, z, rrs) && q.qtype != 252 && q.qtype != 6
    requires Occurs(rrs, Lower(q.name), q.qtype)
    ensures var r := Answer(parse, config, Some(q));
      && r.Response? && r == Response(0, true, r.answer, []) && Lists(rrs, Lower(q.name), q.qtype, r.answer)
  {
    AnswerIs(parse, config, q, z, rrs);
    SelectIsList(rrs, Lower(q.name), q.qtype);
    ZoneDirect(z, rrs, Lower(q.name), q.qtype);
  }

  /**
   * Asked for a type it does not have at a name with a CNAME, the server gives the CNAMEs of the name and then every
   * record of the asked type at the first one's target in the same zone, and nothing else.
   */
  lemma CnameAnswer(parse: string -> Option<Parsed>, config: seq<ZoneConfig>, q: Question, z: ZoneConfig, rrs: seq<RR>)
    requires ServedBy(parse, config, q, z, rrs) && q.qtype != 252 && q.qtype != 6 && q.qtype != 5
    requires !(q.qtype == 2 && Lower(q.name) == Lower(z.name))
    requires !Occurs(rrs, Lower(q.name), q.qtype) && Occurs(rrs, Lower(q.name), 5)
    ensures exists cnames: seq<RR>, targets: seq<RR> ::
      && Answer(parse, config, Some(q)) == Response(0, true, cnames + targets, [])
      && Lists(rrs, Lower(q.name), 5, cnames) && cnames != [] && cnames[0].data.CnameData?
      && Lists(rrs, Lower(cnames[0].data.target), q.qtype, targets)
  {
    var qname := Lower(q.name);
    AnswerIs(parse, config, q, z, rrs);
    SelectIsList(rrs, qname, q.qtype);
    SelectIsList(rrs, qname, 5);
    ZoneCname(z, rrs, qname, q.qtype);
    var cnames := Select(rrs, Key(qname, 5));
    SelectIsList(rrs, Lower(cnames[0].data.target), q.qtype);
  }

  /** Asked for the start of authority of any name it serves, the server gives the zone's, with its serial. */
  lemma AuthorityAnswer(parse: string -> Option<Parsed>, config: seq<ZoneConfig>, q: Question, z: ZoneConfig,
                        rrs: seq<RR>)
    requires ServedBy(parse, config, q, z, rrs) && q.qtype == 6
    ensures Answer(parse, config, Some(q)) == Response(0, true, [Authority(z)], [])
  {
    AnswerIs(parse, config, q, z, rrs);
  }

  /** Asked for the name servers of a zone that configures none, the server names "ns1" below the zone. */
  lemma NameServerAnswer(parse: string -> Option<Parsed>, config: seq<ZoneConfig>, q: Question, z: ZoneConfig,
                         rrs: seq<RR>)
    requires ServedBy(parse, config, q, z, rrs) && q.qtype == 2 && Lower(q.name) == Lower(z.name)
    requires !Occurs(rrs, Lower(q.name), 2)
    ensures Answer(parse, config, Some(q)) ==
      Response(0, true, [RR(z.name, Authority(z).ttl, NsData("ns1." + z.name))], [])
  {
    AnswerIs(parse, config, q, z, rrs);
    SelectIsList(rrs, Lower(q.name), 2);
    ZoneNameServer(z, rrs);
  }

  /**
   * With neither the type nor a CNAME at the name the answer is empty and carries the zone's authority record; it is
   * NXDOMAIN exactly when no record has the name.
   */
  lemma NegativeAnswer(parse: string -> Option<Parsed>, config: seq<ZoneConfig>, q: Question, z: ZoneConfig,
                       rrs: seq<RR>)
    requires ServedBy(parse, config, q, z, rrs) && q.qtype != 252 && q.qtype != 6
    requires !(q.qtype == 2 && Lower(q.name) == Lower(z.name))
    requires !Occurs(rrs, Lower(q.name), q.qtype) && !Occurs(rrs, Lower(q.name), 5)
    ensures Answer(parse, config, Some(q)) ==
      Response(if exists i :: 0 <= i < |rrs| && Lower(rrs[i].name) == Lower(q.name) then 0 else 3, true, [],
               [Authority(z)])
  {
    AnswerIs(parse, config, q, z, rrs);
    SelectIsList(rrs, Lower(q.name), q.qtype);
    SelectIsList(rrs, Lower(q.name), 5);
    ZoneNegative(z, rrs, Lower(q.name), q.qtype);
  }

  lemma ZoneNegative(z: ZoneConfig, rrs: seq<RR>, qname: string, qtype: nat)
    requires qtype != 252 && qtype != 6 && !(qtype == 2 && qname == Lower(z.name))
    requires Select(rrs, Key(qname, qtype)) == [] && Select(rrs, Key(qname, 5)) == []
    ensures ZoneAnswer(z, rrs, qname, qtype) ==
      Response(if exists i :: 0 <= i < |rrs| && Lower(rrs[i].name) == qname then 0 else 3, true, [], [Authority(z)])
  {
  }

  /** A query is refused exactly when no configured zone matches its name. */
  lemma RefusedExactly(parse: string -> Option<Parsed>, config: seq<ZoneConfig>, q: Question)
    ensures Answer(parse, config, Some(q)) == Response(5, false, [], []) <==>
      forall i: nat :: !Serves(config, i, Lower(q.name))
  {
    var qname := Lower(q.name);
    BestZoneServes(config, qname);
    if i: nat :| Serves(config, i, qname) {
      BestZoneIs(config, qname, i);
      var z := config[BestZone(config, qname).value];
      AnswerIs(parse, config, q, z, AllRecords(parse, z));
      NeverRefused(z, AllRecords(parse, z), qname, q.qtype);
    }
  }

  lemma NeverRefused(z: ZoneConfig, rrs: seq<RR>, qname: string, qtype: nat)
    ensures var r := ZoneAnswer(z, rrs, qname, qtype); r.Response? ==> r.authoritative
  {
  }

  /** A transfer is handed over, and a request without a question fails. */
  lemma OtherAnswers(parse: string -> Option<Parsed>, config: seq<ZoneConfig>, q: Question, z: ZoneConfig, rrs: seq<RR>)
    requires ServedBy(parse, config, q, z, rrs) && q.qtype == 252
    ensures Answer(parse, config, Some(q)) == Transfer(z.name)
    ensures Answer(parse, config, None) == Response(2, true, [], [])
  {
    AnswerIs(parse, config, q, z, rrs);
  }

  // ---- What a configured record is served as ----

  /** `r` is `s` made fully qualified: with a final dot unless it has one that is not escaped. */
  predicate Qualified(s: string, r: string) {
    r == if IsFqdn(s) then s else s + "."
  }

  /** A CAA value is a flag, a tag and the rest, with a blank between them. */
  predicate IsCaa(value: string, flag: string, tag: string, rest: string) {
    value == flag + " " + (tag + " " + rest) && ' ' !in flag && ' ' !in tag
  }

  /** The data a record's fields call for. */
  ghost predicate Carries(parse: string -> Option<Parsed>, rec: Record, data: Data) {
    match rec.kind
    case A => parse(rec.value).Some? && data == AData(parse(rec.value).value.four)
    case AAAA => parse(rec.value).Some? && data == AaaaData(parse(rec.value).value.sixteen)
    case CNAME => data.CnameData? && Qualified(rec.value, data.target)
    case MX =>
      && data.MxData? && Qualified(rec.value, data.host)
      && data.preference == (match rec.priority case Some(p) => p % 65536 case None => 10)
    case TXT => data == TxtData(rec.value)
    case NS => data.NsData? && Qualified(rec.value, data.host)
    case SRV =>
      && data.SrvData? && Qualified(rec.value, data.host)
      && data.priority == (match rec.priority case Some(p) => p % 65536 case None => 0)
      && data.weight == (match rec.weight case Some(w) => w % 65536 case None => 0)
      && data.port == (match rec.port case Some(p) => p % 65536 case None => 0)
    case CAA =>
      && data.CaaData?
      && exists flag :: IsCaa(rec.value, flag, data.tag, data.caa) && data.flag == if flag == "128" then 128 else 0
    case PTR => data.PtrData? && Qualified(rec.value, data.host)
    case Unsupported => false
  }

  /** The type numbers of DNS. */
  function TypeNumber(kind: RecordType): (code: nat) {
    match kind
    case A => 1
    case NS => 2
    case CNAME => 5
    case PTR => 12
    case MX => 15
    case TXT => 16
    case AAAA => 28
    case SRV => 33
    case CAA => 257
    case Unsupported => 0
  }

  lemma BlankSplits(s: string, i: nat)
    requires i < |s| && s[i] == ' '
    ensures s == s[..i] + " " + s[i + 1..]
  {
  }

  lemma CaaSplits(value: string) returns (flag: string)
    requires CaaOf(value).Some?
    ensures var d := CaaOf(value).value;
      d.CaaData? && IsCaa(value, flag, d.tag, d.caa) && d.flag == if flag == "128" then 128 else 0
  {
    var i := IndexOf(value, ' ');
    flag := value[..i];
    var rest := value[i + 1..];
    var j := IndexOf(rest, ' ');
    BlankSplits(value, i);
    BlankSplits(rest, j);
  }

  lemma CarriesData(parse: string -> Option<Parsed>, rec: Record)
    requires DataOf(parse, rec).Some?
    ensures Carries(parse, rec, DataOf(parse, rec).value)
  {
    if rec.kind == CAA {
      var flag := CaaSplits(rec.value);
    }
  }

  lemma TypeOfCarried(parse: string -> Option<Parsed>, rec: Record, data: Data)
    requires Carries(parse, rec, data)
    ensures Type(data) == TypeNumber(rec.kind)
  {
    match rec.kind
    case A =>
    case AAAA =>
    case CNAME =>
    case MX =>
    case TXT =>
    case NS =>
    case SRV =>
    case CAA =>
    case PTR =>
  }

  /** A record is served with its owner name, its own positive TTL or the zone's, and the data its fields call for. */
  lemma ServedAs(parse: string -> Option<Parsed>, rec: Record, zone: string, zoneTtl: nat, rr: RR)
    requires rr in Convert(parse, rec, zone, zoneTtl)
    ensures Qualified(if rec.name == "@" || rec.name == "" then zone else rec.name + "." + zone, rr.name)
    ensures rr.ttl == (match rec.ttl case Some(t) => if t > 0 then t % 4294967296 else zoneTtl case None => zoneTtl)
    ensures Carries(parse, rec, rr.data) && Type(rr.data) == TypeNumber(rec.kind)
  {
    var d := DataOf(parse, rec);
    assert rr == RR(OwnerName(rec.name, zone), RecordTtl(rec.ttl, zoneTtl), d.value);
    CarriesData(parse, rec);
    TypeOfCarried(parse, rec, rr.data);
  }

  /** A record is left out exactly when its type is not supported, its address or its CAA value cannot be read. */
  lemma LeftOutExactly(parse: string -> Option<Parsed>, rec: Record, zone: string, zoneTtl: nat)
    ensures Convert(parse, rec, zone, zoneTtl) == [] <==>
      match rec.kind
      case A => parse(rec.value).None?
      case AAAA => parse(rec.value).None?
      case CAA => forall flag, tag, rest :: !IsCaa(rec.value, flag, tag, rest)
      case Unsupported => true
      case _ => false
  {
    if rec.kind == CAA {
      if CaaOf(rec.value).Some? { var flag := CaaSplits(rec.value); }
      if flag, tag, rest :| IsCaa(rec.value, flag, tag, rest) { CaaReads(rec.value, flag, tag, rest); }
    }
  }

  lemma CaaReads(value: string, flag: string, tag: string, rest: string)
    requires IsCaa(value, flag, tag, rest)
    ensures CaaOf(value).Some?
  {
    var n := |flag|;
    assert value[n] == ' ' && value[..n] == flag;
    IndexOfIs(value, ' ', n);
    assert value[n + 1..] == tag + " " + rest;
    assert (tag + " " + rest)[|tag|] == ' ';
  }
}
