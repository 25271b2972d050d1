/** The DNS server on a node: an index built from the configuration, and query handling against it. */
module DnsServer {
  import opened Text
  import opened DnsZones
  import opened DnsLookup

  datatype ZoneData = ZoneData(name: string, serial: nat, ttl: nat, records: map<Key, seq<RR>>)

  function Found(m: map<Key, seq<RR>>, k: Key): (rrs: seq<RR>) {
    if k in m then m[k] else []
  }

  function Added(m: map<Key, seq<RR>>, rr: RR): (r: map<Key, seq<RR>>) {
    m[KeyOf(rr) := Found(m, KeyOf(rr)) + [rr]]
  }

  /** The index after adding the records one by one. */
  function Index(rrs: seq<RR>): (m: map<Key, seq<RR>>) {
    if rrs == [] then map[] else Added(Index(rrs[..|rrs| - 1]), rrs[|rrs| - 1])
  }

  function Build(parse: string -> Option<Parsed>, z: ZoneConfig): (zd: ZoneData) {
    ZoneData(z.name, z.serial, ZoneTtl(z.ttl), Index(AllRecords(parse, z)))
  }

  /** The map after storing the first `n` values under their keys in order: of duplicates the last is kept. */
  function Stored<K, V>(keys: seq<K>, values: seq<V>, n: nat): (m: map<K, V>)
    requires n <= |keys| == |values|
  {
    if n == 0 then map[] else Stored(keys, values, n - 1)[keys[n - 1] := values[n - 1]]
  }

  function Names(config: seq<ZoneConfig>): (names: seq<string>)
    ensures |names| == |config| && forall i | 0 <= i < |config| :: names[i] == Lower(config[i].name)
  {
    seq(|config|, i requires 0 <= i < |config| => Lower(config[i].name))
  }

  function Builds(parse: string -> Option<Parsed>, config: seq<ZoneConfig>): (zds: seq<ZoneData>)
    ensures |zds| == |config| && forall i | 0 <= i < |config| :: zds[i] == Build(parse, config[i])
  {
    seq(|config|, i requires 0 <= i < |config| => Build(parse, config[i]))
  }

  /** Zone data by lower-case zone name. */
  function Table(parse: string -> Option<Parsed>, config: seq<ZoneConfig>): (m: map<string, ZoneData>) {
    Stored(Names(config), Builds(parse, config), |config|)
  }

  /** The table and the names after the first `i` zones. */
  ghost predicate ZonesBuilt(
    parse: string -> Option<Parsed>, cs: seq<ZoneConfig>, i: nat, m: map<string, ZoneData>, names: seq<string>) {
    i <= |cs| && m == Stored(Names(cs), Builds(parse, cs), i) && names == Names(cs)[..i]
  }

  lemma OneMoreZone(
    parse: string -> Option<Parsed>, cs: seq<ZoneConfig>, i: nat, m: map<string, ZoneData>, names: seq<string>)
    requires i < |cs| && ZonesBuilt(parse, cs, i, m, names)
    ensures var zd := Build(parse, cs[i]);
      ZonesBuilt(parse, cs, i + 1, m[Lower(zd.name) := zd], names + [Lower(zd.name)])
  {
    var name, zd := Lower(cs[i].name), Build(parse, cs[i]);
    StoredNext(Names(cs), Builds(parse, cs), i, name, zd);
    TakeNext(Names(cs), i, name);
  }

  lemma StoredNext<K, V>(keys: seq<K>, values: seq<V>, i: nat, k: K, v: V)
    requires i < |keys| == |values| && keys[i] == k && values[i] == v
    ensures Stored(keys, values, i + 1) == Stored(keys, values, i)[k := v]
  {
  }

  lemma TakeNext<T>(s: seq<T>, i: nat, x: T)
    requires i < |s| && s[i] == x
    ensures s[..i + 1] == s[..i] + [x]
  {
  }

  lemma AllZonesBuilt(
    parse: string -> Option<Parsed>, cs: seq<ZoneConfig>, m: map<string, ZoneData>, names: seq<string>)
    requires ZonesBuilt(parse, cs, |cs|, m, names)
    ensures m == Table(parse, cs) && names == Names(cs)
  {
    assert Names(cs)[..|cs|] == Names(cs);
  }

  ghost predicate Descending(s: seq<string>) {
    forall i, j | 0 <= i < j < |s| :: |s[i]| >= |s[j]|
  }

  // ---- The index answers like a scan ----

  lemma {:induction false} IndexIs(rrs: seq<RR>, k: Key)
    ensures Found(Index(rrs), k) == Select(rrs, k)
    ensures k in Index(rrs) <==> Select(rrs, k) != []
    decreases |rrs|
  {
    if rrs == [] {
    } else {
      IndexIs(rrs[..|rrs| - 1], k);
    }
  }

  lemma {:induction false} IndexNames(rrs: seq<RR>, name: string)
    ensures (exists k | k in Index(rrs) :: k.name == name) <==> NameExists(rrs, name)
    decreases |rrs|
  {
    if rrs == [] {
    } else {
      var front, last := rrs[..|rrs| - 1], rrs[|rrs| - 1];
      IndexNames(front, name);
      assert KeyOf(last) in Index(rrs);
      assert forall k | k in Index(front) :: k in Index(rrs);
      if NameExists(front, name) {
        var i :| 0 <= i < |front| && Lower(front[i].name) == name;
        assert rrs[i] == front[i];
      }
    }
  }

  lemma {:induction false} StoredIs<K, V>(keys: seq<K>, values: seq<V>, n: nat, b: nat)
    requires b < n <= |keys| == |values|
    requires forall i | b < i < n :: keys[i] != keys[b]
    ensures keys[b] in Stored(keys, values, n) && Stored(keys, values, n)[keys[b]] == values[b]
    decreases n
  {
    if b < n - 1 {
      StoredIs(keys, values, n - 1, b);
    }
  }

  /** The zone names in search order: longest first. */
  ghost predicate SearchOrder(sorted: seq<string>, config: seq<ZoneConfig>) {
    Descending(sorted) && multiset(sorted) == multiset(Names(config))
  }

  lemma Position(sorted: seq<string>, config: seq<ZoneConfig>, i: nat) returns (c: nat)
    requires SearchOrder(sorted, config) && i < |sorted|
    ensures c < |config| && Names(config)[c] == sorted[i]
  {
    assert sorted[i] in multiset(sorted);
    c :| 0 <= c < |Names(config)| && Names(config)[c] == sorted[i];
  }

  lemma PositionInOrder(sorted: seq<string>, config: seq<ZoneConfig>, b: nat) returns (j: nat)
    requires SearchOrder(sorted, config) && b < |config|
    ensures j < |sorted| && sorted[j] == Names(config)[b]
  {
    assert Names(config)[b] in multiset(Names(config));
    j :| 0 <= j < |sorted| && sorted[j] == Names(config)[b];
  }

  /** The best zone matches and is no shorter than any that does. */
  lemma BestIsLongest(config: seq<ZoneConfig>, qname: string, c: nat)
    requires c < |config| && Matches(Names(config)[c], qname)
    ensures var b := BestZone(config, qname);
      b.Some? && Matches(Names(config)[b.value], qname) && |Names(config)[c]| <= |Names(config)[b.value]|
  {
    BestZoneIs(config, qname, c);
  }

  /** The first match in search order is the best zone. */
  lemma FirstMatchIsBest(sorted: seq<string>, config: seq<ZoneConfig>, qname: string, i: nat)
    requires SearchOrder(sorted, config) && i < |sorted| && Matches(sorted[i], qname)
    requires forall j | 0 <= j < i :: !Matches(sorted[j], qname)
    ensures var b := BestZone(config, qname); b.Some? && Names(config)[b.value] == sorted[i]
  {
    var c := Position(sorted, config, i);
    BestIsLongest(config, qname, c);
    var b := BestZone(config, qname).value;
    var j := PositionInOrder(sorted, config, b);
    assert i <= j;
    SameLengthSameZone(sorted[i], sorted[j], qname);
  }

  lemma NoMatchNoZone(sorted: seq<string>, config: seq<ZoneConfig>, qname: string)
    requires SearchOrder(sorted, config)
    requires forall j | 0 <= j < |sorted| :: !Matches(sorted[j], qname)
    ensures BestZone(config, qname) == None
  {
    BestZoneServes(config, qname);
    var b := BestZone(config, qname);
    if b.Some? {
      var _ := PositionInOrder(sorted, config, b.value);
    }
  }

  /** The best zone's data is what the table holds under its name. */
  lemma BestZoneInTable(parse: string -> Option<Parsed>, config: seq<ZoneConfig>, qname: string)
    requires BestZone(config, qname).Some?
    ensures var b := BestZone(config, qname).value;
      Names(config)[b] in Table(parse, config) && Table(parse, config)[Names(config)[b]] == Build(parse, config[b])
  {
    BestZoneServes(config, qname);
    var b := BestZone(config, qname).value;
    var names := Names(config);
    forall i: nat | b < i < |config| ensures names[i] != names[b] {
      if Serves(config, i, qname) { BestZoneIs(config, qname, i); }
    }
    StoredIs(names, Builds(parse, config), |config|, b);
  }

  /** Insertion sort by length, longest first. */
  method SortByLengthDesc(s: array<string>)
    modifies s
    ensures Descending(s[..]) && multiset(s[..]) == multiset(old(s[..]))
  {
    var i := 1;
    while i < s.Length
      invariant 1 <= i
      invariant forall x, y | 0 <= x < y < i && y < s.Length :: |s[x]| >= |s[y]|
      invariant multiset(s[..]) == multiset(old(s[..]))
    {
      SiftUp(s, i);
      i := i + 1;
    }
  }

  /** The inner loop: element `i` moves up past the shorter ones before it. */
  method SiftUp(s: array<string>, i: nat)
    requires i < s.Length && forall x, y | 0 <= x < y < i :: |s[x]| >= |s[y]|
    modifies s
    ensures forall x, y | 0 <= x < y <= i :: |s[x]| >= |s[y]|
    ensures multiset(s[..]) == multiset(old(s[..]))
  {
    var j := i;
    while j > 0 && |s[j]| > |s[j - 1]|
      invariant 0 <= j <= i
      invariant forall x, y | 0 <= x < y <= i && y != j :: |s[x]| >= |s[y]|
      invariant multiset(s[..]) == multiset(old(s[..]))
    {
      s[j], s[j - 1] := s[j - 1], s[j];
      j := j - 1;
    }
  }

  method LongestFirst(names: seq<string>) returns (sorted: seq<string>)
    ensures Descending(sorted) && multiset(sorted) == multiset(names)
  {
    var s := new string[|names|](i requires 0 <= i < |names| => names[i]);
    assert s[..] == names;
    SortByLengthDesc(s);
    sorted := s[..];
  }

  function ZoneSoa(zd: ZoneData): (rr: RR) {
    RR(zd.name, zd.ttl, SoaData("ns1." + zd.name, "hostmaster." + zd.name, zd.serial, 3600, 900, 604800, 300))
  }

  class MiekgService {
    const parse: string -> Option<Parsed>
    var running: bool
    var zones: map<string, ZoneData>
    var sortedZones: seq<string>
    /** The configuration being served. */
    ghost var config: seq<ZoneConfig>

    ghost predicate Valid()
      reads this
    {
      && zones == Table(parse, config) && SearchOrder(sortedZones, config)
      && (!running ==> config == [])
    }

    constructor (parse: string -> Option<Parsed>)
      ensures Valid() && !running && this.parse == parse
    {
      this.parse := parse;
      running, zones, sortedZones, config := false, map[], [], [];
    }

    method Start(bindOk: bool) returns (ok: bool)
      requires Valid()
      modifies this`running
      ensures Valid() && ok == (!old(running) && bindOk) && running == (old(running) || bindOk)
    {
      if running || !bindOk {
        return false;
      }
      running := true;
      return true;
    }

    /** Stopping forgets the zones, even when a listener's shutdown reports an error. */
    method Stop(shutdownOk: bool) returns (ok: bool)
      requires Valid()
      modifies this
      ensures Valid() && !running && ok == (old(running) && shutdownOk)
    {
      if !running {
        return false;
      }
      running, zones, sortedZones, config := false, map[], [], [];
      return shutdownOk;
    }

    /** Appends records to the index under their keys. */
    static method AddRecords(records: map<Key, seq<RR>>, ghost before: seq<RR>, rrs: seq<RR>)
      returns (r: map<Key, seq<RR>>)
      requires records == Index(before)
      ensures r == Index(before + rrs)
    {
      r := records;
      assert before + rrs[..0] == before;
      for j := 0 to |rrs|
        invariant r == Index(before + rrs[..j])
      {
        assert (before + rrs[..j + 1])[..|before| + j] == before + rrs[..j];
        r := Added(r, rrs[j]);
      }
      assert rrs[..|rrs|] == rrs;
    }

    method IndexRecords(z: ZoneConfig, ttl: nat) returns (records: map<Key, seq<RR>>)
      requires ttl == ZoneTtl(z.ttl)
      ensures records == Index(AllRecords(parse, z))
    {
      records := map[];
      ghost var lists := Converted(parse, z);
      ghost var done: seq<RR> := [];
      for i := 0 to |z.records|
        invariant done == Concat(lists, i) && records == Index(done)
      {
        var rrs := Convert(parse, z.records[i], z.name, ttl);
        records := AddRecords(records, done, rrs);
        done := done + rrs;
      }
    }

    method BuildZoneData(z: ZoneConfig) returns (zd: ZoneData)
      ensures zd == Build(parse, z)
    {
      var ttl := z.ttl % 0x1_0000_0000;
      if ttl == 0 {
        ttl := 300;
      }
      var records := IndexRecords(z, ttl);
      zd := ZoneData(z.name, z.serial, ttl, records);
    }

    /** Zone data by name, and the names in configuration order. */
    method BuildZones(cs: seq<ZoneConfig>) returns (newZones: map<string, ZoneData>, names: seq<string>)
      ensures newZones == Table(parse, cs) && names == Names(cs)
    {
      newZones, names := map[], [];
      for i := 0 to |cs|
        invariant ZonesBuilt(parse, cs, i, newZones, names)
      {
        var zd := BuildZoneData(cs[i]);
        OneMoreZone(parse, cs, i, newZones, names);
        newZones := newZones[Lower(zd.name) := zd];
        names := names + [Lower(zd.name)];
      }
      AllZonesBuilt(parse, cs, newZones, names);
    }

    method Reconcile(newConfig: Option<seq<ZoneConfig>>) returns (ok: bool)
      requires Valid()
      modifies this
      ensures Valid() && running == old(running) && ok == old(running)
      ensures config == if !ok then old(config) else if newConfig.None? then [] else newConfig.value
    {
      if !running {
        return false;
      }
      var cs := if newConfig.Some? then newConfig.value else [];
      var newZones, names := BuildZones(cs);
      var sorted := LongestFirst(names);
      zones, sortedZones, config := newZones, sorted, cs;
      return true;
    }

    /** The most specific zone for a name. */
    method FindZone(qname: string) returns (zd: Option<ZoneData>)
      requires Valid()
      ensures var b := BestZone(config, qname);
        zd == if b.Some? then Some(Build(parse, config[b.value])) else None
    {
      for i := 0 to |sortedZones|
        invariant forall j | 0 <= j < i :: !Matches(sortedZones[j], qname)
      {
        var zone := sortedZones[i];
        if Matches(zone, qname) {
          FirstMatchIsBest(sortedZones, config, qname, i);
          BestZoneInTable(parse, config, qname);
          return Some(zones[zone]);
        }
      }
      NoMatchNoZone(sortedZones, config, qname);
      return None;
    }

    static method NameExistsInZone(zd: ZoneData, qname: string) returns (found: bool)
      ensures found <==> exists k | k in zd.records :: k.name == qname
    {
      var keys := zd.records.Keys;
      while keys != {}
        invariant keys <= zd.records.Keys
        invariant forall k | k in zd.records && k.name == qname :: k in keys
        decreases |keys|
      {
        var k :| k in keys;
        if k.name == qname {
          return true;
        }
        keys := keys - {k};
      }
      return false;
    }

    /** Answers from one zone's index as a scan of the zone's records would. */
    static method AnswerFrom(zd: ZoneData, ghost z: ZoneConfig, ghost all: seq<RR>, qname: string, qtype: nat)
      returns (r: Response)
      requires zd == ZoneData(z.name, z.serial, ZoneTtl(z.ttl), Index(all))
      ensures r == ZoneAnswer(z, all, qname, qtype)
    {
      IndexIs(all, Key(qname, qtype));
      IndexIs(all, Key(qname, TYPE_CNAME));
      if qtype == TYPE_AXFR {
        return Transfer(zd.name);
      }
      if qtype == TYPE_SOA {
        return Response(NO_ERROR, true, [ZoneSoa(zd)], []);
      }
      var rrs := Found(zd.records, Key(qname, qtype));
      if qtype == TYPE_NS && qname == Lower(zd.name) {
        var ns := RR(zd.name, zd.ttl, NsData("ns1." + zd.name));
        return Response(NO_ERROR, true, if |rrs| > 0 then rrs else [ns], []);
      }
      if |rrs| == 0 && qtype != TYPE_CNAME {
        var cnames := Found(zd.records, Key(qname, TYPE_CNAME));
        if |cnames| > 0 {
          SelectKeys(all, Key(qname, TYPE_CNAME), 0);
          var target := Key(Lower(cnames[0].data.target), qtype);
          IndexIs(all, target);
          return Response(NO_ERROR, true, cnames + Found(zd.records, target), []);
        }
      }
      if |rrs| > 0 {
        return Response(NO_ERROR, true, rrs, []);
      }
      IndexNames(all, qname);
      var exists_ := NameExistsInZone(zd, qname);
      return Response(if exists_ then NO_ERROR else NAME_ERROR, true, [], [ZoneSoa(zd)]);
    }

    /** Every query is answered as the configuration being served says, read by plain scans. */
    method HandleQuery(q: Option<Question>) returns (r: Response)
      requires Valid()
      ensures r == Answer(parse, config, q)
    {
      if q.None? {
        return Response(SERVER_FAILURE, true, [], []);
      }
      var qname := Lower(q.value.name);
      var zd := FindZone(qname);
      if zd.None? {
        return Response(REFUSED, false, [], []);
      }
      ghost var z := config[BestZone(config, qname).value];
      r := AnswerFrom(zd.value, z, AllRecords(parse, z), qname, q.value.qtype);
    }
  }
}
