/**
 * CNAME exclusivity of what is served. The controller compares record names letter for letter, the server by owner
 * name in lower case; this module says exactly when the controller's check is enough.
 */
module DnsExclusivity {
  import opened Text
  import opened DnsZones
  import opened DnsLookup

  /** What the server tells record names apart by: the apex, or the name in lower case. */
  function Folded(name: string): (r: string) {
    if name == "@" || name == "" then "" else Lower(name)
  }

  // ---- Owner names ----

  function Written(name: string, zone: string): (s: string) {
    if name == "@" || name == "" then zone else name + "." + zone
  }

  lemma LowerConcat(a: string, b: string)
    ensures Lower(a + b) == Lower(a) + Lower(b)
  {
  }

  lemma LowerWritten(name: string, zone: string)
    requires name != "@" && name != ""
    ensures Lower(Written(name, zone)) == Lower(name) + ("." + Lower(zone))
  {
    LowerConcat(".", zone);
    LowerConcat(name, "." + zone);
    assert Lower(".") == ".";
    assert name + "." + zone == name + ("." + zone);
  }

  /** Whether a final dot is added depends on the zone only. */
  lemma OwnerIsWritten(name: string, zone: string)
    requires zone != ""
    ensures Lower(OwnerName(name, zone)) == Lower(Written(name, zone)) + if IsFqdn(zone) then "" else "."
  {
    OwnerIsFqdn(name, zone);
    if !IsFqdn(zone) {
      LowerConcat(Written(name, zone), ".");
      assert Lower(".") == ".";
    }
  }

  lemma PrefixesAgree(x: string, y: string, tail: string)
    ensures x + tail == y + tail <==> x == y
  {
    if x + tail == y + tail {
      assert |x| == |y|;
      assert x == (x + tail)[..|x|] && y == (y + tail)[..|y|];
    }
  }

  lemma BelowApexAgree(a: string, b: string, zone: string)
    requires a != "@" && a != "" && b != "@" && b != ""
    ensures Lower(Written(a, zone)) == Lower(Written(b, zone)) <==> Lower(a) == Lower(b)
  {
    LowerWritten(a, zone);
    LowerWritten(b, zone);
    PrefixesAgree(Lower(a), Lower(b), "." + Lower(zone));
  }

  lemma ApexDiffers(a: string, b: string, zone: string)
    requires a != "@" && a != "" && (b == "@" || b == "")
    ensures Lower(Written(a, zone)) != Lower(Written(b, zone))
  {
    assert |Lower(Written(a, zone))| > |Lower(Written(b, zone))|;
  }

  lemma WrittenAgree(a: string, b: string, zone: string)
    ensures Lower(Written(a, zone)) == Lower(Written(b, zone)) <==> Folded(a) == Folded(b)
  {
    var apexA, apexB := a == "@" || a == "", b == "@" || b == "";
    if !apexA && !apexB {
      BelowApexAgree(a, b, zone);
    } else if !apexA {
      ApexDiffers(a, b, zone);
    } else if !apexB {
      ApexDiffers(b, a, zone);
    }
  }

  /** Two records of a zone share an owner name exactly when their names fold to one. */
  lemma OwnersAgree(a: string, b: string, zone: string)
    requires zone != ""
    ensures Lower(OwnerName(a, zone)) == Lower(OwnerName(b, zone)) <==> Folded(a) == Folded(b)
  {
    OwnerIsWritten(a, zone);
    OwnerIsWritten(b, zone);
    WrittenAgree(a, b, zone);
    PrefixesAgree(Lower(Written(a, zone)), Lower(Written(b, zone)), if IsFqdn(zone) then "" else ".");
  }

  // ---- Served records ----

  /** Two records are served under one owner name although one of them is a CNAME. */
  ghost predicate ServedClash(parse: string -> Option<Parsed>, zone: Zone, x: Record, y: Record) {
    exists rr, rs ::
      && rr in Convert(parse, x, zone.name, ZoneTtl(zone.ttl)) && rs in Convert(parse, y, zone.name, ZoneTtl(zone.ttl))
      && Lower(rr.name) == Lower(rs.name) && (rr.data.CnameData? || rs.data.CnameData?)
  }

  predicate Served(parse: string -> Option<Parsed>, x: Record) {
    DataOf(parse, x).Some?
  }

  lemma ConvertIs(parse: string -> Option<Parsed>, x: Record, zone: string, ttl: nat)
    ensures Served(parse, x) <==> Convert(parse, x, zone, ttl) != []
    ensures Served(parse, x) ==>
      var rr := Convert(parse, x, zone, ttl)[0];
      rr.name == OwnerName(x.name, zone) && (rr.data.CnameData? <==> x.kind == CNAME)
  {
  }

  lemma OneConverted(parse: string -> Option<Parsed>, x: Record, zone: string, ttl: nat, rr: RR)
    requires rr in Convert(parse, x, zone, ttl)
    ensures Served(parse, x) && Lower(rr.name) == Lower(OwnerName(x.name, zone))
    ensures rr.data.CnameData? <==> x.kind == CNAME
  {
    ConvertIs(parse, x, zone, ttl);
  }

  lemma ServedClashIs(parse: string -> Option<Parsed>, zone: Zone, x: Record, y: Record)
    requires zone.name != ""
    ensures ServedClash(parse, zone, x, y) <==>
      && Served(parse, x) && Served(parse, y) && Folded(x.name) == Folded(y.name)
      && (x.kind == CNAME || y.kind == CNAME)
  {
    var ttl := ZoneTtl(zone.ttl);
    OwnersAgree(x.name, y.name, zone.name);
    if ServedClash(parse, zone, x, y) {
      var rr, rs :|
        && rr in Convert(parse, x, zone.name, ttl) && rs in Convert(parse, y, zone.name, ttl)
        && Lower(rr.name) == Lower(rs.name) && (rr.data.CnameData? || rs.data.CnameData?);
      OneConverted(parse, x, zone.name, ttl, rr);
      OneConverted(parse, y, zone.name, ttl, rs);
    }
    if Served(parse, x) && Served(parse, y) {
      ConvertIs(parse, x, zone.name, ttl);
      ConvertIs(parse, y, zone.name, ttl);
      var rr, rs := Convert(parse, x, zone.name, ttl)[0], Convert(parse, y, zone.name, ttl)[0];
      OneConverted(parse, x, zone.name, ttl, rr);
      OneConverted(parse, y, zone.name, ttl, rs);
    }
  }

  predicate InZone(s: Store, z: ZoneId, i: RecordId) {
    i in s.records && s.records[i].zone == z
  }

  ghost predicate ServedExclusive(parse: string -> Option<Parsed>, s: Store, z: ZoneId)
    requires z in s.zones
  {
    forall i, j | InZone(s, z, i) && InZone(s, z, j) && i != j ::
      !ServedClash(parse, s.zones[z], s.records[i], s.records[j])
  }

  /** Two served records whose names are spelled differently but fold to one, one of them a CNAME. */
  ghost predicate Misspelled(parse: string -> Option<Parsed>, s: Store, z: ZoneId, i: RecordId, j: RecordId) {
    && InZone(s, z, i) && InZone(s, z, j)
    && var x, y := s.records[i], s.records[j];
       && x.name != y.name && Folded(x.name) == Folded(y.name) && (x.kind == CNAME || y.kind == CNAME)
       && Served(parse, x) && Served(parse, y)
  }

  lemma PairServed(parse: string -> Option<Parsed>, s: Store, z: ZoneId, i: RecordId, j: RecordId)
    requires Exclusive(s) && z in s.zones && s.zones[z].name != "" && InZone(s, z, i) && InZone(s, z, j) && i != j
    ensures ServedClash(parse, s.zones[z], s.records[i], s.records[j]) <==> Misspelled(parse, s, z, i, j)
  {
    ServedClashIs(parse, s.zones[z], s.records[i], s.records[j]);
    assert !Clash(s.records[i], s.records[j]);
  }

  /** Under the controller's exclusivity the served records are exclusive exactly when no two names are misspelled. */
  lemma ServedExclusiveExactly(parse: string -> Option<Parsed>, s: Store, z: ZoneId)
    requires Exclusive(s) && z in s.zones && s.zones[z].name != ""
    ensures ServedExclusive(parse, s, z) <==> forall i, j :: !Misspelled(parse, s, z, i, j)
  {
    if forall i, j :: !Misspelled(parse, s, z, i, j) {
      forall i, j | InZone(s, z, i) && InZone(s, z, j) && i != j
        ensures !ServedClash(parse, s.zones[z], s.records[i], s.records[j])
      {
        PairServed(parse, s, z, i, j);
      }
    } else {
      var i, j :| Misspelled(parse, s, z, i, j);
      PairServed(parse, s, z, i, j);
    }
  }

  /** Over every run within the listing limit this decides the exclusivity of what is served. */
  lemma ServedExclusivity(parse: string -> Option<Parsed>, rules: Rules, states: seq<Store>, qs: seq<Request>,
                          envs: seq<Env>, k: nat, z: ZoneId)
    requires Execution(rules, states, qs, envs) && k < |states| && z in states[k].zones && states[k].zones[z].name != ""
    requires forall i, y | 0 <= i < k :: |ZoneRecords(states[i], y)| <= LIST_LIMIT
    ensures ServedExclusive(parse, states[k], z) <==> forall i, j :: !Misspelled(parse, states[k], z, i, j)
  {
    CnameExclusivity(rules, states, qs, envs, k);
    ServedExclusiveExactly(parse, states[k], z);
  }

  /** In particular where every name is in lower case and the apex is always written "@". */
  lemma LowerCaseNamesSuffice(parse: string -> Option<Parsed>, s: Store, z: ZoneId)
    requires Exclusive(s) && z in s.zones && s.zones[z].name != ""
    requires forall i | InZone(s, z, i) :: s.records[i].name != "" && Lower(s.records[i].name) == s.records[i].name
    ensures ServedExclusive(parse, s, z)
  {
    ServedExclusiveExactly(parse, s, z);
    forall i, j ensures !Misspelled(parse, s, z, i, j) {}
  }

  /**
   * The controller admits every record whose name is a new spelling of a CNAME's, and the two are then served
   * under one owner name.
   */
  lemma NewSpellingAdmitted(parse: string -> Option<Parsed>, rules: Rules, s: Store, id: RecordId, record: Record,
                            env: Env, held: RecordId)
    requires record.zone in s.zones && s.zones[record.zone].name != "" && rules.record(record) && id !in s.records
    requires env.listOk && env.writeOk && env.serialOk
    requires InZone(s, record.zone, held) && s.records[held].kind == CNAME && Served(parse, record)
    requires Folded(s.records[held].name) == Folded(record.name)
    requires forall i | InZone(s, record.zone, i) :: s.records[i].name != record.name
    ensures var r := Apply(rules, s, CreateRecord(id, record), env);
      r.ok && record.zone in r.store.zones && !ServedExclusive(parse, r.store, record.zone)
  {
    var t := Apply(rules, s, CreateRecord(id, record), env).store;
    assert InZone(t, record.zone, held) && InZone(t, record.zone, id);
    ServedClashIs(parse, t.zones[record.zone], t.records[held], t.records[id]);
  }
}
