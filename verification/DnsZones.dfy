/** The controller's DNS service: zones, records, CNAME exclusivity and the zone serial. */
module DnsZones {
  import opened Text

  type ZoneId = nat
  type RecordId = nat

  datatype RecordType = A | AAAA | CNAME | MX | TXT | NS | SRV | CAA | PTR | Unsupported

  datatype Record = Record(
    zone: ZoneId, name: string, kind: RecordType, value: string,
    ttl: Option<int>, priority: Option<int>, weight: Option<int>, port: Option<int>)

  datatype Zone = Zone(
    name: string, status: string, ttl: int, group: Option<nat>, transfer: seq<string>, serial: int)

  datatype Store = Store(zones: map<ZoneId, Zone>, records: map<RecordId, Record>)

  datatype ZonePatch = ZonePatch(
    name: Option<string>, status: Option<string>, ttl: Option<int>,
    clearGroup: bool, group: Option<nat>, transfer: Option<seq<string>>)

  datatype RecordPatch = RecordPatch(
    name: Option<string>, kind: Option<RecordType>, value: Option<string>,
    ttl: Option<int>, priority: Option<int>, weight: Option<int>, port: Option<int>)

  /** The syntax rules for names, transfer lists and record values. */
  datatype Rules = Rules(zoneName: string -> bool, transfer: seq<string> -> bool, record: Record -> bool)

  /** What the database does during one request: which calls fail, and which records the listing returns. */
  datatype Env = Env(listOk: bool, writeOk: bool, serialOk: bool, listed: seq<RecordId>)

  datatype Outcome = Outcome(store: Store, ok: bool)

  const LIST_LIMIT: nat := 10000

  ghost function ZoneRecords(s: Store, z: ZoneId): (r: map<RecordId, Record>) {
    map id | id in s.records && s.records[id].zone == z :: s.records[id]
  }

  /** A listing holds records of the zone only, and all of them when they are within the limit. */
  ghost predicate IsListing(s: Store, z: ZoneId, listed: seq<RecordId>) {
    && |listed| <= LIST_LIMIT
    && (forall i | 0 <= i < |listed| :: listed[i] in s.records && s.records[listed[i]].zone == z)
    && (|ZoneRecords(s, z)| <= LIST_LIMIT ==> forall id | id in s.records && s.records[id].zone == z :: id in listed)
  }

  /** Two records of a zone that share a name although one of them is a CNAME. */
  predicate Clash(a: Record, b: Record) {
    a.zone == b.zone && a.name == b.name && (a.kind == CNAME || b.kind == CNAME)
  }

  ghost predicate Exclusive(s: Store) {
    forall i, j | i in s.records && j in s.records && i != j :: !Clash(s.records[i], s.records[j])
  }

  /** No listed record other than `id` itself clashes with the new content. */
  ghost predicate Admitted(s: Store, listed: seq<RecordId>, id: RecordId, record: Record) {
    forall i | 0 <= i < |listed| && listed[i] in s.records && listed[i] != id :: !Clash(s.records[listed[i]], record)
  }

  // ---- The requests as functions on the store ----

  function PatchedZone(zone: Zone, p: ZonePatch): (r: Zone) {
    Zone(
      if p.name.Some? then p.name.value else zone.name,
      if p.status.Some? then p.status.value else zone.status,
      if p.ttl.Some? then p.ttl.value else zone.ttl,
      if p.clearGroup then None else if p.group.Some? then p.group else zone.group,
      if p.transfer.Some? then p.transfer.value else zone.transfer,
      zone.serial)
  }

  function PatchedRecord(record: Record, p: RecordPatch): (r: Record) {
    Record(
      record.zone,
      if p.name.Some? then p.name.value else record.name,
      if p.kind.Some? then p.kind.value else record.kind,
      if p.value.Some? then p.value.value else record.value,
      if p.ttl.Some? then p.ttl else record.ttl,
      if p.priority.Some? then p.priority else record.priority,
      if p.weight.Some? then p.weight else record.weight,
      if p.port.Some? then p.port else record.port)
  }

  predicate PatchValid(rules: Rules, p: ZonePatch) {
    (p.name.Some? ==> rules.zoneName(p.name.value)) && (p.transfer.Some? ==> rules.transfer(p.transfer.value))
  }

  /** The zone as first stored. */
  function NewZone(name: string, ttl: int, group: Option<nat>, transfer: seq<string>): (r: Zone) {
    Zone(name, "active", if ttl == 0 then 3600 else ttl, group, transfer, 1)
  }

  function Bumped(zones: map<ZoneId, Zone>, z: ZoneId): (r: map<ZoneId, Zone>)
    requires z in zones
  {
    zones[z := zones[z].(serial := zones[z].serial + 1)]
  }

  /** The record table has been written; the zone's serial follows unless that second write fails. */
  function Finish(s: Store, z: ZoneId, env: Env): (r: Outcome) {
    if env.serialOk && z in s.zones then Outcome(Store(Bumped(s.zones, z), s.records), true) else Outcome(s, false)
  }

  datatype Request =
    | CreateZone(id: ZoneId, name: string, ttl: int, group: Option<nat>, transfer: seq<string>)
    | UpdateZone(id: ZoneId, patch: ZonePatch)
    | DeleteZone(id: ZoneId)
    | CreateRecord(recordId: RecordId, record: Record)
    | UpdateRecord(recordId: RecordId, change: RecordPatch)
    | DeleteRecord(recordId: RecordId)

  ghost function CreateZoneStep(rules: Rules, s: Store, id: ZoneId, zone: Zone, env: Env): (r: Outcome) {
    if rules.zoneName(zone.name) && rules.transfer(zone.transfer) && id !in s.zones && env.writeOk
    then Outcome(s.(zones := s.zones[id := zone]), true)
    else Outcome(s, false)
  }

  ghost function UpdateZoneStep(rules: Rules, s: Store, id: ZoneId, p: ZonePatch, env: Env): (r: Outcome) {
    if id in s.zones && PatchValid(rules, p) && env.writeOk
    then Outcome(s.(zones := s.zones[id := PatchedZone(s.zones[id], p)]), true)
    else Outcome(s, false)
  }

  /** Deleting a zone deletes its records with it. */
  ghost function DeleteZoneStep(s: Store, id: ZoneId, env: Env): (r: Outcome) {
    if id in s.zones && env.writeOk
    then Outcome(Store(s.zones - {id}, s.records - ZoneRecords(s, id).Keys), true)
    else Outcome(s, false)
  }

  ghost function CreateRecordStep(rules: Rules, s: Store, id: RecordId, record: Record, env: Env): (r: Outcome) {
    if record.zone in s.zones && rules.record(record) && env.listOk && Admitted(s, env.listed, id, record)
       && id !in s.records && env.writeOk
    then Finish(s.(records := s.records[id := record]), record.zone, env)
    else Outcome(s, false)
  }

  ghost function UpdateRecordStep(rules: Rules, s: Store, id: RecordId, p: RecordPatch, env: Env): (r: Outcome) {
    if id !in s.records then Outcome(s, false)
    else
      var record := PatchedRecord(s.records[id], p);
      if rules.record(record) && env.listOk && Admitted(s, env.listed, id, record) && env.writeOk
      then Finish(s.(records := s.records[id := record]), record.zone, env)
      else Outcome(s, false)
  }

  ghost function DeleteRecordStep(s: Store, id: RecordId, env: Env): (r: Outcome) {
    if id in s.records && env.writeOk then Finish(s.(records := s.records - {id}), s.records[id].zone, env)
    else Outcome(s, false)
  }

  ghost function Apply(rules: Rules, s: Store, q: Request, env: Env): (r: Outcome) {
    match q
    case CreateZone(id, name, ttl, group, transfer) =>
      CreateZoneStep(rules, s, id, NewZone(name, ttl, group, transfer), env)
    case UpdateZone(id, p) => UpdateZoneStep(rules, s, id, p, env)
    case DeleteZone(id) => DeleteZoneStep(s, id, env)
    case CreateRecord(id, record) => CreateRecordStep(rules, s, id, record, env)
    case UpdateRecord(id, p) => UpdateRecordStep(rules, s, id, p, env)
    case DeleteRecord(id) => DeleteRecordStep(s, id, env)
  }

  /** The zone whose listing the request reads, when it reads one. */
  ghost predicate Listed(s: Store, q: Request, z: ZoneId) {
    match q
    case CreateRecord(_, record) => z == record.zone
    case UpdateRecord(id, _) => id in s.records && z == s.records[id].zone
    case _ => false
  }

  ghost predicate Allowed(s: Store, q: Request, env: Env) {
    forall z | Listed(s, q, z) :: IsListing(s, z, env.listed)
  }

  /** The request changes the records of zone `z` and reports success. */
  ghost predicate Mutates(rules: Rules, s: Store, q: Request, env: Env, z: ZoneId) {
    && Apply(rules, s, q, env).ok
    && match q
       case CreateRecord(_, record) => record.zone == z
       case UpdateRecord(id, _) => id in s.records && s.records[id].zone == z
       case DeleteRecord(id) => id in s.records && s.records[id].zone == z
       case _ => false
  }

  // ---- CNAME exclusivity ----

  /** Writing admitted content keeps exclusivity exactly when no unlisted record clashes with it. */
  lemma WriteExclusive(s: Store, listed: seq<RecordId>, id: RecordId, record: Record)
    requires Exclusive(s) && Admitted(s, listed, id, record)
    ensures Exclusive(s.(records := s.records[id := record])) <==>
      forall i | i in s.records && i != id && i !in listed :: !Clash(s.records[i], record)
  {
    var r := s.records[id := record];
    if forall i | i in s.records && i != id && i !in listed :: !Clash(s.records[i], record) {
      forall i | i in s.records && i != id ensures !Clash(s.records[i], record) {
        if i in listed {
          var k :| 0 <= k < |listed| && listed[k] == i;
        }
      }
      assert Exclusive(Store(s.zones, r));
    } else {
      var i :| i in s.records && i != id && i !in listed && Clash(s.records[i], record);
      assert Clash(r[i], r[id]);
    }
  }

  lemma FewerExclusive(s: Store, t: Store)
    requires Exclusive(s) && forall id | id in t.records :: id in s.records && t.records[id] == s.records[id]
    ensures Exclusive(t)
  {
  }

  /** A request keeps exclusivity when every zone is within the listing limit. */
  lemma RequestKeepsExclusive(rules: Rules, s: Store, q: Request, env: Env)
    requires Exclusive(s) && Allowed(s, q, env)
    requires forall z :: |ZoneRecords(s, z)| <= LIST_LIMIT
    ensures Exclusive(Apply(rules, s, q, env).store)
  {
    match q
    case CreateRecord(id, record) =>
      assert Listed(s, q, record.zone);
      if Admitted(s, env.listed, id, record) { WriteExclusive(s, env.listed, id, record); }
    case UpdateRecord(id, p) =>
      if id in s.records {
        var record := PatchedRecord(s.records[id], p);
        assert Listed(s, q, record.zone);
        if Admitted(s, env.listed, id, record) { WriteExclusive(s, env.listed, id, record); }
      }
    case _ => FewerExclusive(s, Apply(rules, s, q, env).store);
  }

  /**
   * Past the limit the check no longer sees every record: at a name held only by unlisted records a CNAME is
   * admitted, and exclusivity is lost.
   */
  lemma UnlistedNameAdmitsCname(rules: Rules, s: Store, id: RecordId, record: Record, env: Env, hidden: RecordId)
    requires record.kind == CNAME && record.zone in s.zones && rules.record(record) && id !in s.records
    requires env.listOk && env.writeOk && IsListing(s, record.zone, env.listed)
    requires hidden in s.records && s.records[hidden].zone == record.zone && s.records[hidden].name == record.name
    requires forall i | 0 <= i < |env.listed| :: s.records[env.listed[i]].name != record.name
    ensures |ZoneRecords(s, record.zone)| > LIST_LIMIT
    ensures !Exclusive(Apply(rules, s, CreateRecord(id, record), env).store)
  {
    var r := Apply(rules, s, CreateRecord(id, record), env).store.records;
    assert Clash(r[hidden], r[id]);
  }

  // ---- The serial ----

  lemma SerialFollows(rules: Rules, s: Store, q: Request, env: Env, z: ZoneId)
    requires z in s.zones && z in Apply(rules, s, q, env).store.zones
    ensures var t := Apply(rules, s, q, env).store;
      t.zones[z].serial == s.zones[z].serial + if Mutates(rules, s, q, env, z) then 1 else 0
  {
  }

  /** The serial has not gone back, and where it is unchanged so are the zone's records. */
  ghost predicate Shows(s: Store, t: Store, z: ZoneId) {
    && z in s.zones && z in t.zones && s.zones[z].serial <= t.zones[z].serial
    && (s.zones[z].serial == t.zones[z].serial ==> ZoneRecords(s, z) == ZoneRecords(t, z))
  }

  lemma ShowsTransitive(s: Store, t: Store, u: Store, z: ZoneId)
    requires Shows(s, t, z) && Shows(t, u, z)
    ensures Shows(s, u, z)
  {
  }

  /** A change of a zone's records shows in its serial unless the serial write failed. */
  lemma ChangeShows(rules: Rules, s: Store, q: Request, env: Env, z: ZoneId)
    requires z in s.zones && z in Apply(rules, s, q, env).store.zones && env.serialOk
    ensures Shows(s, Apply(rules, s, q, env).store, z)
  {
    SerialFollows(rules, s, q, env, z);
  }

  // ---- Runs ----

  ghost predicate Execution(rules: Rules, states: seq<Store>, qs: seq<Request>, envs: seq<Env>) {
    && |states| == |qs| + 1 && |envs| == |qs| && states[0] == Store(map[], map[])
    && forall k | 0 <= k < |qs| ::
         Allowed(states[k], qs[k], envs[k]) && states[k + 1] == Apply(rules, states[k], qs[k], envs[k]).store
  }

  /** Over every run whose zones stay within the listing limit, no record shares its name with a CNAME. */
  lemma {:induction false} CnameExclusivity(rules: Rules, states: seq<Store>, qs: seq<Request>, envs: seq<Env>, k: nat)
    requires Execution(rules, states, qs, envs) && k < |states|
    requires forall i, z | 0 <= i < k :: |ZoneRecords(states[i], z)| <= LIST_LIMIT
    ensures Exclusive(states[k])
    decreases k
  {
    if k == 0 {
    } else {
      CnameExclusivity(rules, states, qs, envs, k - 1);
      RequestKeepsExclusive(rules, states[k - 1], qs[k - 1], envs[k - 1]);
    }
  }

  /** Successful record mutations of the zone since it was last created. */
  ghost function Mutations(
    rules: Rules, states: seq<Store>, qs: seq<Request>, envs: seq<Env>, z: ZoneId, k: nat): (n: nat)
    requires |states| == |qs| + 1 && |envs| == |qs| && k < |states|
  {
    if k == 0 || z !in states[k - 1].zones then 0
    else
      Mutations(rules, states, qs, envs, z, k - 1) +
      if Mutates(rules, states[k - 1], qs[k - 1], envs[k - 1], z) then 1 else 0
  }

  lemma CreatedWithSerialOne(rules: Rules, s: Store, q: Request, env: Env, z: ZoneId)
    requires z !in s.zones && z in Apply(rules, s, q, env).store.zones
    ensures Apply(rules, s, q, env).store.zones[z].serial == 1
  {
  }

  /** A zone's serial is one more than its successful record mutations; zone updates never touch it. */
  lemma {:induction false} SerialCountsMutations(
    rules: Rules, states: seq<Store>, qs: seq<Request>, envs: seq<Env>, z: ZoneId, k: nat)
    requires Execution(rules, states, qs, envs) && k < |states| && z in states[k].zones
    ensures states[k].zones[z].serial == 1 + Mutations(rules, states, qs, envs, z, k)
    decreases k
  {
    if z in states[k - 1].zones {
      SerialCountsMutations(rules, states, qs, envs, z, k - 1);
      SerialFollows(rules, states[k - 1], qs[k - 1], envs[k - 1], z);
    } else {
      CreatedWithSerialOne(rules, states[k - 1], qs[k - 1], envs[k - 1], z);
    }
  }

  ghost predicate ShowsAt(states: seq<Store>, z: ZoneId, m: nat) {
    m + 1 < |states| && Shows(states[m], states[m + 1], z)
  }

  lemma StepShows(rules: Rules, states: seq<Store>, qs: seq<Request>, envs: seq<Env>, z: ZoneId, m: nat)
    requires Execution(rules, states, qs, envs) && m < |qs| && envs[m].serialOk
    requires z in states[m].zones && z in states[m + 1].zones
    ensures ShowsAt(states, z, m)
  {
    ChangeShows(rules, states[m], qs[m], envs[m], z);
  }

  lemma {:induction false} ShowsAlong(states: seq<Store>, z: ZoneId, i: nat, j: nat)
    requires i <= j < |states| && z in states[i].zones
    requires forall m: nat | i <= m < j :: ShowsAt(states, z, m)
    ensures Shows(states[i], states[j], z)
    decreases j
  {
    if i < j {
      ShowsAlong(states, z, i, j - 1);
      assert ShowsAt(states, z, j - 1);
      ShowsTransitive(states[i], states[j - 1], states[j], z);
    }
  }

  /** While no serial write fails, a zone seen twice with the same serial has the same records. */
  lemma SameSerialSameRecords(
    rules: Rules, states: seq<Store>, qs: seq<Request>, envs: seq<Env>, z: ZoneId, i: nat, j: nat)
    requires Execution(rules, states, qs, envs) && i <= j < |states|
    requires forall m | i <= m <= j :: z in states[m].zones
    requires forall m | i <= m < j :: envs[m].serialOk
    ensures Shows(states[i], states[j], z)
  {
    forall m: nat | i <= m < j ensures ShowsAt(states, z, m) {
      StepShows(rules, states, qs, envs, z, m);
    }
    ShowsAlong(states, z, i, j);
  }

  // ---- The service ----

  class DnsService {
    const rules: Rules
    var zones: map<ZoneId, Zone>
    var records: map<RecordId, Record>

    constructor (rules: Rules)
      ensures this.rules == rules && View() == Store(map[], map[])
    {
      this.rules := rules;
      zones, records := map[], map[];
    }

    function View(): (s: Store)
      reads this
    {
      Store(zones, records)
    }

    /** The two passes of the exclusivity check over a listing. */
    method CheckCnameExclusivity(listed: seq<RecordId>, id: RecordId, record: Record) returns (ok: bool)
      requires IsListing(View(), record.zone, listed)
      ensures ok == Admitted(View(), listed, id, record)
    {
      if record.kind == CNAME {
        for i := 0 to |listed|
          invariant forall k | 0 <= k < i && listed[k] != id :: records[listed[k]].name != record.name
        {
          if records[listed[i]].name == record.name && listed[i] != id {
            assert Clash(records[listed[i]], record);
            return false;
          }
        }
      }
      for i := 0 to |listed|
        invariant record.kind == CNAME ==>
          forall k | 0 <= k < |listed| && listed[k] != id :: records[listed[k]].name != record.name
        invariant forall k | 0 <= k < i && listed[k] != id :: !Clash(records[listed[k]], record)
      {
        var r := records[listed[i]];
        if r.name == record.name && r.kind == CNAME && listed[i] != id {
          assert Clash(r, record);
          return false;
        }
      }
      return true;
    }

    method IncrementSerial(z: ZoneId, env: Env) returns (ok: bool)
      modifies this`zones
      ensures Outcome(View(), ok) == Finish(old(View()), z, env)
    {
      if !env.serialOk || z !in zones {
        return false;
      }
      zones := Bumped(zones, z);
      return true;
    }

    method CreateZone(id: ZoneId, name: string, ttl: int, group: Option<nat>, transfer: seq<string>, env: Env)
      returns (ok: bool)
      modifies this`zones
      ensures Outcome(View(), ok) == Apply(rules, old(View()), Request.CreateZone(id, name, ttl, group, transfer), env)
    {
      if !rules.zoneName(name) || !rules.transfer(transfer) || id in zones || !env.writeOk {
        return false;
      }
      zones := zones[id := NewZone(name, ttl, group, transfer)];
      return true;
    }

    method UpdateZone(id: ZoneId, p: ZonePatch, env: Env) returns (ok: bool)
      modifies this`zones
      ensures Outcome(View(), ok) == Apply(rules, old(View()), Request.UpdateZone(id, p), env)
    {
      if id !in zones {
        return false;
      }
      var zone := zones[id];
      if p.name.Some? {
        if !rules.zoneName(p.name.value) {
          return false;
        }
        zone := zone.(name := p.name.value);
      }
      if p.status.Some? {
        zone := zone.(status := p.status.value);
      }
      if p.ttl.Some? {
        zone := zone.(ttl := p.ttl.value);
      }
      if p.clearGroup {
        zone := zone.(group := None);
      } else if p.group.Some? {
        zone := zone.(group := p.group);
      }
      if p.transfer.Some? {
        if !rules.transfer(p.transfer.value) {
          return false;
        }
        zone := zone.(transfer := p.transfer.value);
      }
      if !env.writeOk {
        return false;
      }
      zones := zones[id := zone];
      return true;
    }

    method DeleteZone(id: ZoneId, env: Env) returns (ok: bool)
      modifies this
      ensures Outcome(View(), ok) == Apply(rules, old(View()), Request.DeleteZone(id), env)
    {
      if id !in zones || !env.writeOk {
        return false;
      }
      zones := zones - {id};
      var kept := map r | r in records && records[r].zone != id :: records[r];
      assert kept == records - ZoneRecords(View(), id).Keys;
      records := kept;
      return true;
    }

    method CreateRecord(id: RecordId, record: Record, env: Env) returns (ok: bool)
      requires Allowed(View(), Request.CreateRecord(id, record), env)
      modifies this
      ensures Outcome(View(), ok) == Apply(rules, old(View()), Request.CreateRecord(id, record), env)
    {
      assert Listed(View(), Request.CreateRecord(id, record), record.zone);
      if record.zone !in zones || !rules.record(record) || !env.listOk {
        return false;
      }
      var admitted := CheckCnameExclusivity(env.listed, id, record);
      if !admitted || id in records || !env.writeOk {
        return false;
      }
      records := records[id := record];
      ok := IncrementSerial(record.zone, env);
    }

    /** Overwrites the fields a request names. */
    static method Patch(original: Record, p: RecordPatch) returns (record: Record)
      ensures record == PatchedRecord(original, p)
    {
      record := original;
      if p.name.Some? {
        record := record.(name := p.name.value);
      }
      if p.kind.Some? {
        record := record.(kind := p.kind.value);
      }
      if p.value.Some? {
        record := record.(value := p.value.value);
      }
      if p.ttl.Some? {
        record := record.(ttl := p.ttl);
      }
      if p.priority.Some? {
        record := record.(priority := p.priority);
      }
      if p.weight.Some? {
        record := record.(weight := p.weight);
      }
      if p.port.Some? {
        record := record.(port := p.port);
      }
    }

    method UpdateRecord(id: RecordId, p: RecordPatch, env: Env) returns (ok: bool)
      requires Allowed(View(), Request.UpdateRecord(id, p), env)
      modifies this
      ensures Outcome(View(), ok) == Apply(rules, old(View()), Request.UpdateRecord(id, p), env)
    {
      if id !in records {
        return false;
      }
      var record := records[id];
      assert Listed(View(), Request.UpdateRecord(id, p), record.zone);
      record := Patch(record, p);
      if !rules.record(record) || !env.listOk {
        return false;
      }
      var admitted := CheckCnameExclusivity(env.listed, id, record);
      if !admitted || !env.writeOk {
        return false;
      }
      records := records[id := record];
      ok := IncrementSerial(record.zone, env);
    }

    method DeleteRecord(id: RecordId, env: Env) returns (ok: bool)
      modifies this
      ensures Outcome(View(), ok) == Apply(rules, old(View()), Request.DeleteRecord(id), env)
    {
      if id !in records || !env.writeOk {
        return false;
      }
      var z := records[id].zone;
      records := records - {id};
      ok := IncrementSerial(z, env);
    }
  }
}
