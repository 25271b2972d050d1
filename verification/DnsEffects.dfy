/** What each request to the DNS service does to the stored zones and records, field by field, and when it succeeds. */
module DnsEffects {
  import opened Text
  import opened DnsZones

  /** Some other listed record of the zone has the name, and one of the two is a CNAME. */
  ghost predicate Contested(s: Store, env: Env, id: RecordId, record: Record) {
    exists i :: 0 <= i < |env.listed| && env.listed[i] in s.records && env.listed[i] != id
      && var other := s.records[env.listed[i]];
         other.zone == record.zone && other.name == record.name && (other.kind == CNAME || record.kind == CNAME)
  }

  /** Zones are as before, except that the serial of one may have gone up by one. */
  ghost predicate SerialUp(s: Store, t: Store, z: ZoneId, up: bool) {
    && t.zones.Keys == s.zones.Keys && (forall y | y in s.zones && y != z :: t.zones[y] == s.zones[y])
    && (z in s.zones ==> t.zones[z] == s.zones[z].(serial := s.zones[z].serial + if up then 1 else 0))
  }

  /** The new content can be written. */
  ghost predicate Writable(rules: Rules, s: Store, env: Env, id: RecordId, record: Record) {
    rules.record(record) && env.listOk && env.writeOk && !Contested(s, env, id, record)
  }

  lemma AdmittedIs(s: Store, env: Env, id: RecordId, record: Record)
    ensures Admitted(s, env.listed, id, record) <==> !Contested(s, env, id, record)
  {
    if Contested(s, env, id, record) {
      var i :| 0 <= i < |env.listed| && env.listed[i] in s.records && env.listed[i] != id
               && var other := s.records[env.listed[i]];
                  other.zone == record.zone && other.name == record.name
                  && (other.kind == CNAME || record.kind == CNAME);
      assert Clash(s.records[env.listed[i]], record);
    }
  }

  /** A record is created exactly as given, in an existing zone, under a new id. */
  lemma CreateRecordEffect(rules: Rules, s: Store, id: RecordId, record: Record, env: Env)
    ensures var r := Apply(rules, s, CreateRecord(id, record), env);
      var written := record.zone in s.zones && id !in s.records && Writable(rules, s, env, id, record);
      && r.store.records == (if written then s.records[id := record] else s.records)
      && (r.ok <==> written && env.serialOk) && SerialUp(s, r.store, record.zone, r.ok)
  {
    AdmittedIs(s, env, id, record);
    FinishEffect(s, s.records[id := record], record.zone, env);
  }

  /** The fields a change names have the new values, the others and the zone are as before. */
  ghost predicate Changed(old_: Record, p: RecordPatch, new_: Record) {
    && new_.zone == old_.zone
    && new_.name == (match p.name case Some(x) => x case None => old_.name)
    && new_.kind == (match p.kind case Some(x) => x case None => old_.kind)
    && new_.value == (match p.value case Some(x) => x case None => old_.value)
    && new_.ttl == (match p.ttl case Some(x) => Some(x) case None => old_.ttl)
    && new_.priority == (match p.priority case Some(x) => Some(x) case None => old_.priority)
    && new_.weight == (match p.weight case Some(x) => Some(x) case None => old_.weight)
    && new_.port == (match p.port case Some(x) => Some(x) case None => old_.port)
  }

  lemma ChangedIs(old_: Record, p: RecordPatch, new_: Record)
    requires Changed(old_, p, new_)
    ensures new_ == PatchedRecord(old_, p)
  {
  }

  lemma FinishEffect(s: Store, records: map<RecordId, Record>, z: ZoneId, env: Env)
    ensures var r := Finish(s.(records := records), z, env);
      && r.store.records == records && (r.ok <==> env.serialOk && z in s.zones) && SerialUp(s, r.store, z, r.ok)
  {
  }

  lemma UpdateRecordEffect(rules: Rules, s: Store, id: RecordId, p: RecordPatch, env: Env, new_: Record)
    requires id in s.records ==> Changed(s.records[id], p, new_)
    ensures var r := Apply(rules, s, UpdateRecord(id, p), env);
      var written := id in s.records && Writable(rules, s, env, id, new_);
      && r.store.records == (if written then s.records[id := new_] else s.records)
      && (r.ok <==> written && env.serialOk && new_.zone in s.zones) && SerialUp(s, r.store, new_.zone, r.ok)
  {
    AdmittedIs(s, env, id, new_);
    if id in s.records { ChangedIs(s.records[id], p, new_); }
    FinishEffect(s, s.records[id := new_], new_.zone, env);
    assert Apply(rules, s, UpdateRecord(id, p), env) == UpdateRecordStep(rules, s, id, p, env);
  }

  lemma DeleteRecordEffect(rules: Rules, s: Store, id: RecordId, env: Env)
    ensures var r := Apply(rules, s, DeleteRecord(id), env);
      var written := id in s.records && env.writeOk;
      && (forall i :: i in r.store.records <==> i in s.records && !(i == id && written))
      && (forall i | i in r.store.records :: r.store.records[i] == s.records[i])
      && (r.ok <==> written && env.serialOk && s.records[id].zone in s.zones)
      && (if id in s.records then SerialUp(s, r.store, s.records[id].zone, r.ok) else r.store == s)
  {
  }

  lemma CreateZoneEffect(rules: Rules, s: Store, id: ZoneId, name: string, ttl: int, group: Option<nat>,
                         transfer: seq<string>, env: Env)
    ensures var r := Apply(rules, s, CreateZone(id, name, ttl, group, transfer), env);
      && (r.ok <==> rules.zoneName(name) && rules.transfer(transfer) && id !in s.zones && env.writeOk)
      && r.store.records == s.records
      && (!r.ok ==> r.store.zones == s.zones)
      && (r.ok ==>
          && r.store.zones.Keys == s.zones.Keys + {id} && (forall z | z in s.zones :: r.store.zones[z] == s.zones[z])
          && var zone := r.store.zones[id];
             && zone.name == name && zone.status == "active" && zone.serial == 1
             && zone.ttl == (if ttl == 0 then 3600 else ttl) && zone.group == group && zone.transfer == transfer)
  {
  }

  /** The fields a change names have the new values, the others and the serial are as before. */
  ghost predicate ZoneChanged(old_: Zone, p: ZonePatch, new_: Zone) {
    && new_.serial == old_.serial
    && new_.name == (match p.name case Some(x) => x case None => old_.name)
    && new_.status == (match p.status case Some(x) => x case None => old_.status)
    && new_.ttl == (match p.ttl case Some(x) => x case None => old_.ttl)
    && new_.group == (if p.clearGroup then None else match p.group case Some(x) => Some(x) case None => old_.group)
    && new_.transfer == (match p.transfer case Some(x) => x case None => old_.transfer)
  }

  lemma UpdateZoneEffect(rules: Rules, s: Store, id: ZoneId, p: ZonePatch, env: Env)
    ensures var r := Apply(rules, s, UpdateZone(id, p), env);
      && (r.ok <==>
          && id in s.zones && env.writeOk && (p.name.Some? ==> rules.zoneName(p.name.value))
          && (p.transfer.Some? ==> rules.transfer(p.transfer.value)))
      && r.store.records == s.records && r.store.zones.Keys == s.zones.Keys
      && (forall z | z in s.zones :: if z == id && r.ok then ZoneChanged(s.zones[z], p, r.store.zones[z])
                                     else r.store.zones[z] == s.zones[z])
  {
  }

  /** A zone goes with exactly its own records. */
  lemma DeleteZoneEffect(rules: Rules, s: Store, id: ZoneId, env: Env)
    ensures var r := Apply(rules, s, DeleteZone(id), env);
      && (r.ok <==> id in s.zones && env.writeOk)
      && (forall z :: z in r.store.zones <==> z in s.zones && !(z == id && r.ok))
      && (forall z | z in r.store.zones :: r.store.zones[z] == s.zones[z])
      && (forall i :: i in r.store.records <==> i in s.records && !(s.records[i].zone == id && r.ok))
      && (forall i | i in r.store.records :: r.store.records[i] == s.records[i])
  {
  }
}
