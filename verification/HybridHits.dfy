/** What the two-tier cache is for: entries move between the tiers without getting lost, and are found again. */
module HybridHits {
  import opened Text
  import opened CacheModel
  import opened HybridCache
  import Near = MemoryHits
  import Disk = DiskCache

  // ---- The effect of one call ----

  /** Keys are distinct in memory, disk entries are filed under their keys, and all can be cached. */
  ghost predicate Tidy(t: Tiers) {
    && DistinctKeys(t.memory) && (forall x | x in t.memory :: Cacheable(x.payload))
    && (forall k | k in t.disk :: t.disk[k].key == k && Cacheable(t.disk[k].payload))
  }

  /** A slot of memory is still there, or on disk as of the spill when that is written. */
  ghost predicate KeptOrSpilled(x: Slot, r: Tiers, env: Env) {
    || x in r.memory
    || env.writeFault.Any()
    || (x.key in r.disk && r.disk[x.key] == Slot(x.key, x.payload, env.atSpill, x.ttl))
  }

  /** An entry of disk is still there, unless it is evicted for room or an evicted memory entry replaces it. */
  ghost predicate KeptOnDisk(k: string, t: Tiers, r: Tiers, env: Env)
    requires k in t.disk
  {
    || (k in r.disk && r.disk[k] == t.disk[k])
    || k in env.gone
    || (exists x :: x in t.memory && x !in r.memory && x.key == k)
  }

  /** Storing puts the slot in front of memory; what it displaces goes to disk. */
  lemma StoreEffect(t: Tiers, limits: Limits, slot: Slot, env: Env)
    requires Tidy(t) && Cacheable(slot.payload) && 0 < limits.maxEntries
    ensures var r := Store(t, limits, slot, env);
      && r.memory != [] && r.memory[0] == slot
      && (forall x | x in t.memory && x.key != slot.key :: KeptOrSpilled(x, r, env))
      && (forall k | k in t.disk :: KeptOnDisk(k, t, r, env))
      && (forall x | x in r.memory :: x == slot || x in t.memory)
  {
    var put := RecencyPut(t.memory, limits.maxEntries, slot);
    var r := Store(t, limits, slot, env);
    WithoutMembers(t.memory, slot.key);
    if put.evicted != [] {
      EvictEffect(t, limits, slot, env);
    }
  }

  lemma EvictEffect(t: Tiers, limits: Limits, slot: Slot, env: Env)
    requires Tidy(t) && Cacheable(slot.payload) && RecencyPut(t.memory, limits.maxEntries, slot).evicted != []
    ensures var r := Store(t, limits, slot, env);
      && (forall x | x in t.memory && x.key != slot.key :: KeptOrSpilled(x, r, env))
      && (forall k | k in t.disk :: KeptOnDisk(k, t, r, env))
      && (forall x | x in r.memory :: x == slot || x in t.memory)
  {
    var r, n := Store(t, limits, slot, env), |t.memory| - 1;
    var y := t.memory[n];
    assert y in t.memory && r.memory == [slot] + t.memory[..n];
    HasIs(t.memory, slot.key);
    forall x | x in t.memory ensures x in t.memory[..n] || x == y { InitAndLast(t.memory, x); }
    assert y !in r.memory;
    forall k | k in t.disk ensures KeptOnDisk(k, t, r, env) {
      assert k == y.key || k in env.gone || (k in r.disk && r.disk[k] == t.disk[k]);
    }
  }

  /** Memory does not serve the key. */
  predicate MissesMemory(t: Tiers, key: string, env: Env) {
    Has(t.memory, key) ==>
      var m := CacheModel.Lookup(t.memory, key); Expired(m.storedAt, m.ttl, env.atMemory)
  }

  /** Disk can serve the key. */
  predicate LiveOnDisk(t: Tiers, key: string, env: Env) {
    && key in t.disk && !Expired(t.disk[key].storedAt, t.disk[key].ttl, env.atDisk)
    && !env.readFault.meta && !env.readFault.body
  }

  lemma DropTidy(t: Tiers, key: string)
    requires Tidy(t)
    ensures Tidy(t.(memory := Without(t.memory, key)))
    ensures forall x :: x in Without(t.memory, key) <==> x in t.memory && x.key != key
  {
    WithoutMembers(t.memory, key);
    WithoutIs(t.memory, key);
  }

  lemma PromoteEffect(t: Tiers, limits: Limits, key: string, env: Env)
    requires Tidy(t) && 0 < limits.maxEntries && LiveOnDisk(t, key, env)
    ensures var r, d := Promote(t, limits, key, env), t.disk[key];
      && r.hit == Some(d) && r.tiers.memory != []
      && r.tiers.memory[0] == Slot(key, d.payload, env.atStore, d.ttl) && key !in r.tiers.disk
      && (forall x | x in t.memory && x.key != key :: KeptOrSpilled(x, r.tiers, env))
      && (forall k | k in t.disk && k != key :: KeptOnDisk(k, t, r.tiers, env))
  {
    var d := t.disk[key];
    var slot := d.(storedAt := env.atStore);
    StoreEffect(t, limits, slot, env);
    var s, r := Store(t, limits, slot, env), Promote(t, limits, key, env).tiers;
    assert r == s.(disk := s.disk - {key});
    forall x | x in t.memory && x.key != key ensures KeptOrSpilled(x, r, env) {
      assert KeptOrSpilled(x, s, env);
    }
    forall k | k in t.disk && k != key ensures KeptOnDisk(k, t, r, env) {
      assert KeptOnDisk(k, t, s, env);
    }
  }

  /**
   * A get that memory does not serve while disk can: it hits with the entry on disk, which moves to the front of memory
   * and off disk, and no other entry is lost but by the policies of the tiers and failed writes.
   */
  lemma DiskHitEffect(t: Tiers, limits: Limits, key: string, env: Env)
    requires Tidy(t) && 0 < limits.maxEntries && MissesMemory(t, key, env) && LiveOnDisk(t, key, env)
    ensures var r, d := NextGet(t, limits, key, env), t.disk[key];
      && r.hit == Some(d) && r.tiers.memory != []
      && r.tiers.memory[0] == Slot(key, d.payload, env.atStore, d.ttl) && key !in r.tiers.disk
      && (forall x | x in t.memory && x.key != key :: KeptOrSpilled(x, r.tiers, env))
      && (forall k | k in t.disk && k != key :: KeptOnDisk(k, t, r.tiers, env))
  {
    if Has(t.memory, key) {
      DropTidy(t, key);
      var u := t.(memory := Without(t.memory, key));
      PromoteEffect(u, limits, key, env);
      var r := NextGet(t, limits, key, env).tiers;
      forall k | k in t.disk && k != key ensures KeptOnDisk(k, t, r, env) { assert KeptOnDisk(k, u, r, env); }
    } else {
      PromoteEffect(t, limits, key, env);
    }
  }

  /** A get that memory serves moves the entry to the front and changes nothing else. */
  lemma MemoryHitEffect(t: Tiers, limits: Limits, key: string, env: Env)
    requires Tidy(t) && !MissesMemory(t, key, env)
    ensures var r, m := NextGet(t, limits, key, env), CacheModel.Lookup(t.memory, key);
      && r.hit == Some(m) && r.tiers.memory != [] && r.tiers.memory[0] == m && r.tiers.disk == t.disk
      && (forall x :: x in r.tiers.memory <==> x in t.memory)
  {
    WithoutMembers(t.memory, key);
    var m := CacheModel.Lookup(t.memory, key);
    forall x | x in t.memory && x.key == key ensures x == m { LookupIs(t.memory, x); }
  }

  /** A get that neither tier serves misses, and drops what it found dead. */
  lemma MissEffect(t: Tiers, limits: Limits, key: string, env: Env)
    requires Tidy(t) && MissesMemory(t, key, env) && !LiveOnDisk(t, key, env)
    ensures var r := NextGet(t, limits, key, env);
      && r.hit == None && !Has(r.tiers.memory, key) && r.tiers.disk == t.disk - {key}
      && (forall x :: x in r.tiers.memory <==> x in t.memory && x.key != key)
  {
    DropTidy(t, key);
    WithoutIs(t.memory, key);
    HasIs(t.memory, key);
    assert key !in t.disk ==> t.disk - {key} == t.disk;
  }

  /** A put of a response that can be cached stores it in front of memory; any other changes nothing. */
  lemma PutEffect(t: Tiers, limits: Limits, key: string, payload: Payload, ttl: int, env: Env)
    requires Tidy(t) && 0 < limits.maxEntries
    ensures var r := Next(t, limits, Call(Put(key, payload, ttl), env)).tiers;
      if !Cacheable(payload) then r == t
      else
        && r.memory != [] && r.memory[0] == Slot(key, payload, env.atStore, ttl)
        && (forall x | x in t.memory && x.key != key :: KeptOrSpilled(x, r, env))
        && (forall k | k in t.disk :: KeptOnDisk(k, t, r, env))
  {
    if Cacheable(payload) { StoreEffect(t, limits, Slot(key, payload, env.atStore, ttl), env); }
  }

  // ---- Runs ----

  lemma PutTidy(s: seq<Slot>, max: int, slot: Slot)
    requires DistinctKeys(s) && forall x | x in s :: Cacheable(x.payload)
    ensures var put := RecencyPut(s, max, slot);
      DistinctKeys(put.slots) && (forall x | x in put.slots || x in put.evicted :: Cacheable(x.payload))
  {
    var put := RecencyPut(s, max, slot);
    WithoutMembers(s, slot.key);
    WithoutIs(s, slot.key);
    if !Cacheable(slot.payload) {
    } else if Has(s, slot.key) {
      PushFront(slot, Without(s, slot.key));
    } else if put.evicted == [] {
      PushFront(slot, s);
    } else {
      HasIs(s, slot.key);
      HasIs(s[..|s| - 1], slot.key);
      PushFront(slot, s[..|s| - 1]);
      assert s[|s| - 1] in s;
    }
  }

  lemma StoreTidy(t: Tiers, limits: Limits, slot: Slot, env: Env)
    requires Tidy(t)
    ensures Tidy(Store(t, limits, slot, env))
  {
    PutTidy(t.memory, limits.maxEntries, slot);
  }

  lemma GetTidy(t: Tiers, limits: Limits, key: string, env: Env)
    requires Tidy(t)
    ensures Tidy(NextGet(t, limits, key, env).tiers)
  {
    DropTidy(t, key);
    var mem := RecencyGet(t.memory, key, env.atMemory);
    if mem.hit.Some? {
      WithoutIs(t.memory, key);
      PushFront(mem.hit.value, Without(t.memory, key));
    } else {
      var u := t.(memory := mem.slots);
      var dsk := Disk.AfterGet(u.disk, key, env.atDisk, env.readFault);
      assert Tidy(u.(disk := dsk.contents));
      if dsk.hit.Some? {
        StoreTidy(u.(disk := dsk.contents), limits, dsk.hit.value.(storedAt := env.atStore), env);
      }
    }
  }

  lemma NextTidy(t: Tiers, limits: Limits, call: Call)
    requires Tidy(t)
    ensures Tidy(Next(t, limits, call).tiers)
  {
    match call.op
    case Get(key) => GetTidy(t, limits, key, call.env);
    case Put(key, payload, ttl) => StoreTidy(t, limits, Slot(key, payload, call.env.atStore, ttl), call.env);
    case Purge =>
  }

  lemma {:induction false} RunTidy(limits: Limits, calls: seq<Call>)
    ensures Tidy(Run(limits, calls))
    decreases |calls|
  {
    if calls == [] {
    } else {
      RunTidy(limits, calls[..|calls| - 1]);
      NextTidy(Run(limits, calls[..|calls| - 1]), limits, calls[|calls| - 1]);
    }
  }

  function KeyOf(op: Op): (key: string)
    requires !op.Purge?
  {
    match op case Put(key, _, _) => key case Get(key) => key
  }

  /** The keys that calls `i..j` ask for or store. */
  function KeysIn(calls: seq<Call>, i: nat, j: nat): (keys: set<string>)
    requires i <= j <= |calls| && forall k | i <= k < j :: !calls[k].op.Purge?
  {
    if i == j then {} else KeysIn(calls, i, j - 1) + {KeyOf(calls[j - 1].op)}
  }

  /** Calls `i..j` use other keys only, and fewer than memory has room for. */
  ghost predicate FewOthers(max: int, calls: seq<Call>, i: nat, j: nat, key: string) {
    && i <= j <= |calls| && (forall k | i <= k < j :: !calls[k].op.Purge? && KeyOf(calls[k].op) != key)
    && |KeysIn(calls, i, j)| < max
  }

  /** The memory entry lies deeper by at most the key of the call. */
  lemma NearNext(t: Tiers, limits: Limits, x: Slot, used: set<string>, call: Call)
    requires Tidy(t) && Near.Near(t.memory, x, used) && !call.op.Purge? && KeyOf(call.op) != x.key
    requires |used + {KeyOf(call.op)}| < limits.maxEntries
    ensures Near.Near(Next(t, limits, call).tiers.memory, x, used + {KeyOf(call.op)})
  {
    match call.op
    case Get(key) => NearNextGet(t, limits, x, used, key, call.env);
    case Put(key, payload, ttl) =>
      Near.NearPut(t.memory, x, used, limits.maxEntries, Slot(key, payload, call.env.atStore, ttl));
  }

  lemma NearNextGet(t: Tiers, limits: Limits, x: Slot, used: set<string>, key: string, env: Env)
    requires Tidy(t) && Near.Near(t.memory, x, used) && key != x.key && |used + {key}| < limits.maxEntries
    ensures Near.Near(NextGet(t, limits, key, env).tiers.memory, x, used + {key})
  {
    var mem := RecencyGet(t.memory, key, env.atMemory);
    Near.NearGet(t.memory, x, used, key, env.atMemory);
    var dsk := Disk.AfterGet(t.disk, key, env.atDisk, env.readFault);
    if mem.hit.None? && dsk.hit.Some? {
      DropTidy(t, key);
      var slot := dsk.hit.value.(storedAt := env.atStore);
      assert slot.key == key && used + {key} + {key} == used + {key};
      Near.NearPut(mem.slots, x, used + {key}, limits.maxEntries, slot);
    }
  }

  /** After call `j` the entry lies in memory behind what calls `i..j` used. */
  ghost predicate Kept(limits: Limits, calls: seq<Call>, i: nat, j: nat, x: Slot)
    requires FewOthers(limits.maxEntries, calls, i, j, x.key)
  {
    Near.Near(Run(limits, calls[..j]).memory, x, KeysIn(calls, i, j))
  }

  lemma RunOneMore(limits: Limits, calls: seq<Call>, j: nat)
    requires j < |calls|
    ensures Run(limits, calls[..j + 1]) == Next(Run(limits, calls[..j]), limits, calls[j]).tiers
  {
    assert calls[..j + 1][..j] == calls[..j];
  }

  lemma KeptStep(limits: Limits, calls: seq<Call>, i: nat, j: nat, x: Slot)
    requires i <= j < |calls| && FewOthers(limits.maxEntries, calls, i, j, x.key)
    requires FewOthers(limits.maxEntries, calls, i, j + 1, x.key) && Kept(limits, calls, i, j, x)
    ensures Kept(limits, calls, i, j + 1, x)
  {
    var t, used, call := Run(limits, calls[..j]), KeysIn(calls, i, j), calls[j];
    RunTidy(limits, calls[..j]);
    RunOneMore(limits, calls, j);
    assert KeysIn(calls, i, j + 1) == used + {KeyOf(call.op)};
    NearNext(t, limits, x, used, call);
  }

  lemma FewerOthers(max: int, calls: seq<Call>, i: nat, j: nat, key: string)
    requires i <= j < |calls| && FewOthers(max, calls, i, j + 1, key)
    ensures FewOthers(max, calls, i, j, key)
  {
    SubsetSize(KeysIn(calls, i, j), KeysIn(calls, i, j + 1));
  }

  lemma {:induction false} StaysKept(limits: Limits, calls: seq<Call>, i: nat, j: nat, x: Slot)
    requires FewOthers(limits.maxEntries, calls, i, j, x.key) && FewOthers(limits.maxEntries, calls, i, i, x.key)
    requires Kept(limits, calls, i, i, x)
    ensures Kept(limits, calls, i, j, x)
    decreases j
  {
    if i == j {
    } else {
      FewerOthers(limits.maxEntries, calls, i, j - 1, x.key);
      StaysKept(limits, calls, i, j - 1, x);
      KeptStep(limits, calls, i, j - 1, x);
    }
  }

  /** An entry in front of memory after call `i` is hit by call `j`, if it has not expired. */
  lemma FrontIsHit(limits: Limits, calls: seq<Call>, i: nat, j: nat, x: Slot)
    requires i < j < |calls| && calls[j].op == Get(x.key) && FewOthers(limits.maxEntries, calls, i + 1, j, x.key)
    requires var t := Run(limits, calls[..i + 1]); t.memory != [] && t.memory[0] == x
    requires !Expired(x.storedAt, x.ttl, calls[j].env.atMemory)
    ensures Hit(limits, calls, j) == Some(x)
  {
    var front := Run(limits, calls[..i + 1]).memory;
    assert front == [x] + front[1..];
    Near.NearFront(x, front[1..]);
    assert KeysIn(calls, i + 1, i + 1) == {};
    StaysKept(limits, calls, i + 1, j, x);
    RunTidy(limits, calls[..j]);
    Near.NearIsFound(Run(limits, calls[..j]).memory, x, KeysIn(calls, i + 1, j), calls[j].env.atMemory);
  }

  /** Entries were stored no later than `now`. */
  ghost predicate Dated(t: Tiers, now: int) {
    (forall x | x in t.memory :: x.storedAt <= now) && (forall k | k in t.disk :: t.disk[k].storedAt <= now)
  }

  lemma StoreDated(t: Tiers, limits: Limits, slot: Slot, env: Env)
    requires Dated(t, env.atStore) && slot.storedAt <= env.atStore && env.atSpill <= env.atStore && Tidy(t)
    ensures Dated(Store(t, limits, slot, env), env.atStore)
  {
    WithoutMembers(t.memory, slot.key);
    var r := Store(t, limits, slot, env);
    forall x | x in r.memory ensures x.storedAt <= env.atStore { assert x == slot || x in t.memory; }
  }

  lemma NextDated(t: Tiers, limits: Limits, call: Call)
    requires Tidy(t) && Dated(t, call.env.atMemory) && InOrder(call.env)
    ensures Dated(Next(t, limits, call).tiers, call.env.atStore)
  {
    var env := call.env;
    match call.op
    case Get(key) =>
      DropTidy(t, key);
      var mem := RecencyGet(t.memory, key, env.atMemory);
      var dsk := Disk.AfterGet(t.disk, key, env.atDisk, env.readFault);
      if mem.hit.None? && dsk.hit.Some? {
        StoreDated(Tiers(mem.slots, dsk.contents), limits, dsk.hit.value.(storedAt := env.atStore), env);
      }
    case Put(key, payload, ttl) => StoreDated(t, limits, Slot(key, payload, env.atStore, ttl), env);
    case Purge =>
  }

  lemma LaterDated(t: Tiers, now: int, later: int)
    requires Dated(t, now) && now <= later
    ensures Dated(t, later)
  {
  }

  lemma ClockedBefore(calls: seq<Call>)
    requires Clocked(calls) && calls != []
    ensures var n := |calls| - 1;
      && Clocked(calls[..n]) && InOrder(calls[n].env)
      && (n > 0 ==> LastReading(calls[..n]) <= calls[n].env.atMemory)
  {
  }

  lemma {:induction false} RunDated(limits: Limits, calls: seq<Call>, now: int)
    requires Clocked(calls) && (calls != [] ==> LastReading(calls) <= now)
    ensures Dated(Run(limits, calls), now)
    decreases |calls|
  {
    if calls == [] {
    } else {
      var n := |calls| - 1;
      ClockedBefore(calls);
      RunDated(limits, calls[..n], calls[n].env.atMemory);
      RunTidy(limits, calls[..n]);
      NextDated(Run(limits, calls[..n]), limits, calls[n]);
      LaterDated(Run(limits, calls), LastReading(calls), now);
    }
  }

  /**
   * In every run, a response that was put is returned by a later get within its TTL, as long as no purge and fewer
   * other keys than memory has room for come in between.
   */
  lemma PutIsHit(limits: Limits, calls: seq<Call>, i: nat, j: nat, key: string, payload: Payload, ttl: int)
    requires i < j < |calls| && calls[i].op == Put(key, payload, ttl) && Cacheable(payload)
    requires calls[j].op == Get(key) && FewOthers(limits.maxEntries, calls, i + 1, j, key)
    requires !Expired(calls[i].env.atStore, ttl, calls[j].env.atMemory)
    ensures Hit(limits, calls, j) == Some(Slot(key, payload, calls[i].env.atStore, ttl))
  {
    RunTidy(limits, calls[..i]);
    assert calls[..i + 1][..i] == calls[..i];
    PutEffect(Run(limits, calls[..i]), limits, key, payload, ttl, calls[i].env);
    FrontIsHit(limits, calls, i, j, Slot(key, payload, calls[i].env.atStore, ttl));
  }

  /** Likewise a response that was hit, in either tier, within the TTL it was hit with. */
  lemma HitIsHitAgain(limits: Limits, calls: seq<Call>, i: nat, j: nat, key: string, s: Slot)
    requires Clocked(calls) && i < j < |calls| && calls[i].op == Get(key) && Hit(limits, calls, i) == Some(s)
    requires calls[j].op == Get(key) && FewOthers(limits.maxEntries, calls, i + 1, j, key)
    requires !Expired(s.storedAt, s.ttl, calls[j].env.atMemory)
    ensures Hit(limits, calls, j).Some? && Hit(limits, calls, j).value.payload == s.payload
  {
    var t, env := Run(limits, calls[..i]), calls[i].env;
    RunTidy(limits, calls[..i]);
    RunDated(limits, calls[..i], env.atMemory);
    assert calls[..i + 1][..i] == calls[..i];
    if !MissesMemory(t, key, env) {
      MemoryHitEffect(t, limits, key, env);
      FrontIsHit(limits, calls, i, j, s);
    } else {
      HitOnDisk(t, limits, key, env);
      DiskHitEffect(t, limits, key, env);
      FrontIsHit(limits, calls, i, j, Slot(key, s.payload, env.atStore, s.ttl));
    }
  }

  lemma HitOnDisk(t: Tiers, limits: Limits, key: string, env: Env)
    requires Tidy(t) && MissesMemory(t, key, env) && NextGet(t, limits, key, env).hit.Some?
    ensures LiveOnDisk(t, key, env)
  {
    if !LiveOnDisk(t, key, env) { MissEffect(t, limits, key, env); }
  }
}
