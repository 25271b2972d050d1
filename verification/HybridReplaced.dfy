/**
 * Exactly when a hybrid cache serves a replaced response: over every run, and in a given state. No condition on TTLs
 * or on the clock is needed for this.
 */
module HybridReplaced {
  import opened Text
  import opened CacheModel
  import opened HybridCache
  import Disk = DiskCache

  // ---- Memory holds the last payloads, and so does disk where memory holds nothing ----

  ghost predicate LastInMemory(s: Slot, last: map<string, Accepted>) {
    s.key in last && last[s.key].payload == s.payload && Cacheable(s.payload)
  }

  ghost predicate LastOnDisk(t: Tiers, k: string, last: map<string, Accepted>)
    requires k in t.disk
  {
    && t.disk[k].key == k && Cacheable(t.disk[k].payload)
    && (Has(t.memory, k) || (k in last && last[k].payload == t.disk[k].payload))
  }

  ghost predicate Settled(t: Tiers, last: map<string, Accepted>) {
    && DistinctKeys(t.memory)
    && (forall s | s in t.memory :: LastInMemory(s, last))
    && (forall k | k in t.disk :: LastOnDisk(t, k, last))
  }

  lemma DropSettled(t: Tiers, last: map<string, Accepted>, key: string)
    requires Settled(t, last)
    ensures Settled(Tiers(Without(t.memory, key), t.disk - {key}), last) && !Has(Without(t.memory, key), key)
  {
    WithoutMembers(t.memory, key);
    WithoutIs(t.memory, key);
    var u := Tiers(Without(t.memory, key), t.disk - {key});
    forall k | k in u.disk ensures LastOnDisk(u, k, last) {
      assert LastOnDisk(t, k, last);
      HasAfterDrop(t.memory, key, k);
    }
  }

  lemma ShrinkSettled(t: Tiers, last: map<string, Accepted>, disk: Disk.Contents)
    requires Settled(t, last) && forall k | k in disk :: k in t.disk && disk[k] == t.disk[k]
    ensures Settled(t.(disk := disk), last)
  {
    forall k | k in disk ensures LastOnDisk(t.(disk := disk), k, last) { assert LastOnDisk(t, k, last); }
  }

  /** The last payload of its key goes in front of memory, over whatever copy disk holds. */
  lemma FrontSettled(t: Tiers, last: map<string, Accepted>, last': map<string, Accepted>, slot: Slot)
    requires !Has(t.memory, slot.key) && Settled(t.(disk := t.disk - {slot.key}), last) && LastInMemory(slot, last')
    requires slot.key in t.disk ==> t.disk[slot.key].key == slot.key && Cacheable(t.disk[slot.key].payload)
    requires forall k | k in last && k != slot.key :: k in last' && last'[k] == last[k]
    ensures Settled(Tiers([slot] + t.memory, t.disk), last')
  {
    var u, others := Tiers([slot] + t.memory, t.disk), t.disk - {slot.key};
    HasIs(t.memory, slot.key);
    PushFront(slot, t.memory);
    assert u.memory[1..] == t.memory;
    forall s | s in u.memory ensures LastInMemory(s, last') {
      if s != slot { assert s in t.memory && LastInMemory(s, last); }
    }
    forall k | k in u.disk ensures LastOnDisk(u, k, last') {
      if k != slot.key { assert k in others && LastOnDisk(t.(disk := others), k, last); }
    }
  }

  lemma SpillSettled(t: Tiers, last: map<string, Accepted>, x: Slot, env: Env)
    requires Settled(t, last) && x in t.memory
    ensures Settled(Tiers(Without(t.memory, x.key), Spill(t.disk, [x], env)), last)
  {
    assert LastInMemory(x, last);
    DropSettled(t, last, x.key);
    var spilled := Spill(t.disk, [x], env);
    var u, v := Tiers(Without(t.memory, x.key), t.disk - {x.key}), Tiers(Without(t.memory, x.key), spilled);
    forall k | k in spilled ensures LastOnDisk(v, k, last) {
      if k != x.key { assert k in u.disk && LastOnDisk(u, k, last); }
    }
  }

  lemma StoreSettled(t: Tiers, last: map<string, Accepted>, last': map<string, Accepted>, limits: Limits, slot: Slot,
                     env: Env)
    requires Settled(t, last) && LastInMemory(slot, last')
    requires forall k | k in last && k != slot.key :: k in last' && last'[k] == last[k]
    ensures Settled(Store(t, limits, slot, env), last')
  {
    var key := slot.key;
    if key in t.disk { assert LastOnDisk(t, key, last); }
    if Has(t.memory, key) {
      DropSettled(t, last, key);
      FrontSettled(t.(memory := Without(t.memory, key)), last, last', slot);
    } else if RecencyPut(t.memory, limits.maxEntries, slot).evicted == [] {
      ShrinkSettled(t, last, t.disk - {key});
      FrontSettled(t, last, last', slot);
    } else {
      EvictSettled(t, last, last', limits, slot, env);
    }
  }

  lemma EvictSettled(t: Tiers, last: map<string, Accepted>, last': map<string, Accepted>, limits: Limits, slot: Slot,
                     env: Env)
    requires Settled(t, last) && LastInMemory(slot, last')
    requires forall k | k in last && k != slot.key :: k in last' && last'[k] == last[k]
    requires !Has(t.memory, slot.key) && RecencyPut(t.memory, limits.maxEntries, slot).evicted != []
    ensures Settled(Store(t, limits, slot, env), last')
  {
    var n := |t.memory| - 1;
    var x := t.memory[n];
    SlotAt(t.memory, n);
    assert t.memory[..n] + t.memory[n + 1..] == t.memory[..n];
    SpillSettled(t, last, x, env);
    HasIs(t.memory, slot.key);
    HasAfterDrop(t.memory, x.key, slot.key);
    var u := Tiers(t.memory[..n], Spill(t.disk, [x], env));
    ShrinkSettled(u, last, u.disk - {slot.key});
    if slot.key in u.disk { assert LastOnDisk(u, slot.key, last); }
    FrontSettled(u, last, last', slot);
  }

  // ---- One get ----

  /** The memory entry has expired, and a different copy under it on disk is live and can be read. */
  predicate Exposed(t: Tiers, key: string, env: Env) {
    && Has(t.memory, key) && key in t.disk
    && var m, d := CacheModel.Lookup(t.memory, key), t.disk[key];
       && Expired(m.storedAt, m.ttl, env.atMemory) && !Expired(d.storedAt, d.ttl, env.atDisk)
       && !env.readFault.meta && !env.readFault.body && d.payload != m.payload
  }

  /** The answer is a miss or the last payload. */
  ghost predicate Serves(hit: Option<Slot>, key: string, last: map<string, Accepted>) {
    hit.Some? ==> key in last && hit.value.payload == last[key].payload
  }

  lemma ExposedServesReplaced(t: Tiers, last: map<string, Accepted>, limits: Limits, key: string, env: Env)
    requires Settled(t, last) && Exposed(t, key, env)
    ensures !Serves(NextGet(t, limits, key, env).hit, key, last)
  {
    assert LastInMemory(CacheModel.Lookup(t.memory, key), last);
  }

  /** A disk hit that is the last payload, with memory holding nothing. */
  lemma PromoteSettled(t: Tiers, last: map<string, Accepted>, limits: Limits, key: string, env: Env)
    requires !Has(t.memory, key) && Settled(t.(disk := t.disk - {key}), last)
    requires key in t.disk ==> t.disk[key].key == key && Cacheable(t.disk[key].payload)
    requires var hit := Disk.AfterGet(t.disk, key, env.atDisk, env.readFault).hit; Serves(hit, key, last)
    ensures Settled(Promote(t, limits, key, env).tiers, last)
  {
    var dsk := Disk.AfterGet(t.disk, key, env.atDisk, env.readFault);
    if dsk.hit.None? {
      assert key !in t.disk ==> t.disk - {key} == t.disk;
    } else {
      var slot := dsk.hit.value.(storedAt := env.atStore);
      forall k | k in t.disk ensures LastOnDisk(t, k, last) {
        if k != key { assert LastOnDisk(t.(disk := t.disk - {key}), k, last); }
      }
      StoreSettled(t, last, last, limits, slot, env);
      var promoted := Store(t, limits, slot, env);
      ShrinkSettled(promoted, last, promoted.disk - {key});
    }
  }

  lemma GetSettled(t: Tiers, last: map<string, Accepted>, limits: Limits, key: string, env: Env)
    requires Settled(t, last) && !Exposed(t, key, env)
    ensures Settled(NextGet(t, limits, key, env).tiers, last)
    ensures Serves(NextGet(t, limits, key, env).hit, key, last)
  {
    if key in t.disk { assert LastOnDisk(t, key, last); }
    if !Has(t.memory, key) {
      ShrinkSettled(t, last, t.disk - {key});
      PromoteSettled(t, last, limits, key, env);
    } else {
      var m := CacheModel.Lookup(t.memory, key);
      assert LastInMemory(m, last);
      DropSettled(t, last, key);
      var u := t.(memory := Without(t.memory, key));
      if Expired(m.storedAt, m.ttl, env.atMemory) {
        PromoteSettled(u, last, limits, key, env);
      } else {
        FrontSettled(u, last, last, m);
      }
    }
  }

  // ---- Runs ----

  ghost predicate ExposedAt(limits: Limits, calls: seq<Call>, i: nat) {
    i < |calls| && calls[i].op.Get? && Exposed(Run(limits, calls[..i]), calls[i].op.key, calls[i].env)
  }

  /** Call `i` is no get, or answers with a miss or the last accepted payload. */
  ghost predicate ServesAt(limits: Limits, calls: seq<Call>, i: nat)
    requires i < |calls|
  {
    calls[i].op.Get? ==> Serves(Hit(limits, calls, i), calls[i].op.key, LastPuts(calls[..i]))
  }

  lemma NextSettled(t: Tiers, last: map<string, Accepted>, limits: Limits, call: Call)
    requires Settled(t, last) && (call.op.Get? ==> !Exposed(t, call.op.key, call.env))
    ensures var r := Next(t, limits, call).tiers;
      match call.op
      case Get(key) => Settled(r, last)
      case Put(key, payload, ttl) =>
        Settled(r, if Cacheable(payload) then last[key := Accepted(payload, ttl)] else last)
      case Purge => Settled(r, map[])
  {
    match call.op
    case Get(key) => GetSettled(t, last, limits, key, call.env);
    case Put(key, payload, ttl) =>
      if Cacheable(payload) {
        var slot := Slot(key, payload, call.env.atStore, ttl);
        StoreSettled(t, last, last[key := Accepted(payload, ttl)], limits, slot, call.env);
      }
    case Purge =>
  }

  lemma {:induction false} RunSettled(limits: Limits, calls: seq<Call>)
    requires forall i: nat :: !ExposedAt(limits, calls, i)
    ensures Settled(Run(limits, calls), LastPuts(calls))
    decreases |calls|
  {
    if calls == [] {
    } else {
      var n := |calls| - 1;
      var before := calls[..n];
      forall i: nat ensures !ExposedAt(limits, before, i) {
        if i < n { assert before[..i] == calls[..i] && !ExposedAt(limits, calls, i); }
      }
      RunSettled(limits, before);
      assert !ExposedAt(limits, calls, n);
      NextSettled(Run(limits, before), LastPuts(before), limits, calls[n]);
    }
  }

  /** As long as no get was exposed, this one decides. */
  lemma ServesUnlessExposed(limits: Limits, calls: seq<Call>, i: nat)
    requires i < |calls| && calls[i].op.Get? && forall j: nat | j < i :: !ExposedAt(limits, calls, j)
    ensures ServesAt(limits, calls, i) <==> !ExposedAt(limits, calls, i)
  {
    var before := calls[..i];
    forall j: nat ensures !ExposedAt(limits, before, j) {
      if j < i { assert before[..j] == calls[..j] && !ExposedAt(limits, calls, j); }
    }
    RunSettled(limits, before);
    var t, last, op := Run(limits, before), LastPuts(before), calls[i].op;
    if Exposed(t, op.key, calls[i].env) {
      ExposedServesReplaced(t, last, limits, op.key, calls[i].env);
    } else {
      GetSettled(t, last, limits, op.key, calls[i].env);
    }
  }

  lemma {:induction false} FirstExposed(limits: Limits, calls: seq<Call>, i: nat) returns (k: nat)
    requires ExposedAt(limits, calls, i)
    ensures k <= i && ExposedAt(limits, calls, k) && forall j: nat | j < k :: !ExposedAt(limits, calls, j)
    decreases i
  {
    if j: nat :| j < i && ExposedAt(limits, calls, j) {
      k := FirstExposed(limits, calls, j);
    } else {
      k := i;
    }
  }

  /**
   * In every run, whatever TTLs and clocks, every get returns a miss or the last accepted payload exactly when no get
   * finds its memory entry expired over a different copy on disk that is live and can be read.
   */
  lemma ReplacedExactly(limits: Limits, calls: seq<Call>)
    ensures (forall i | 0 <= i < |calls| :: ServesAt(limits, calls, i)) <==>
      (forall i: nat :: !ExposedAt(limits, calls, i))
  {
    if i: nat :| ExposedAt(limits, calls, i) {
      var k := FirstExposed(limits, calls, i);
      ServesUnlessExposed(limits, calls, k);
    } else {
      forall i | 0 <= i < |calls| ensures ServesAt(limits, calls, i) {
        if calls[i].op.Get? { ServesUnlessExposed(limits, calls, i); }
      }
    }
  }

  // ---- A state that can come to serve a replaced response ----

  /** At some time from `now` on `m` has expired and `d` has not. */
  predicate Outlives(d: Slot, m: Slot, now: int) {
    m.ttl > 0 && (d.ttl <= 0 || (now <= d.storedAt + d.ttl && m.storedAt + m.ttl < d.storedAt + d.ttl))
  }

  /** Under a memory entry of its key disk holds a different copy that outlives it. */
  predicate Overlaid(t: Tiers, key: string, now: int) {
    && Has(t.memory, key) && key in t.disk
    && var m, d := CacheModel.Lookup(t.memory, key), t.disk[key]; d.payload != m.payload && Outlives(d, m, now)
  }

  lemma {:induction false} OldestExists(c: Disk.Contents) returns (k: string)
    requires c != map[]
    ensures Disk.IsOldest(c, k)
    decreases |c|
  {
    k :| k in c;
    var rest := c - {k};
    assert rest.Keys == c.Keys - {k};
    assert forall j | j in c && j != k :: j in rest && rest[j] == c[j];
    if rest != map[] {
      var j := OldestExists(rest);
      if c[j].storedAt < c[k].storedAt { k := j; }
    }
  }

  /** Evicting can always go on until the body fits. */
  lemma {:induction false} EvictOn(c: Disk.Contents, need: int, max: int, keys: seq<string>) returns (all: seq<string>)
    requires Disk.Evicting(c, need, max, keys)
    ensures Disk.Evicts(c, need, max, all)
    decreases |Disk.RemoveAll(c, keys)|
  {
    var left := Disk.RemoveAll(c, keys);
    if Disk.Fits(left, need, max) {
      all := keys;
    } else {
      var k := OldestExists(left);
      Disk.EvictingOneMore(c, need, max, keys, k);
      Disk.RemoveAllOneMore(c, keys, k);
      assert (left - {k}).Keys == left.Keys - {k};
      all := EvictOn(c, need, max, keys + [k]);
    }
  }

  /** The environment lets the get happen, at some time from `now` on. */
  ghost predicate Permits(t: Tiers, limits: Limits, key: string, now: int, env: Env) {
    now <= env.atMemory && InOrder(env) && Allowed(t, limits, Call(Get(key), env))
  }

  lemma GetPermitted(t: Tiers, limits: Limits, key: string, env: Env) returns (gone: seq<string>)
    ensures Allowed(t, limits, Call(Get(key), env.(gone := gone)))
  {
    gone := [];
    var mem := RecencyGet(t.memory, key, env.atMemory);
    var dsk := Disk.AfterGet(t.disk, key, env.atDisk, env.readFault);
    if mem.hit.None? && dsk.hit.Some? {
      var evicted := RecencyPut(mem.slots, limits.maxEntries, dsk.hit.value.(storedAt := env.atStore)).evicted;
      if evicted != [] {
        var slot := evicted[0].(storedAt := env.atSpill);
        gone := EvictOn(dsk.contents - {slot.key}, Disk.Size(slot), limits.maxBytes, []);
      }
    }
  }

  /** The first time from `now` on at which `m` has expired. */
  function Expiry(m: Slot, now: int): (at: int) {
    if now > m.storedAt + m.ttl then now else m.storedAt + m.ttl + 1
  }

  lemma OverlaidExposes(t: Tiers, limits: Limits, key: string, now: int) returns (env: Env)
    requires Overlaid(t, key, now)
    ensures Permits(t, limits, key, now, env) && Exposed(t, key, env)
  {
    var at := Expiry(CacheModel.Lookup(t.memory, key), now);
    env := Env(at, at, at, at, Disk.ReadFault(false, false), Disk.WriteFault(false, false, false), []);
    var gone := GetPermitted(t, limits, key, env);
    env := env.(gone := gone);
  }

  /**
   * A get of the key can return a replaced payload, at some time from `now` on, exactly when a different copy on disk
   * under its memory entry outlives that entry.
   */
  lemma CanServeReplaced(t: Tiers, last: map<string, Accepted>, limits: Limits, key: string, now: int)
    requires Settled(t, last)
    ensures
      (exists env :: Permits(t, limits, key, now, env) && !Serves(NextGet(t, limits, key, env).hit, key, last)) <==>
      Overlaid(t, key, now)
  {
    if Overlaid(t, key, now) {
      var env := OverlaidExposes(t, limits, key, now);
      ExposedServesReplaced(t, last, limits, key, env);
    }
    if env :| Permits(t, limits, key, now, env) && !Serves(NextGet(t, limits, key, env).hit, key, last) {
      if !Exposed(t, key, env) { GetSettled(t, last, limits, key, env); }
    }
  }
}
