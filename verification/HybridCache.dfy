/**
 * The two-tier cache: evicted memory entries spill to disk, disk hits are promoted to memory.
 * `Next` is the effect of one call on both tiers; `HybridCoherence` is what every run promises.
 */
module HybridCache {
  import opened Text
  import opened CacheModel
  import Lru = LruCache
  import Disk = DiskCache

  datatype Limits = Limits(maxEntries: int, maxBytes: int)
  datatype Tiers = Tiers(memory: seq<Slot>, disk: Disk.Contents)

  datatype Op =
    | Get(key: string)
    | Put(key: string, payload: Payload, ttl: int)
    | Purge

  /** What the environment decides during a call: clock readings, I/O failures, and ties between oldest entries. */
  datatype Env = Env(atMemory: int, atDisk: int, atSpill: int, atStore: int,
                     readFault: Disk.ReadFault, writeFault: Disk.WriteFault, gone: seq<string>)

  datatype Call = Call(op: Op, env: Env)
  datatype Outcome = Outcome(tiers: Tiers, hit: Option<Slot>)

  // ---- One call ----

  /** The eviction callback: the evicted slot is stored on disk as of now. */
  function Spill(disk: Disk.Contents, evicted: seq<Slot>, env: Env): (r: Disk.Contents) {
    if evicted == [] then disk
    else Disk.AfterPut(disk, evicted[0].(storedAt := env.atSpill), env.gone, env.writeFault)
  }

  ghost predicate SpillAllowed(disk: Disk.Contents, evicted: seq<Slot>, limits: Limits, env: Env) {
    evicted != [] ==>
      var slot := evicted[0].(storedAt := env.atSpill);
      Disk.PutStep(disk, limits.maxBytes, slot, env.gone, env.writeFault, Spill(disk, evicted, env))
  }

  function Store(t: Tiers, limits: Limits, slot: Slot, env: Env): (r: Tiers) {
    var put := RecencyPut(t.memory, limits.maxEntries, slot);
    Tiers(put.slots, Spill(t.disk, put.evicted, env))
  }

  ghost predicate StoreAllowed(t: Tiers, limits: Limits, slot: Slot, env: Env) {
    SpillAllowed(t.disk, RecencyPut(t.memory, limits.maxEntries, slot).evicted, limits, env)
  }

  /** A disk hit is stored in memory and dropped from disk. */
  function Promote(t: Tiers, limits: Limits, key: string, env: Env): (r: Outcome) {
    var dsk := Disk.AfterGet(t.disk, key, env.atDisk, env.readFault);
    if dsk.hit.None? then Outcome(t.(disk := dsk.contents), None)
    else
      var promoted := Store(t.(disk := dsk.contents), limits, dsk.hit.value.(storedAt := env.atStore), env);
      Outcome(promoted.(disk := promoted.disk - {key}), dsk.hit)
  }

  ghost predicate PromoteAllowed(t: Tiers, limits: Limits, key: string, env: Env) {
    var dsk := Disk.AfterGet(t.disk, key, env.atDisk, env.readFault);
    dsk.hit.Some? ==>
      StoreAllowed(t.(disk := dsk.contents), limits, dsk.hit.value.(storedAt := env.atStore), env)
  }

  function NextGet(t: Tiers, limits: Limits, key: string, env: Env): (r: Outcome) {
    var mem := RecencyGet(t.memory, key, env.atMemory);
    if mem.hit.Some? then Outcome(t.(memory := mem.slots), mem.hit)
    else Promote(t.(memory := mem.slots), limits, key, env)
  }

  function Next(t: Tiers, limits: Limits, call: Call): (r: Outcome) {
    match call.op
    case Get(key) => NextGet(t, limits, key, call.env)
    case Put(key, payload, ttl) => Outcome(Store(t, limits, Slot(key, payload, call.env.atStore, ttl), call.env), None)
    case Purge => Outcome(Tiers([], map[]), None)
  }

  /** The evictions the call performs on disk follow the eviction policy. */
  ghost predicate Allowed(t: Tiers, limits: Limits, call: Call) {
    match call.op
    case Get(key) =>
      var mem := RecencyGet(t.memory, key, call.env.atMemory);
      mem.hit.None? ==> PromoteAllowed(t.(memory := mem.slots), limits, key, call.env)
    case Put(key, payload, ttl) => StoreAllowed(t, limits, Slot(key, payload, call.env.atStore, ttl), call.env)
    case Purge => true
  }

  // ---- Runs ----

  function Run(limits: Limits, calls: seq<Call>): (t: Tiers) {
    if calls == [] then Tiers([], map[])
    else Next(Run(limits, calls[..|calls| - 1]), limits, calls[|calls| - 1]).tiers
  }

  function Hit(limits: Limits, calls: seq<Call>, i: nat): (hit: Option<Slot>)
    requires i < |calls|
  {
    Next(Run(limits, calls[..i]), limits, calls[i]).hit
  }

  ghost predicate Legal(limits: Limits, calls: seq<Call>) {
    && 0 < limits.maxEntries
    && forall i | 0 <= i < |calls| :: Allowed(Run(limits, calls[..i]), limits, calls[i])
  }

  ghost predicate InOrder(env: Env) {
    env.atMemory <= env.atDisk <= env.atSpill <= env.atStore
  }

  /** The clock never goes back, within a call or from one call to the next. */
  ghost predicate Clocked(calls: seq<Call>) {
    && (forall i | 0 <= i < |calls| :: InOrder(calls[i].env))
    && (forall i, j | 0 <= i < j < |calls| :: calls[i].env.atStore <= calls[j].env.atMemory)
  }

  datatype Accepted = Accepted(payload: Payload, ttl: int)

  /** By key, the last accepted put since the last purge. */
  function LastPuts(calls: seq<Call>): (m: map<string, Accepted>) {
    if calls == [] then map[]
    else
      var before := LastPuts(calls[..|calls| - 1]);
      match calls[|calls| - 1].op
      case Get(_) => before
      case Put(key, payload, ttl) => if Cacheable(payload) then before[key := Accepted(payload, ttl)] else before
      case Purge => map[]
  }

  /** A TTL of zero or less never expires. */
  predicate TtlAtMost(a: int, b: int) {
    b <= 0 || 0 < a <= b
  }

  ghost predicate TtlKept(last: map<string, Accepted>, op: Op) {
    op.Put? && Cacheable(op.payload) && op.key in last ==> TtlAtMost(last[op.key].ttl, op.ttl)
  }

  /** No accepted put shortens the TTL of the put it replaces; one fixed TTL is the usual case. */
  ghost predicate TtlNeverShrinks(calls: seq<Call>) {
    forall i | 0 <= i < |calls| :: TtlKept(LastPuts(calls[..i]), calls[i].op)
  }

  // ---- The coherence invariant ----

  /** A disk copy under a memory entry is a stale one that expires no later. */
  predicate StaleUnder(d: Slot, m: Slot) {
    d.storedAt <= m.storedAt && TtlAtMost(d.ttl, m.ttl)
  }

  ghost predicate MemoryCoherent(memory: seq<Slot>, last: map<string, Accepted>, now: int) {
    && DistinctKeys(memory)
    && forall s | s in memory ::
         && s.key in last && last[s.key] == Accepted(s.payload, s.ttl)
         && s.storedAt <= now && Cacheable(s.payload)
  }

  ghost predicate DiskCoherent(t: Tiers, last: map<string, Accepted>, now: int) {
    forall k | k in t.disk ::
      && t.disk[k].key == k && t.disk[k].storedAt <= now && Cacheable(t.disk[k].payload)
      && (if Has(t.memory, k) then StaleUnder(t.disk[k], CacheModel.Lookup(t.memory, k))
          else k in last && last[k] == Accepted(t.disk[k].payload, t.disk[k].ttl))
  }

  ghost predicate Coherent(t: Tiers, last: map<string, Accepted>, now: int) {
    MemoryCoherent(t.memory, last, now) && DiskCoherent(t, last, now)
  }

  /** The stale copy below an expired entry has expired too. */
  lemma StaleExpiresFirst(d: Slot, m: Slot, now: int, later: int)
    requires StaleUnder(d, m) && Expired(m.storedAt, m.ttl, now) && now <= later
    ensures Expired(d.storedAt, d.ttl, later)
  {
  }

  lemma HasAfterDrop(memory: seq<Slot>, key: string, k: string)
    requires DistinctKeys(memory) && k != key
    ensures Has(Without(memory, key), k) <==> Has(memory, k)
    ensures Has(memory, k) ==> CacheModel.Lookup(Without(memory, key), k) == CacheModel.Lookup(memory, k)
  {
    WithoutMembers(memory, key);
    WithoutIs(memory, key);
    HasIs(memory, k);
    HasIs(Without(memory, key), k);
    if Has(memory, k) { LookupIs(Without(memory, key), CacheModel.Lookup(memory, k)); }
  }

  /** Coherent away from one key that memory does not hold. */
  ghost predicate CoherentBut(t: Tiers, last: map<string, Accepted>, now: int, key: string) {
    !Has(t.memory, key) && Coherent(t.(disk := t.disk - {key}), last, now)
  }

  lemma DropFromMemory(t: Tiers, last: map<string, Accepted>, now: int, key: string)
    requires Coherent(t, last, now)
    ensures CoherentBut(t.(memory := Without(t.memory, key)), last, now, key)
  {
    WithoutMembers(t.memory, key);
    WithoutIs(t.memory, key);
    forall k | k in t.disk && k != key
      ensures Has(Without(t.memory, key), k) <==> Has(t.memory, k)
      ensures Has(t.memory, k) ==> CacheModel.Lookup(Without(t.memory, key), k) == CacheModel.Lookup(t.memory, k)
    {
      HasAfterDrop(t.memory, key, k);
    }
  }

  lemma ShrinkDisk(t: Tiers, last: map<string, Accepted>, now: int, disk: Disk.Contents)
    requires Coherent(t, last, now)
    requires forall k | k in disk :: k in t.disk && disk[k] == t.disk[k]
    ensures Coherent(t.(disk := disk), last, now)
  {
  }

  lemma LaterStillCoherent(t: Tiers, last: map<string, Accepted>, now: int, later: int)
    requires Coherent(t, last, now) && now <= later
    ensures Coherent(t, last, later)
  {
  }

  /** Putting the newest value of a key in front of memory restores coherence for that key. */
  lemma PutInFront(t: Tiers, last: map<string, Accepted>, now: int, slot: Slot)
    requires CoherentBut(t, last, now, slot.key)
    requires Cacheable(slot.payload) && slot.storedAt <= now
    requires slot.key in t.disk ==>
      var d := t.disk[slot.key];
      d.key == slot.key && d.storedAt <= now && Cacheable(d.payload) && StaleUnder(d, slot)
    ensures Coherent(Tiers([slot] + t.memory, t.disk), last[slot.key := Accepted(slot.payload, slot.ttl)], now)
  {
    var memory := [slot] + t.memory;
    var last' := last[slot.key := Accepted(slot.payload, slot.ttl)];
    HasIs(t.memory, slot.key);
    PushFront(slot, t.memory);
    assert memory[1..] == t.memory;
    forall s | s in memory ensures s.key in last' && last'[s.key] == Accepted(s.payload, s.ttl) {
      if s != slot { assert s in t.memory; }
    }
    var others := t.disk - {slot.key};
    forall k | k in t.disk && k != slot.key
      ensures k in others && others[k] == t.disk[k] && (Has(memory, k) <==> Has(t.memory, k))
    {
    }
  }

  /** A spilled entry is the newest value of its key, whether or not the write succeeds. */
  lemma SpillKeepsCoherence(t: Tiers, last: map<string, Accepted>, now: int, x: Slot, env: Env)
    requires Coherent(t, last, now) && x in t.memory && env.atSpill <= now
    ensures Coherent(Tiers(Without(t.memory, x.key), Spill(t.disk, [x], env)), last, now)
  {
    DropFromMemory(t, last, now, x.key);
    var spilled := Spill(t.disk, [x], env);
    forall k | k in spilled && k != x.key ensures k in t.disk && spilled[k] == t.disk[k] {}
  }

  lemma TtlAtMostTransitive(a: int, b: int, c: int)
    requires TtlAtMost(a, b) && TtlAtMost(b, c)
    ensures TtlAtMost(a, c)
  {
  }

  /** Storing an accepted slot, with whatever it evicts, keeps the tiers coherent. */
  lemma StoreKeepsCoherence(t: Tiers, last: map<string, Accepted>, now: int, limits: Limits, slot: Slot, env: Env)
    requires Coherent(t, last, now) && Cacheable(slot.payload)
    requires slot.storedAt <= now && env.atSpill <= now
    requires forall k | k in t.disk :: t.disk[k].storedAt <= slot.storedAt
    requires slot.key in last ==> TtlAtMost(last[slot.key].ttl, slot.ttl)
    ensures Coherent(Store(t, limits, slot, env), last[slot.key := Accepted(slot.payload, slot.ttl)], now)
  {
    var put := RecencyPut(t.memory, limits.maxEntries, slot);
    if Has(t.memory, slot.key) {
      var m := CacheModel.Lookup(t.memory, slot.key);
      assert last[slot.key] == Accepted(m.payload, m.ttl);
      DropFromMemory(t, last, now, slot.key);
      if slot.key in t.disk { TtlAtMostTransitive(t.disk[slot.key].ttl, m.ttl, slot.ttl); }
      PutInFront(t.(memory := Without(t.memory, slot.key)), last, now, slot);
    } else if put.evicted == [] {
      ShrinkDisk(t, last, now, t.disk - {slot.key});
      PutInFront(t, last, now, slot);
    } else {
      EvictThenFront(t, last, now, limits, slot, env);
    }
  }

  lemma EvictThenFront(t: Tiers, last: map<string, Accepted>, now: int, limits: Limits, slot: Slot, env: Env)
    requires Coherent(t, last, now) && Cacheable(slot.payload)
    requires slot.storedAt <= now && env.atSpill <= now
    requires forall k | k in t.disk :: t.disk[k].storedAt <= slot.storedAt
    requires slot.key in last ==> TtlAtMost(last[slot.key].ttl, slot.ttl)
    requires !Has(t.memory, slot.key) && RecencyPut(t.memory, limits.maxEntries, slot).evicted != []
    ensures Coherent(Store(t, limits, slot, env), last[slot.key := Accepted(slot.payload, slot.ttl)], now)
  {
    var n := |t.memory| - 1;
    var x := t.memory[n];
    SlotAt(t.memory, n);
    assert t.memory[..n] + t.memory[n + 1..] == t.memory[..n];
    SpillKeepsCoherence(t, last, now, x, env);
    HasIs(t.memory, slot.key);
    HasAfterDrop(t.memory, x.key, slot.key);
    var u := Tiers(t.memory[..n], Spill(t.disk, [x], env));
    ShrinkDisk(u, last, now, u.disk - {slot.key});
    assert slot.key in u.disk ==> slot.key in t.disk && u.disk[slot.key] == t.disk[slot.key];
    PutInFront(u, last, now, slot);
  }

  /** A get returns nothing or the last accepted payload, and keeps the tiers coherent. */
  lemma GetKeepsCoherence(t: Tiers, last: map<string, Accepted>, now: int, limits: Limits, key: string, env: Env)
    requires Coherent(t, last, now) && now <= env.atMemory && InOrder(env)
    ensures Coherent(NextGet(t, limits, key, env).tiers, last, env.atStore)
    ensures var hit := NextGet(t, limits, key, env).hit;
            hit.Some? ==> key in last && hit.value.payload == last[key].payload
  {
    LaterStillCoherent(t, last, now, env.atStore);
    if !Has(t.memory, key) {
      DiskGetKeepsCoherence(t, last, now, limits, key, env);
    } else {
      var m := CacheModel.Lookup(t.memory, key);
      DropFromMemory(t, last, env.atStore, key);
      var u := t.(memory := Without(t.memory, key));
      if Expired(m.storedAt, m.ttl, env.atMemory) {
        if key in t.disk {
          StaleExpiresFirst(t.disk[key], m, env.atMemory, env.atDisk);
        } else {
          assert t.disk - {key} == t.disk;
        }
      } else {
        PutInFront(u, last, env.atStore, m);
        assert last[key := Accepted(m.payload, m.ttl)] == last;
      }
    }
  }

  lemma DiskGetKeepsCoherence(t: Tiers, last: map<string, Accepted>, now: int, limits: Limits, key: string, env: Env)
    requires Coherent(t, last, now) && now <= env.atMemory && InOrder(env) && !Has(t.memory, key)
    ensures Coherent(NextGet(t, limits, key, env).tiers, last, env.atStore)
    ensures var hit := NextGet(t, limits, key, env).hit;
            hit.Some? ==> key in last && hit.value.payload == last[key].payload
  {
    LaterStillCoherent(t, last, now, env.atStore);
    var dsk := Disk.AfterGet(t.disk, key, env.atDisk, env.readFault);
    ShrinkDisk(t, last, env.atStore, dsk.contents);
    if dsk.hit.Some? {
      var slot := dsk.hit.value.(storedAt := env.atStore);
      assert last[key] == Accepted(slot.payload, slot.ttl);
      StoreKeepsCoherence(t, last, env.atStore, limits, slot, env);
      assert last[key := Accepted(slot.payload, slot.ttl)] == last;
      var promoted := Store(t, limits, slot, env);
      ShrinkDisk(promoted, last, env.atStore, promoted.disk - {key});
    }
  }

  lemma NextKeepsCoherence(t: Tiers, last: map<string, Accepted>, now: int, limits: Limits, call: Call)
    requires Coherent(t, last, now) && now <= call.env.atMemory && InOrder(call.env) && TtlKept(last, call.op)
    ensures var r := Next(t, limits, call);
      match call.op
      case Get(key) => Coherent(r.tiers, last, call.env.atStore)
      case Put(key, payload, ttl) =>
        Coherent(r.tiers, if Cacheable(payload) then last[key := Accepted(payload, ttl)] else last, call.env.atStore)
      case Purge => Coherent(r.tiers, map[], call.env.atStore)
  {
    LaterStillCoherent(t, last, now, call.env.atStore);
    match call.op
    case Get(key) => GetKeepsCoherence(t, last, now, limits, key, call.env);
    case Put(key, payload, ttl) =>
      if Cacheable(payload) {
        StoreKeepsCoherence(t, last, call.env.atStore, limits, Slot(key, payload, call.env.atStore, ttl), call.env);
      }
    case Purge =>
  }

  ghost function LastReading(calls: seq<Call>): (now: int)
    requires calls != []
  {
    calls[|calls| - 1].env.atStore
  }

  lemma {:induction false} RunCoherent(limits: Limits, calls: seq<Call>, now: int)
    requires Clocked(calls) && TtlNeverShrinks(calls)
    requires calls != [] ==> LastReading(calls) <= now
    ensures Coherent(Run(limits, calls), LastPuts(calls), now)
    decreases |calls|
  {
    if calls == [] {
    } else {
      var n := |calls| - 1;
      var before, call := calls[..n], calls[n];
      assert forall i | 0 <= i < n :: before[..i] == calls[..i];
      RunCoherent(limits, before, call.env.atMemory);
      NextKeepsCoherence(Run(limits, before), LastPuts(before), call.env.atMemory, limits, call);
      LaterStillCoherent(Run(limits, calls), LastPuts(calls), LastReading(calls), now);
    }
  }

  /**
   * In every run, whatever is evicted and whichever reads and writes fail, a get returns a miss or exactly the
   * payload of the last accepted put of that key since the last purge, even while an older copy is on disk.
   */
  lemma HybridCoherence(limits: Limits, calls: seq<Call>, i: nat)
    requires Clocked(calls) && TtlNeverShrinks(calls)
    requires i < |calls| && calls[i].op.Get?
    ensures var hit, last := Hit(limits, calls, i), LastPuts(calls[..i]);
            hit.Some? ==> calls[i].op.key in last && hit.value.payload == last[calls[i].op.key].payload
  {
    var before := calls[..i];
    assert forall j | 0 <= j < i :: before[..j] == calls[..j];
    RunCoherent(limits, before, calls[i].env.atMemory);
    var env := calls[i].env;
    GetKeepsCoherence(Run(limits, before), LastPuts(before), env.atMemory, limits, calls[i].op.key, env);
  }

  // ---- Capacity ----

  ghost predicate WithinLimits(t: Tiers, limits: Limits) {
    Bounded(t.memory, limits.maxEntries) && Disk.WithinBudget(t.disk, limits.maxBytes)
  }

  lemma StoreKeepsLimits(t: Tiers, limits: Limits, slot: Slot, env: Env)
    requires WithinLimits(t, limits) && 0 < limits.maxEntries && StoreAllowed(t, limits, slot, env)
    ensures WithinLimits(Store(t, limits, slot, env), limits)
  {
    RecencyPutKeepsBound(t.memory, limits.maxEntries, slot);
    var evicted := RecencyPut(t.memory, limits.maxEntries, slot).evicted;
    if evicted != [] {
      Disk.PutKeepsBudget(t.disk, limits.maxBytes, evicted[0].(storedAt := env.atSpill), env.gone, env.writeFault,
                          Spill(t.disk, evicted, env));
    }
  }

  lemma NextKeepsLimits(t: Tiers, limits: Limits, call: Call)
    requires WithinLimits(t, limits) && 0 < limits.maxEntries && Allowed(t, limits, call)
    ensures WithinLimits(Next(t, limits, call).tiers, limits)
  {
    match call.op
    case Get(key) =>
      RecencyGetKeepsBound(t.memory, limits.maxEntries, key, call.env.atMemory);
      Disk.RemoveKeepsBudget(t.disk, limits.maxBytes, key);
      var mem := RecencyGet(t.memory, key, call.env.atMemory);
      var dsk := Disk.AfterGet(t.disk, key, call.env.atDisk, call.env.readFault);
      if mem.hit.None? && dsk.hit.Some? {
        var u, slot := Tiers(mem.slots, dsk.contents), dsk.hit.value.(storedAt := call.env.atStore);
        StoreKeepsLimits(u, limits, slot, call.env);
        Disk.RemoveKeepsBudget(Store(u, limits, slot, call.env).disk, limits.maxBytes, key);
      }
    case Put(key, payload, ttl) =>
      StoreKeepsLimits(t, limits, Slot(key, payload, call.env.atStore, ttl), call.env);
    case Purge =>
  }

  /** In every run memory holds at most `maxEntries` keys once each, and disk keeps its byte budget. */
  lemma {:induction false} RunWithinLimits(limits: Limits, calls: seq<Call>)
    requires Legal(limits, calls)
    ensures WithinLimits(Run(limits, calls), limits)
    decreases |calls|
  {
    if calls == [] {
    } else {
      var n := |calls| - 1;
      var before := calls[..n];
      assert forall i | 0 <= i < n :: before[..i] == calls[..i];
      RunWithinLimits(limits, before);
      NextKeepsLimits(Run(limits, before), limits, calls[n]);
    }
  }

  // ---- The object ----

  class HybridCache {
    const memory: Lru.Cache
    const disk: Disk.DiskCache

    ghost function Limit(): (l: Limits) {
      Limits(memory.maxEntries, disk.maxBytes)
    }

    ghost predicate Valid()
      reads this, memory, memory.Repr, memory.Spine, disk
    {
      && memory.Valid() && disk.Valid()
      && Named(memory.Slots())
    }

    ghost function State(): (t: Tiers)
      reads this, memory, memory.Spine, disk
      requires disk.Indexed()
    {
      Tiers(memory.Slots(), disk.Stored())
    }

    constructor (memEntries: int, diskMaxBytes: int)
      ensures Valid() && fresh(memory) && fresh(disk) && fresh(memory.Repr)
      ensures State() == Tiers([], map[])
      ensures Limit() == Limits(if memEntries <= 0 then 10000 else memEntries, diskMaxBytes)
    {
      memory := new Lru.Cache(memEntries);
      disk := new Disk.DiskCache(diskMaxBytes);
    }

    /** The eviction callback; `gone` lists what the disk tier evicted in turn. */
    method OnEvict(evicted: seq<Slot>, env: Env, partial: Bytes) returns (ghost gone: seq<string>)
      requires disk.Valid() && |evicted| <= 1 && Named(evicted)
      modifies disk
      ensures disk.Valid()
      ensures disk.Stored() == Spill(old(disk.Stored()), evicted, env.(gone := gone))
      ensures SpillAllowed(old(disk.Stored()), evicted, Limit(), env.(gone := gone))
    {
      gone := [];
      if evicted != [] {
        var e := evicted[0];
        gone := disk.Put(e.key, e.payload, e.ttl, env.atSpill, env.writeFault, partial);
        assert e.(storedAt := env.atSpill) == Slot(e.key, e.payload, env.atSpill, e.ttl);
      }
    }

    method StoreInMemory(key: string, payload: Payload, ttl: int, env: Env, partial: Bytes)
      returns (ghost gone: seq<string>)
      requires Valid() && (Cacheable(payload) ==> key != "")
      modifies memory, memory.Repr, disk
      ensures Valid() && fresh(memory.Repr - old(memory.Repr))
      ensures var slot, used := Slot(key, payload, env.atStore, ttl), env.(gone := gone);
        State() == Store(old(State()), Limit(), slot, used) && StoreAllowed(old(State()), Limit(), slot, used)
    {
      ghost var slots, slot := memory.Slots(), Slot(key, payload, env.atStore, ttl);
      memory.SlotsBounded();
      RecencyPutEvicts(slots, memory.maxEntries, slot);
      RecencyPutKeepsNames(slots, memory.maxEntries, slot);
      var evicted := memory.Put(key, payload, ttl, env.atStore);
      gone := OnEvict(evicted, env, partial);
    }

    method PromoteSlot(slot: Slot, env: Env, partial: Bytes) returns (ghost gone: seq<string>)
      requires Valid() && slot.key != ""
      modifies memory, memory.Repr, disk
      ensures Valid() && fresh(memory.Repr - old(memory.Repr))
      ensures var stored, used := slot.(storedAt := env.atStore), env.(gone := gone);
        && StoreAllowed(old(State()), Limit(), stored, used)
        && var t := Store(old(State()), Limit(), stored, used); State() == t.(disk := t.disk - {slot.key})
    {
      assert slot.(storedAt := env.atStore) == Slot(slot.key, slot.payload, env.atStore, slot.ttl);
      gone := StoreInMemory(slot.key, slot.payload, slot.ttl, env, partial);
      RemoveFromDisk(slot.key);
    }

    /** Dropping a key from disk leaves memory alone. */
    method RemoveFromDisk(key: string)
      requires Valid()
      modifies disk
      ensures Valid() && State() == old(State()).(disk := old(State()).disk - {key})
    {
      disk.Remove(key);
      assert memory.Slots() == old(memory.Slots());
      assert memory.Valid();
    }

    method GetFromDisk(key: string, env: Env, partial: Bytes) returns (hit: Option<Slot>, ghost gone: seq<string>)
      requires Valid()
      modifies memory, memory.Repr, disk
      ensures Valid() && fresh(memory.Repr - old(memory.Repr))
      ensures Outcome(State(), hit) == Promote(old(State()), Limit(), key, env.(gone := gone))
      ensures PromoteAllowed(old(State()), Limit(), key, env.(gone := gone))
    {
      gone := [];
      hit := LookOnDisk(key, env);
      if hit.Some? {
        gone := PromoteSlot(hit.value, env, partial);
      }
    }

    /** A lookup on disk leaves memory alone. */
    method LookOnDisk(key: string, env: Env) returns (hit: Option<Slot>)
      requires Valid()
      modifies disk
      ensures Valid() && (hit.Some? ==> hit.value.key == key && key != "")
      ensures var dsk := Disk.AfterGet(old(State()).disk, key, env.atDisk, env.readFault);
        hit == dsk.hit && State() == old(State()).(disk := dsk.contents)
    {
      hit := disk.Get(key, env.atDisk, env.readFault);
      assert memory.Slots() == old(memory.Slots());
      assert memory.Valid();
    }

    method Get(key: string, env: Env, partial: Bytes) returns (hit: Option<Slot>, ghost gone: seq<string>)
      requires Valid()
      modifies memory, memory.Repr, disk
      ensures Valid() && fresh(memory.Repr - old(memory.Repr))
      ensures var call := Call(Op.Get(key), env.(gone := gone));
        Outcome(State(), hit) == Next(old(State()), Limit(), call) && Allowed(old(State()), Limit(), call)
    {
      gone := [];
      memory.SlotsBounded();
      RecencyGetKeepsNames(memory.Slots(), key, env.atMemory);
      hit := memory.Get(key, env.atMemory);
      if hit.None? {
        hit, gone := GetFromDisk(key, env, partial);
      }
    }

    method Put(key: string, payload: Payload, ttl: int, env: Env, partial: Bytes) returns (ghost gone: seq<string>)
      requires Valid() && (Cacheable(payload) ==> key != "")
      modifies memory, memory.Repr, disk
      ensures Valid() && fresh(memory.Repr - old(memory.Repr))
      ensures var call := Call(Op.Put(key, payload, ttl), env.(gone := gone));
        Outcome(State(), None) == Next(old(State()), Limit(), call) && Allowed(old(State()), Limit(), call)
    {
      gone := StoreInMemory(key, payload, ttl, env, partial);
    }

    method Purge()
      requires Valid()
      modifies memory, disk
      ensures Valid() && State() == Tiers([], map[])
    {
      memory.Purge();
      disk.Purge();
    }
  }
}
