/** The byte-budgeted disk tier: an index, a running byte count, and one body and one metadata file per key. */
module DiskCache {
  import opened Text
  import opened CacheModel

  // ---- The tier as a value: the readable slots by key ----

  type Contents = map<string, Slot>

  function Size(slot: Slot): (n: nat) {
    |slot.payload.body|
  }

  /** The bytes of all bodies. */
  ghost function Total(c: Contents): (n: nat)
    decreases |c|
  {
    if c == map[] then 0 else
      var k :| k in c;
      assert |(c - {k}).Keys| < |c.Keys| by { assert (c - {k}).Keys == c.Keys - {k}; }
      Size(c[k]) + Total(c - {k})
  }

  lemma {:induction false} TotalRemove(c: Contents, k: string)
    requires k in c
    ensures Total(c) == Size(c[k]) + Total(c - {k})
    decreases |c|
  {
    var j :| j in c && Total(c) == Size(c[j]) + Total(c - {j});
    if j != k {
      assert (c - {j}).Keys == c.Keys - {j};
      TotalRemove(c - {j}, k);
      assert (c - {k}).Keys == c.Keys - {k};
      TotalRemove(c - {k}, j);
      assert c - {j} - {k} == c - {k} - {j};
    }
  }

  lemma TotalAdd(c: Contents, k: string, slot: Slot)
    requires k !in c
    ensures Total(c[k := slot]) == Total(c) + Size(slot)
  {
    TotalRemove(c[k := slot], k);
    assert c[k := slot] - {k} == c;
  }

  ghost predicate IsOldest(c: Contents, k: string) {
    k in c && forall j | j in c :: c[k].storedAt <= c[j].storedAt
  }

  function RemoveAll(c: Contents, keys: seq<string>): (r: Contents) {
    c - (set k | k in keys)
  }

  ghost predicate Fits(c: Contents, need: int, max: int) {
    Total(c) + need <= max || c == map[]
  }

  /** The eviction policy: drop a least recently stored slot while `need` more bytes do not fit. */
  ghost predicate Evicting(c: Contents, need: int, max: int, keys: seq<string>) {
    forall i | 0 <= i < |keys| ::
      !Fits(RemoveAll(c, keys[..i]), need, max) && IsOldest(RemoveAll(c, keys[..i]), keys[i])
  }

  ghost predicate Evicts(c: Contents, need: int, max: int, keys: seq<string>) {
    Evicting(c, need, max, keys) && Fits(RemoveAll(c, keys), need, max)
  }

  lemma RemoveAllOneMore(c: Contents, keys: seq<string>, k: string)
    ensures RemoveAll(c, keys + [k]) == RemoveAll(c, keys) - {k}
  {
    assert (set j | j in keys + [k]) == (set j | j in keys) + {k};
  }

  lemma EvictingOneMore(c: Contents, need: int, max: int, keys: seq<string>, k: string)
    requires Evicting(c, need, max, keys)
    requires !Fits(RemoveAll(c, keys), need, max) && IsOldest(RemoveAll(c, keys), k)
    ensures Evicting(c, need, max, keys + [k])
  {
    var more := keys + [k];
    forall i | 0 <= i < |more|
      ensures !Fits(RemoveAll(c, more[..i]), need, max) && IsOldest(RemoveAll(c, more[..i]), more[i])
    {
      assert more[..i] == if i < |keys| then keys[..i] else keys;
    }
  }

  datatype WriteFault = WriteFault(mkdir: bool, body: bool, meta: bool) {
    predicate Any() { mkdir || body || meta }
  }

  datatype ReadFault = ReadFault(meta: bool, body: bool)

  /** The effect of a put that evicts `keys` and whose file writes fail as `fault` says. */
  function AfterPut(c: Contents, slot: Slot, keys: seq<string>, fault: WriteFault): (r: Contents) {
    if !Cacheable(slot.payload) then c
    else
      var kept := RemoveAll(c - {slot.key}, keys);
      if fault.Any() then kept else kept[slot.key := slot]
  }

  ghost predicate PutStep(c: Contents, max: int, slot: Slot, keys: seq<string>, fault: WriteFault, r: Contents) {
    && (Cacheable(slot.payload) ==> Evicts(c - {slot.key}, Size(slot), max, keys))
    && r == AfterPut(c, slot, keys, fault)
  }

  datatype Lookup = Lookup(contents: Contents, hit: Option<Slot>)

  /** A live, readable slot is returned and stays; an expired or unreadable one is dropped. */
  function AfterGet(c: Contents, key: string, now: int, fault: ReadFault): (r: Lookup) {
    if key !in c then Lookup(c, None)
    else if fault.meta || Expired(c[key].storedAt, c[key].ttl, now) || fault.body then Lookup(c - {key}, None)
    else Lookup(c, Some(c[key]))
  }

  /** The budget is met, unless the only slot is itself larger than the budget. */
  ghost predicate WithinBudget(c: Contents, max: int) {
    Total(c) <= max || |c| <= 1
  }

  lemma RemoveKeepsBudget(c: Contents, max: int, k: string)
    requires WithinBudget(c, max)
    ensures WithinBudget(c - {k}, max)
  {
    if k in c {
      TotalRemove(c, k);
      assert (c - {k}).Keys == c.Keys - {k};
    } else {
      assert c - {k} == c;
    }
  }

  /** Whatever a put evicts and however its writes fail, the budget holds afterwards. */
  lemma PutKeepsBudget(c: Contents, max: int, slot: Slot, keys: seq<string>, fault: WriteFault, r: Contents)
    requires WithinBudget(c, max) && PutStep(c, max, slot, keys, fault, r)
    ensures WithinBudget(r, max)
  {
    if Cacheable(slot.payload) {
      TotalAdd(RemoveAll(c - {slot.key}, keys), slot.key, slot);
    }
  }

  // ---- The tier as an object ----

  datatype IndexEntry = IndexEntry(storedAt: int, size: nat)
  datatype Meta = Meta(statusCode: int, headers: Headers, storedAt: int, ttl: int)

  /** Every indexed key has both files, and they agree with the index. */
  ghost predicate Matches(index: map<string, IndexEntry>, metas: map<string, Meta>, bodies: map<string, Bytes>) {
    && "" !in index
    && forall k | k in index ::
         && k in metas && k in bodies
         && metas[k].storedAt == index[k].storedAt
         && |bodies[k]| == index[k].size
  }

  function ReadSlot(k: string, meta: Meta, body: Bytes): (s: Slot) {
    Slot(k, Payload(body, meta.statusCode, meta.headers), meta.storedAt, meta.ttl)
  }

  ghost function View(index: map<string, IndexEntry>, metas: map<string, Meta>, bodies: map<string, Bytes>)
    : (c: Contents)
    requires Matches(index, metas, bodies)
    ensures c.Keys == index.Keys
  {
    map k | k in index :: ReadSlot(k, metas[k], bodies[k])
  }

  /** Files of unindexed keys do not matter. */
  lemma ViewIgnoresOrphans(index: map<string, IndexEntry>, metas: map<string, Meta>, bodies: map<string, Bytes>,
                           metas': map<string, Meta>, bodies': map<string, Bytes>)
    requires Matches(index, metas, bodies)
    requires forall k | k in index :: k in metas' && metas'[k] == metas[k] && k in bodies' && bodies'[k] == bodies[k]
    ensures Matches(index, metas', bodies') && View(index, metas', bodies') == View(index, metas, bodies)
  {
  }

  lemma ViewRemove(index: map<string, IndexEntry>, metas: map<string, Meta>, bodies: map<string, Bytes>, key: string)
    requires Matches(index, metas, bodies)
    ensures Matches(index - {key}, metas, bodies)
    ensures View(index - {key}, metas, bodies) == View(index, metas, bodies) - {key}
  {
  }

  lemma ViewAdd(index: map<string, IndexEntry>, metas: map<string, Meta>, bodies: map<string, Bytes>, slot: Slot)
    requires Matches(index, metas, bodies) && slot.key !in index && slot.key != ""
    requires slot.key in metas && slot.key in bodies && ReadSlot(slot.key, metas[slot.key], bodies[slot.key]) == slot
    ensures Matches(index[slot.key := IndexEntry(slot.storedAt, Size(slot))], metas, bodies)
    ensures View(index[slot.key := IndexEntry(slot.storedAt, Size(slot))], metas, bodies)
         == View(index, metas, bodies)[slot.key := slot]
  {
  }

  class DiskCache {
    const maxBytes: int
    var usedBytes: int
    var index: map<string, IndexEntry>

    // The files, by the path the key hashes to; keys and paths correspond one to one.
    var metas: map<string, Meta>
    var bodies: map<string, Bytes>

    ghost predicate Indexed()
      reads this
    {
      Matches(index, metas, bodies)
    }

    ghost function Stored(): (c: Contents)
      reads this
      requires Indexed()
    {
      View(index, metas, bodies)
    }

    /** The byte count is the sum of the indexed sizes. */
    ghost predicate Counted()
      reads this
    {
      Indexed() && usedBytes == Total(Stored())
    }

    ghost predicate Valid()
      reads this
    {
      Counted() && WithinBudget(Stored(), maxBytes)
    }

    constructor (maxBytes: int)
      ensures Valid() && Stored() == map[] && this.maxBytes == maxBytes
    {
      this.maxBytes := maxBytes;
      usedBytes, index, metas, bodies := 0, map[], map[], map[];
    }

    /** Removing a file may fail, and then the file stays behind. */
    method RemoveFiles(key: string)
      modifies this`metas, this`bodies
      ensures metas.Keys >= old(metas).Keys - {key} && bodies.Keys >= old(bodies).Keys - {key}
      ensures forall k | k in old(metas) && k != key :: metas[k] == old(metas)[k]
      ensures forall k | k in old(bodies) && k != key :: bodies[k] == old(bodies)[k]
    {
      if * { bodies := bodies - {key}; }
      if * { metas := metas - {key}; }
    }

    method RemoveEntry(key: string)
      requires Counted() && key in index
      modifies this
      ensures Counted() && Stored() == old(Stored()) - {key}
    {
      TotalRemove(Stored(), key);
      ViewRemove(index, metas, bodies, key);
      RemoveFiles(key);
      usedBytes := usedBytes - index[key].size;
      index := index - {key};
      ViewIgnoresOrphans(index, old(metas), old(bodies), metas, bodies);
    }

    /** What a promotion does last: the key is dropped if the disk tier still has it. */
    method Remove(key: string)
      requires Valid()
      modifies this
      ensures Valid() && Stored() == old(Stored()) - {key}
    {
      RemoveKeepsBudget(Stored(), maxBytes, key);
      if key in index {
        RemoveEntry(key);
      } else {
        assert Stored() - {key} == Stored();
      }
    }

    /** Scans the index in any order for an entry stored no later than the others. */
    method EvictOldest() returns (ghost gone: string)
      requires Counted()
      modifies this
      ensures Counted()
      ensures if old(index) == map[] then gone == "" && Stored() == old(Stored())
              else IsOldest(old(Stored()), gone) && Stored() == old(Stored()) - {gone}
    {
      var oldestKey, oldestTime := "", 0;
      var todo := index.Keys;
      while todo != {}
        invariant todo <= index.Keys
        invariant oldestKey == "" ==> todo == index.Keys
        invariant oldestKey != "" ==> oldestKey in index && oldestTime == index[oldestKey].storedAt
        invariant oldestKey != "" ==> forall k | k in index && k !in todo :: oldestTime <= index[k].storedAt
        decreases todo
      {
        var key :| key in todo;
        todo := todo - {key};
        if oldestKey == "" || index[key].storedAt < oldestTime {
          oldestKey := key;
          oldestTime := index[key].storedAt;
        }
      }
      gone := oldestKey;
      if oldestKey != "" {
        RemoveEntry(oldestKey);
      }
    }

    method Get(key: string, now: int, fault: ReadFault) returns (hit: Option<Slot>)
      requires Valid()
      modifies this
      ensures Valid()
      ensures Lookup(Stored(), hit) == AfterGet(old(Stored()), key, now, fault)
    {
      if key !in index {
        return None;
      }
      RemoveKeepsBudget(Stored(), maxBytes, key);
      if fault.meta {
        RemoveEntry(key);
        return None;
      }
      var meta := metas[key];
      if meta.ttl > 0 && now - meta.storedAt > meta.ttl {
        RemoveEntry(key);
        return None;
      }
      if fault.body {
        RemoveEntry(key);
        return None;
      }
      return Some(Slot(key, Payload(bodies[key], meta.statusCode, meta.headers), meta.storedAt, meta.ttl));
    }

    /** The eviction loop of a put. */
    method MakeRoom(bodySize: nat) returns (ghost gone: seq<string>)
      requires Counted()
      modifies this
      ensures Counted()
      ensures Evicts(old(Stored()), bodySize, maxBytes, gone)
      ensures Stored() == RemoveAll(old(Stored()), gone)
    {
      gone := [];
      assert RemoveAll(Stored(), []) == Stored();
      while usedBytes + bodySize > maxBytes && |index| > 0
        invariant Counted()
        invariant Evicting(old(Stored()), bodySize, maxBytes, gone)
        invariant Stored() == RemoveAll(old(Stored()), gone)
        decreases |index|
      {
        ghost var keys := index.Keys;
        assert Stored().Keys == keys;
        ghost var k := EvictOldest();
        assert index.Keys == Stored().Keys == keys - {k};
        EvictingOneMore(old(Stored()), bodySize, maxBytes, gone, k);
        RemoveAllOneMore(old(Stored()), gone, k);
        gone := gone + [k];
      }
      assert index == map[] ==> Stored() == map[];
    }

    /** Writes body and metadata; a failed write leaves the key out of the index. */
    method Write(slot: Slot, fault: WriteFault, partial: Bytes)
      requires Counted() && slot.key !in index && slot.key != ""
      modifies this
      ensures Counted()
      ensures Stored() == if fault.Any() then old(Stored()) else old(Stored())[slot.key := slot]
    {
      if fault.mkdir {
        return;
      }
      bodies := bodies[slot.key := if fault.body then partial else slot.payload.body];
      ViewIgnoresOrphans(index, metas, old(bodies), metas, bodies);
      if fault.body {
        return;
      }
      if fault.meta {
        RemoveFiles(slot.key);
        ViewIgnoresOrphans(index, old(metas), old(bodies), metas, bodies);
        return;
      }
      WriteIndex(slot);
    }

    method WriteIndex(slot: Slot)
      requires Counted() && slot.key !in index && slot.key != ""
      requires slot.key in bodies && bodies[slot.key] == slot.payload.body
      modifies this`metas, this`index, this`usedBytes
      ensures Counted()
      ensures Stored() == old(Stored())[slot.key := slot]
    {
      TotalAdd(Stored(), slot.key, slot);
      metas := metas[slot.key := Meta(slot.payload.statusCode, slot.payload.headers, slot.storedAt, slot.ttl)];
      ViewIgnoresOrphans(index, old(metas), bodies, metas, bodies);
      ViewAdd(index, metas, bodies, slot);
      index := index[slot.key := IndexEntry(slot.storedAt, |slot.payload.body|)];
      usedBytes := usedBytes + |slot.payload.body|;
    }

    method Put(key: string, payload: Payload, ttl: int, now: int, fault: WriteFault, partial: Bytes)
      returns (ghost gone: seq<string>)
      requires Valid() && (Cacheable(payload) ==> key != "")
      modifies this
      ensures Valid()
      ensures PutStep(old(Stored()), maxBytes, Slot(key, payload, now, ttl), gone, fault, Stored())
    {
      gone := [];
      if ShouldSkipCache(payload.headers) {
        return;
      }
      if payload.statusCode < 200 || payload.statusCode >= 300 {
        return;
      }
      if key in index {
        RemoveEntry(key);
      }
      assert Stored() == old(Stored()) - {key};
      gone := MakeRoom(|payload.body|);
      Write(Slot(key, payload, now, ttl), fault, partial);
      PutKeepsBudget(old(Stored()), maxBytes, Slot(key, payload, now, ttl), gone, fault, Stored());
    }

    method Purge()
      requires Valid()
      modifies this
      ensures Valid() && Stored() == map[]
    {
      var todo := index.Keys;
      while todo != {}
        invariant todo == index.Keys && Indexed()
        decreases todo
      {
        var key :| key in todo;
        PurgeKey(key);
        todo := todo - {key};
      }
      usedBytes := 0;
      assert Stored() == map[];
    }

    method PurgeKey(key: string)
      requires Indexed() && key in index
      modifies this`index, this`metas, this`bodies
      ensures Indexed() && index.Keys == old(index).Keys - {key}
    {
      ViewRemove(index, metas, bodies, key);
      RemoveFiles(key);
      index := index - {key};
    }
  }
}
