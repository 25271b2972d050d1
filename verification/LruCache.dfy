/** The in-memory tier: a map into a hand-linked list, most recently used entry at the head. */
module LruCache {
  import opened Text
  import opened CacheModel

  class Entry {
    const key: string
    var payload: Payload
    var storedAt: int
    var ttl: int
    var prev: Entry?
    var next: Entry?

    constructor (key: string, payload: Payload, storedAt: int, ttl: int)
      ensures this.key == key && prev == null && next == null
      ensures Value() == Slot(key, payload, storedAt, ttl)
    {
      this.key, this.payload, this.storedAt, this.ttl := key, payload, storedAt, ttl;
      prev, next := null, null;
    }

    method Refresh(payload: Payload, storedAt: int, ttl: int)
      modifies this`payload, this`storedAt, this`ttl
      ensures Value() == Slot(key, payload, storedAt, ttl)
    {
      this.payload := payload;
      this.storedAt := storedAt;
      this.ttl := ttl;
    }

    function Value(): (s: Slot)
      reads this`payload, this`storedAt, this`ttl
    {
      Slot(key, payload, storedAt, ttl)
    }
  }

  function At(s: seq<Entry>, i: int): (e: Entry?) {
    if 0 <= i < |s| then s[i] else null
  }

  /** The sequence without position `i`. */
  function Drop<T>(s: seq<T>, i: nat): (r: seq<T>)
    requires i < |s|
    ensures |r| == |s| - 1
  {
    s[..i] + s[i + 1..]
  }

  function Values(s: seq<Entry>): (r: seq<Slot>)
    reads s`payload, s`storedAt, s`ttl
    ensures |r| == |s|
  {
    if s == [] then [] else [s[0].Value()] + Values(s[1..])
  }

  lemma {:induction false} ValuesAt(s: seq<Entry>, i: nat)
    requires i < |s|
    ensures Values(s)[i] == s[i].Value()
  {
    if i == 0 {
    } else {
      ValuesAt(s[1..], i - 1);
    }
  }

  lemma {:induction false} ValuesDrop(s: seq<Entry>, i: nat)
    requires i < |s|
    ensures Values(Drop(s, i)) == Drop(Values(s), i)
    decreases i
  {
    if i == 0 {
      assert Drop(s, 0) == s[1..] && Drop(Values(s), 0) == Values(s)[1..];
    } else {
      ValuesDrop(s[1..], i - 1);
      assert Drop(s, i) == [s[0]] + Drop(s[1..], i - 1);
      assert Drop(Values(s), i) == [Values(s)[0]] + Drop(Values(s)[1..], i - 1);
    }
  }

  twostate lemma {:induction false} ValuesUnchanged(s: seq<Entry>)
    requires forall i | 0 <= i < |s| :: s[i].Value() == old(s[i].Value())
    ensures Values(s) == old(Values(s))
  {
    if s == [] {
    } else {
      ValuesUnchanged(s[1..]);
    }
  }

  // ---- The map: keys are immutable, so these facts do not depend on the heap ----

  /** The map holds exactly the listed entries, each under its own key. */
  ghost predicate Indexes(entries: map<string, Entry>, spine: seq<Entry>) {
    && (forall i | 0 <= i < |spine| :: spine[i].key in entries && entries[spine[i].key] == spine[i])
    && (forall k | k in entries :: entries[k] in spine && entries[k].key == k)
  }

  ghost predicate Distinct(spine: seq<Entry>) {
    forall i, j | 0 <= i < j < |spine| :: spine[i] != spine[j]
  }

  lemma RemoveSize(entries: map<string, Entry>, key: string)
    requires key in entries
    ensures |entries| == |entries - {key}| + 1
  {
    assert (entries - {key}).Keys == entries.Keys - {key};
  }

  lemma {:induction false} IndexSize(entries: map<string, Entry>, spine: seq<Entry>)
    requires Indexes(entries, spine) && Distinct(spine)
    ensures |entries| == |spine|
    decreases |spine|
  {
    if spine == [] {
      assert entries == map[];
    } else {
      IndexesDrop(entries, spine, 0);
      RemoveSize(entries, spine[0].key);
      assert Drop(spine, 0) == spine[1..];
      IndexSize(entries - {spine[0].key}, spine[1..]);
    }
  }

  lemma IndexesDrop(entries: map<string, Entry>, spine: seq<Entry>, i: nat)
    requires Indexes(entries, spine) && Distinct(spine) && i < |spine|
    ensures Indexes(entries - {spine[i].key}, Drop(spine, i))
  {
    var m, r := entries - {spine[i].key}, Drop(spine, i);
    assert m.Keys == entries.Keys - {spine[i].key};
    forall k | k in m ensures m[k] in r {
      var j :| 0 <= j < |spine| && spine[j] == entries[k];
      assert r[if j < i then j else j - 1] == spine[j];
    }
    forall j | 0 <= j < |r| ensures r[j].key in m && m[r[j].key] == r[j] {
      assert r[j] == spine[if j < i then j else j + 1];
    }
  }

  lemma IndexesFront(entries: map<string, Entry>, spine: seq<Entry>, i: nat)
    requires Indexes(entries, spine) && i < |spine|
    ensures Indexes(entries, [spine[i]] + Drop(spine, i))
  {
    var d := Drop(spine, i);
    var r := [spine[i]] + d;
    forall k | k in entries ensures entries[k] in r {
      var j :| 0 <= j < |spine| && spine[j] == entries[k];
      if j != i { assert d[if j < i then j else j - 1] == spine[j]; }
    }
    forall j | 0 <= j < |r| ensures r[j].key in entries && entries[r[j].key] == r[j] {
      assert r[j] == spine[if j == 0 then i else if j <= i then j - 1 else j];
    }
  }

  lemma IndexesAdd(entries: map<string, Entry>, spine: seq<Entry>, e: Entry)
    requires Indexes(entries, spine) && e.key !in entries
    ensures Indexes(entries[e.key := e], [e] + spine)
  {
    var r := [e] + spine;
    assert forall j | 0 < j < |r| :: r[j] == spine[j - 1];
  }

  // ---- The chains spelled out by the pointers ----

  ghost predicate NextChain(e: Entry?, s: seq<Entry>)
    reads s
  {
    if s == [] then e == null else e == s[0] && NextChain(s[0].next, s[1..])
  }

  ghost predicate PrevChain(e: Entry?, s: seq<Entry>)
    reads s
  {
    if s == [] then e == null else e == s[0] && PrevChain(s[0].prev, s[1..])
  }

  function Reverse<T>(s: seq<T>): (r: seq<T>)
    ensures |r| == |s|
    ensures forall i | 0 <= i < |s| :: r[i] == s[|s| - 1 - i]
  {
    if s == [] then [] else Reverse(s[1..]) + [s[0]]
  }

  /** Pointers spell at most one list. */
  lemma {:induction false} NextChainUnique(e: Entry?, s: seq<Entry>, t: seq<Entry>)
    requires NextChain(e, s) && NextChain(e, t)
    ensures s == t
    decreases |s|
  {
    if e == null {
    } else {
      NextChainUnique(e.next, s[1..], t[1..]);
      assert s == [s[0]] + s[1..] && t == [t[0]] + t[1..];
    }
  }

  lemma {:induction false} PrevChainUnique(e: Entry?, s: seq<Entry>, t: seq<Entry>)
    requires PrevChain(e, s) && PrevChain(e, t)
    ensures s == t
    decreases |s|
  {
    if e == null {
    } else {
      PrevChainUnique(e.prev, s[1..], t[1..]);
      assert s == [s[0]] + s[1..] && t == [t[0]] + t[1..];
    }
  }

  class Cache {
    var entries: map<string, Entry>
    const maxEntries: int
    var head: Entry?
    var tail: Entry?

    ghost var Spine: seq<Entry>
    ghost var Repr: set<Entry>

    /** The pointers spell out `Spine` in both directions. */
    ghost predicate Linked()
      reads this`head, this`tail, this`Spine, this`Repr, Repr`prev, Repr`next
    {
      && (forall i | 0 <= i < |Spine| :: Spine[i] in Repr)
      && Distinct(Spine)
      && head == (if |Spine| > 0 then Spine[0] else null)
      && tail == (if |Spine| > 0 then Spine[|Spine| - 1] else null)
      && (forall i {:trigger Spine[i].prev} | 0 <= i < |Spine| ::
            Spine[i].prev == (if i > 0 then Spine[i - 1] else null))
      && (forall i {:trigger Spine[i].next} | 0 <= i < |Spine| ::
            Spine[i].next == (if i + 1 < |Spine| then Spine[i + 1] else null))
    }

    ghost predicate Valid()
      reads this, Repr`prev, Repr`next
    {
      Linked() && Indexes(entries, Spine) && 0 < maxEntries && |Spine| <= maxEntries
    }

    /** The abstract value: the slots in recency order. */
    ghost function Slots(): (s: seq<Slot>)
      reads this`Spine, Spine`payload, Spine`storedAt, Spine`ttl
    {
      Values(Spine)
    }

    constructor (maxEntries: int)
      ensures Valid() && Slots() == [] && Repr == {}
      ensures this.maxEntries == if maxEntries <= 0 then 10000 else maxEntries
    {
      entries, head, tail, Spine, Repr := map[], null, null, [], {};
      this.maxEntries := if maxEntries <= 0 then 10000 else maxEntries;
    }

    /** Following `next` from the head and `prev` from the tail lists the same entries, reversed. */
    lemma ChainsAreReverses(forward: seq<Entry>, backward: seq<Entry>)
      requires Valid()
      ensures NextChain(head, forward) <==> forward == Spine
      ensures PrevChain(tail, backward) <==> backward == Reverse(Spine)
      ensures (set e | e in Spine) == entries.Values
    {
      NextChainFrom(0);
      PrevChainFrom(|Spine|);
      assert Spine[0..] == Spine && Spine[..|Spine|] == Spine;
      if NextChain(head, forward) { NextChainUnique(head, forward, Spine); }
      if PrevChain(tail, backward) { PrevChainUnique(tail, backward, Reverse(Spine)); }
    }

    lemma {:induction false} NextChainFrom(i: nat)
      requires Linked() && i <= |Spine|
      ensures NextChain(At(Spine, i), Spine[i..])
      decreases |Spine| - i
    {
      if i < |Spine| {
        NextChainFrom(i + 1);
        assert Spine[i..][1..] == Spine[i + 1..];
      }
    }

    lemma {:induction false} PrevChainFrom(i: nat)
      requires Linked() && i <= |Spine|
      ensures PrevChain(At(Spine, i - 1), Reverse(Spine[..i]))
      decreases i
    {
      if i == 0 {
      } else {
        PrevChainFrom(i - 1);
        assert Reverse(Spine[..i])[1..] == Reverse(Spine[..i - 1]);
      }
    }

    /** Distinct keys, so the slots are a recency sequence within the capacity. */
    lemma SlotsBounded()
      requires Valid()
      ensures Bounded(Slots(), maxEntries)
    {
      forall i | 0 <= i < |Slots()| ensures Slots()[i].key in entries && entries[Slots()[i].key] == Spine[i] {
        ValuesAt(Spine, i);
      }
    }

    lemma HasKey(key: string)
      requires Valid()
      ensures key in entries <==> Has(Slots(), key)
    {
      HasIs(Slots(), key);
      if key in entries {
        var i :| 0 <= i < |Spine| && Spine[i] == entries[key];
        ValuesAt(Spine, i);
        assert Slots()[i] in Slots();
      } else if Has(Slots(), key) {
        var i :| 0 <= i < |Slots()| && Slots()[i].key == key;
        ValuesAt(Spine, i);
      }
    }

    /** The entry stored under a key sits where the recency sequence has that key. */
    lemma EntryPosition(key: string) returns (i: nat)
      requires Valid() && key in entries
      ensures Has(Slots(), key)
      ensures i < |Spine| && Spine[i] == entries[key]
      ensures Lookup(Slots(), key) == entries[key].Value()
      ensures Without(Slots(), key) == Drop(Slots(), i)
    {
      SlotsBounded();
      i :| 0 <= i < |Spine| && Spine[i] == entries[key];
      ValuesAt(Spine, i);
      SlotAt(Slots(), i);
    }

    /** Map and slots follow the list when position `i` is dropped. */
    twostate lemma DroppedAt(i: nat)
      requires i < |old(Spine)| && Spine == Drop(old(Spine), i)
      requires entries == old(entries) - {old(Spine)[i].key}
      requires old(Indexes(entries, Spine)) && Distinct(old(Spine))
      requires forall j | 0 <= j < |old(Spine)| :: old(Spine)[j].Value() == old(Spine[j].Value())
      ensures Indexes(entries, Spine)
      ensures Slots() == Drop(old(Slots()), i)
    {
      IndexesDrop(old(entries), old(Spine), i);
      ValuesUnchanged(old(Spine));
      ValuesDrop(old(Spine), i);
    }

    /** Map and slots follow the list when position `i` moves to the front. */
    twostate lemma MovedToFront(i: nat)
      requires i < |old(Spine)| && Spine == [old(Spine)[i]] + Drop(old(Spine), i)
      requires entries == old(entries) && Indexes(entries, old(Spine))
      requires forall j | 0 <= j < |old(Spine)| && j != i :: old(Spine)[j].Value() == old(Spine[j].Value())
      ensures Indexes(entries, Spine)
      ensures Slots() == [old(Spine)[i].Value()] + Drop(old(Slots()), i)
    {
      IndexesFront(entries, old(Spine), i);
      ghost var rest := Drop(old(Spine), i);
      assert Spine[1..] == rest;
      assert old(ValuesDrop(Spine, i); Values(Drop(Spine, i)) == Drop(Slots(), i));
      ValuesUnchanged(rest);
    }

    /** Map and slots follow the list when a fresh entry is put in front. */
    twostate lemma AddedInFront(new entry: Entry)
      requires Spine == [entry] + old(Spine)
      requires entry.key !in old(entries) && entries == old(entries)[entry.key := entry]
      requires old(Indexes(entries, Spine))
      requires forall j | 0 <= j < |old(Spine)| :: old(Spine)[j].Value() == old(Spine[j].Value())
      ensures Indexes(entries, Spine)
      ensures Slots() == [entry.Value()] + old(Slots())
    {
      IndexesAdd(old(entries), old(Spine), entry);
      assert Spine[1..] == old(Spine);
      ValuesUnchanged(old(Spine));
    }

    method AddToHead(entry: Entry)
      requires Linked() && entry !in Spine
      modifies this`head, this`tail, this`Spine, this`Repr, entry`prev, entry`next, Repr`prev
      ensures Linked() && Spine == [entry] + old(Spine) && Repr == old(Repr) + {entry}
    {
      entry.prev := null;
      entry.next := head;
      if head != null {
        head.prev := entry;
      }
      head := entry;
      if tail == null {
        tail := entry;
      }
      Spine := [entry] + Spine;
      Repr := Repr + {entry};
    }

    /** The pointers around position `i` of `s` bypass it. */
    ghost predicate Bypassed(s: seq<Entry>, i: nat)
      reads this`head, this`tail, s`prev, s`next
      requires i < |s|
    {
      && head == (if i == 0 then At(s, 1) else s[0])
      && tail == (if i == |s| - 1 then At(s, i - 1) else s[|s| - 1])
      && (forall j {:trigger s[j].next} | 0 <= j < |s| && j != i ::
            s[j].next == At(s, if j + 1 == i then j + 2 else j + 1))
      && (forall j {:trigger s[j].prev} | 0 <= j < |s| && j != i ::
            s[j].prev == At(s, if j - 1 == i then j - 2 else j - 1))
    }

    lemma Relinked(s: seq<Entry>, i: nat)
      requires i < |s| && Distinct(s) && (forall j | 0 <= j < |s| :: s[j] in Repr)
      requires Spine == Drop(s, i) && Bypassed(s, i)
      ensures Linked() && s[i] !in Spine
    {
      assert forall j | 0 <= j < |Spine| :: Spine[j] == s[if j < i then j else j + 1];
    }

    method UnlinkEntry(entry: Entry, ghost i: nat)
      requires Linked() && i < |Spine| && Spine[i] == entry
      modifies this`head, this`tail, this`Spine, Repr`prev, Repr`next
      ensures Linked() && Spine == Drop(old(Spine), i) && entry !in Spine
    {
      if entry.prev != null {
        entry.prev.next := entry.next;
      } else {
        head := entry.next;
      }
      if entry.next != null {
        entry.next.prev := entry.prev;
      } else {
        tail := entry.prev;
      }
      entry.prev := null;
      entry.next := null;
      ghost var s := Spine;
      Spine := Drop(Spine, i);
      Relinked(s, i);
    }

    method MoveToHead(entry: Entry, ghost i: nat)
      requires Linked() && i < |Spine| && Spine[i] == entry
      modifies this`head, this`tail, this`Spine, this`Repr, Repr`prev, Repr`next
      ensures Linked() && Spine == [entry] + Drop(old(Spine), i)
      ensures Repr == old(Repr)
    {
      if head == entry {
        assert i == 0;
        assert Spine == [entry] + Drop(Spine, i);
        return;
      }
      UnlinkEntry(entry, i);
      AddToHead(entry);
    }

    method RemoveEntry(entry: Entry, ghost i: nat)
      requires Valid() && i < |Spine| && Spine[i] == entry
      modifies this`entries, this`head, this`tail, this`Spine, Repr`prev, Repr`next
      ensures Valid()
      ensures Slots() == Drop(old(Slots()), i)
      ensures entries == old(entries) - {entry.key}
    {
      entries := entries - {entry.key};
      UnlinkEntry(entry, i);
      DroppedAt(i);
    }

    method Get(key: string, now: int) returns (hit: Option<Slot>)
      requires Valid()
      modifies this`entries, this`head, this`tail, this`Spine, this`Repr, Repr`prev, Repr`next
      ensures Valid() && Repr == old(Repr)
      ensures GetResult(Slots(), hit) == RecencyGet(old(Slots()), key, now)
    {
      HasKey(key);
      if key !in entries {
        return None;
      }
      var entry := entries[key];
      ghost var i := EntryPosition(key);
      if Expired(entry.storedAt, entry.ttl, now) {
        RemoveEntry(entry, i);
        return None;
      }
      MoveToHead(entry, i);
      MovedToFront(i);
      hit := Some(entry.Value());
    }

    method EvictTail() returns (evicted: Option<Slot>)
      requires Valid()
      modifies this`entries, this`head, this`tail, this`Spine, Repr`prev, Repr`next
      ensures Valid() && entries.Keys <= old(entries).Keys
      ensures old(Slots()) == [] ==> evicted == None && Slots() == []
      ensures old(Slots()) != [] ==>
        && evicted == Some(old(Slots())[|old(Slots())| - 1])
        && Slots() == old(Slots())[..|old(Slots())| - 1]
    {
      if tail == null {
        return None;
      }
      var entry := tail;
      ValuesAt(Spine, |Spine| - 1);
      RemoveEntry(entry, |Spine| - 1);
      evicted := Some(entry.Value());
    }

    /** What the eviction loop has done so far: nothing, or one eviction from a full cache. */
    ghost predicate Evicted(before: seq<Slot>, now: seq<Slot>, evicted: seq<Slot>) {
      if evicted == [] then now == before
      else |before| == maxEntries > 0 && now == before[..maxEntries - 1] && evicted == [before[maxEntries - 1]]
    }

    /** The eviction loop: `evicted` lists the entries handed to the eviction callback, in order. */
    method MakeRoom() returns (evicted: seq<Slot>)
      requires Valid()
      modifies this`entries, this`head, this`tail, this`Spine, Repr`prev, Repr`next
      ensures Valid() && |Spine| < maxEntries && entries.Keys <= old(entries).Keys
      ensures if |old(Slots())| < maxEntries then Slots() == old(Slots()) && evicted == []
              else Slots() == old(Slots())[..|old(Slots())| - 1] && evicted == [old(Slots())[|old(Slots())| - 1]]
    {
      evicted := [];
      ghost var before := Slots();
      while |entries| >= maxEntries
        invariant Valid() && entries.Keys <= old(entries).Keys
        invariant Evicted(before, Slots(), evicted)
        decreases |Spine|
      {
        var gone := EvictFromFull();
        evicted := evicted + [gone];
      }
      IndexSize(entries, Spine);
    }

    /** One round of the eviction loop: the cache is exactly full, and gives up its last slot. */
    method EvictFromFull() returns (gone: Slot)
      requires Valid() && |entries| >= maxEntries
      modifies this`entries, this`head, this`tail, this`Spine, Repr`prev, Repr`next
      ensures Valid() && entries.Keys <= old(entries).Keys && |Spine| < |old(Spine)|
      ensures |old(Slots())| == maxEntries
      ensures Slots() == old(Slots())[..maxEntries - 1] && gone == old(Slots())[maxEntries - 1]
    {
      IndexSize(entries, Spine);
      var evicted := EvictTail();
      gone := evicted.value;
    }

    method Insert(entry: Entry)
      requires Valid() && entry !in Repr && entry.key !in entries && |Spine| < maxEntries
      modifies this`entries, this`head, this`tail, this`Spine, this`Repr, entry`prev, entry`next, Repr`prev
      ensures Valid() && Repr == old(Repr) + {entry}
      ensures Slots() == [entry.Value()] + old(Slots())
    {
      entries := entries[entry.key := entry];
      AddToHead(entry);
      AddedInFront(entry);
    }

    method AddNew(key: string, payload: Payload, ttl: int, now: int)
      requires Valid() && key !in entries && |Spine| < maxEntries
      modifies this`entries, this`head, this`tail, this`Spine, this`Repr, Repr`prev
      ensures Valid() && fresh(Repr - old(Repr))
      ensures Slots() == [Slot(key, payload, now, ttl)] + old(Slots())
    {
      var entry := new Entry(key, payload, now, ttl);
      Insert(entry);
    }

    method Update(key: string, payload: Payload, ttl: int, now: int)
      requires Valid() && key in entries
      modifies this`head, this`tail, this`Spine, this`Repr, Repr
      ensures Valid() && Repr == old(Repr)
      ensures Has(old(Slots()), key)
      ensures Slots() == [Slot(key, payload, now, ttl)] + Without(old(Slots()), key)
    {
      var existing := entries[key];
      ghost var i := EntryPosition(key);
      RefreshInFront(existing, i, payload, ttl, now);
    }

    /** The entry at position `i` gets new contents and moves to the front. */
    method RefreshInFront(existing: Entry, ghost i: nat, payload: Payload, ttl: int, now: int)
      requires Valid() && i < |Spine| && Spine[i] == existing
      modifies this`head, this`tail, this`Spine, this`Repr, Repr
      ensures Valid() && Repr == old(Repr)
      ensures Slots() == [Slot(existing.key, payload, now, ttl)] + Drop(old(Slots()), i)
    {
      existing.Refresh(payload, now, ttl);
      MoveToHead(existing, i);
      MovedToFront(i);
    }

    method Put(key: string, payload: Payload, ttl: int, now: int) returns (evicted: seq<Slot>)
      requires Valid()
      modifies this, Repr
      ensures Valid() && fresh(Repr - old(Repr))
      ensures PutResult(Slots(), evicted) == RecencyPut(old(Slots()), maxEntries, Slot(key, payload, now, ttl))
    {
      HasKey(key);
      evicted := [];
      if ShouldSkipCache(payload.headers) {
        return;
      }
      if payload.statusCode < 200 || payload.statusCode >= 300 {
        return;
      }
      if key in entries {
        Update(key, payload, ttl, now);
        return;
      }
      evicted := MakeRoom();
      AddNew(key, payload, ttl, now);
    }

    method Purge()
      requires Valid()
      modifies this`entries, this`head, this`tail, this`Spine
      ensures Valid() && Slots() == []
    {
      entries := map[];
      head := null;
      tail := null;
      Spine := [];
    }

    method Len() returns (n: nat)
      requires Valid()
      ensures n == |Slots()|
    {
      IndexSize(entries, Spine);
      n := |entries|;
    }
  }
}
