/** Runs of the in-memory cache: it holds the last puts, ordered by last use, and evicts the least recently used. */
module Recency {
  import opened Text
  import opened CacheModel

  datatype Call = Get(key: string, now: int) | Put(slot: Slot) | Purge

  function Next(max: int, s: seq<Slot>, call: Call): (r: seq<Slot>) {
    match call
    case Get(key, now) => RecencyGet(s, key, now).slots
    case Put(slot) => RecencyPut(s, max, slot).slots
    case Purge => []
  }

  function Run(max: int, calls: seq<Call>): (s: seq<Slot>) {
    if calls == [] then [] else Next(max, Run(max, calls[..|calls| - 1]), calls[|calls| - 1])
  }

  /** The call uses the key: a hit on it, or an accepted put of it. */
  predicate Uses(s: seq<Slot>, call: Call, key: string) {
    match call
    case Get(k, now) => k == key && RecencyGet(s, k, now).hit.Some?
    case Put(slot) => slot.key == key && Cacheable(slot.payload)
    case Purge => false
  }

  /** How many calls had been made when the key was last used; zero if it never was. */
  function LastUse(max: int, calls: seq<Call>, key: string): (n: nat)
    ensures n <= |calls|
  {
    if calls == [] then 0
    else
      var before := calls[..|calls| - 1];
      if Uses(Run(max, before), calls[|calls| - 1], key) then |calls| else LastUse(max, before, key)
  }

  /** The last accepted put of each key since the last purge. */
  function LastPuts(calls: seq<Call>): (m: map<string, Slot>) {
    if calls == [] then map[]
    else
      var before, call := LastPuts(calls[..|calls| - 1]), calls[|calls| - 1];
      if call.Purge? then map[]
      else if call.Put? && Cacheable(call.slot.payload) then before[call.slot.key := call.slot] else before
  }

  /** Every slot is the last put of its key. */
  ghost predicate Holds(s: seq<Slot>, last: map<string, Slot>) {
    forall x | x in s :: x.key in last && last[x.key] == x
  }

  ghost predicate Ordered(rank: string -> nat, s: seq<Slot>) {
    forall i, j | 0 <= i < j < |s| :: rank(s[i].key) > rank(s[j].key)
  }

  lemma {:induction false} WithoutAbsent(s: seq<Slot>, key: string)
    requires !Has(s, key)
    ensures Without(s, key) == s
  {
    if s == [] {
    } else {
      WithoutAbsent(s[1..], key);
    }
  }

  lemma OrderedDrop(rank: string -> nat, s: seq<Slot>, i: nat)
    requires Ordered(rank, s) && i < |s|
    ensures Ordered(rank, s[..i] + s[i + 1..])
  {
    var r := s[..i] + s[i + 1..];
    assert forall j | 0 <= j < |r| :: r[j] == s[if j < i then j else j + 1];
  }

  lemma Position(s: seq<Slot>, key: string) returns (i: nat)
    requires DistinctKeys(s) && Has(s, key)
    ensures i < |s| && s[i].key == key && Without(s, key) == s[..i] + s[i + 1..]
  {
    var x := Lookup(s, key);
    assert x.key == key;
    i :| 0 <= i < |s| && s[i] == x;
    SlotAt(s, i);
  }

  /** Leaving out a key keeps the order of the others. */
  lemma OrderedWithout(rank: string -> nat, s: seq<Slot>, key: string)
    requires Ordered(rank, s)
    ensures Ordered(rank, Without(s, key))
  {
    if Has(s, key) {
      var i := Position(s, key);
      OrderedDrop(rank, s, i);
    } else {
      WithoutAbsent(s, key);
    }
  }

  /** A key ranked above all others goes in front. */
  lemma OrderedFront(rank: string -> nat, rank': string -> nat, x: Slot, s: seq<Slot>)
    requires Ordered(rank, s)
    requires forall y | y in s :: rank'(y.key) == rank(y.key) < rank'(x.key)
    ensures Ordered(rank', [x] + s)
  {
    var r := [x] + s;
    forall i, j | 0 <= i < j < |r| ensures rank'(r[i].key) > rank'(r[j].key) {
      assert r[j] in s;
      assert i > 0 ==> r[i] in s;
    }
  }

  lemma OrderedSame(rank: string -> nat, rank': string -> nat, s: seq<Slot>)
    requires Ordered(rank, s) && forall y | y in s :: rank'(y.key) == rank(y.key)
    ensures Ordered(rank', s)
  {
  }

  ghost function Rank(max: int, calls: seq<Call>): (rank: string -> nat) {
    key => LastUse(max, calls, key)
  }

  lemma NextOrdered(max: int, calls: seq<Call>)
    requires calls != []
    requires var before := calls[..|calls| - 1]; Ordered(Rank(max, before), Run(max, before))
    ensures Ordered(Rank(max, calls), Run(max, calls))
  {
    var before, call := calls[..|calls| - 1], calls[|calls| - 1];
    var s, rank, rank' := Run(max, before), Rank(max, before), Rank(max, calls);
    match call
    case Get(key, now) =>
      OrderedWithout(rank, s, key);
      WithoutMembers(s, key);
      if !Has(s, key) {
        OrderedSame(rank, rank', s);
      } else if Expired(Lookup(s, key).storedAt, Lookup(s, key).ttl, now) {
        OrderedSame(rank, rank', Without(s, key));
      } else {
        OrderedFront(rank, rank', Lookup(s, key), Without(s, key));
      }
    case Put(slot) => PutOrdered(max, calls, slot);
    case Purge =>
  }

  lemma PutOrdered(max: int, calls: seq<Call>, slot: Slot)
    requires calls != [] && calls[|calls| - 1] == Put(slot)
    requires var before := calls[..|calls| - 1]; Ordered(Rank(max, before), Run(max, before))
    ensures Ordered(Rank(max, calls), Run(max, calls))
  {
    var before := calls[..|calls| - 1];
    var s, rank, rank' := Run(max, before), Rank(max, before), Rank(max, calls);
    HasIs(s, slot.key);
    if !Cacheable(slot.payload) {
      OrderedSame(rank, rank', s);
    } else if Has(s, slot.key) {
      OrderedWithout(rank, s, slot.key);
      WithoutMembers(s, slot.key);
      OrderedFront(rank, rank', slot, Without(s, slot.key));
    } else if |s| < max || s == [] {
      OrderedFront(rank, rank', slot, s);
    } else {
      OrderedFront(rank, rank', slot, s[..|s| - 1]);
    }
  }

  /** After every run the slots are in order of last use, the most recently used first. */
  lemma {:induction false} RunOrdered(max: int, calls: seq<Call>)
    ensures Ordered(Rank(max, calls), Run(max, calls))
    decreases |calls|
  {
    if calls == [] {
    } else {
      RunOrdered(max, calls[..|calls| - 1]);
      NextOrdered(max, calls);
    }
  }

  lemma {:induction false} RunBounded(max: int, calls: seq<Call>)
    requires 0 < max
    ensures Bounded(Run(max, calls), max)
    decreases |calls|
  {
    if calls == [] {
    } else {
      var before, call := calls[..|calls| - 1], calls[|calls| - 1];
      RunBounded(max, before);
      match call
      case Get(key, now) => RecencyGetKeepsBound(Run(max, before), max, key, now);
      case Put(slot) => RecencyPutKeepsBound(Run(max, before), max, slot);
      case Purge =>
    }
  }

  lemma GetHolds(s: seq<Slot>, last: map<string, Slot>, key: string, now: int)
    requires DistinctKeys(s) && Holds(s, last)
    ensures Holds(RecencyGet(s, key, now).slots, last)
  {
    WithoutMembers(s, key);
  }

  lemma PutHolds(s: seq<Slot>, last: map<string, Slot>, max: int, slot: Slot)
    requires DistinctKeys(s) && Holds(s, last)
    ensures Holds(RecencyPut(s, max, slot).slots, if Cacheable(slot.payload) then last[slot.key := slot] else last)
  {
    WithoutMembers(s, slot.key);
    HasIs(s, slot.key);
    var r := RecencyPut(s, max, slot).slots;
    if Cacheable(slot.payload) {
      forall x | x in r ensures x == slot || (x in s && x.key != slot.key) {}
    }
  }

  lemma OrderedDistinct(max: int, calls: seq<Call>)
    ensures DistinctKeys(Run(max, calls))
  {
    RunOrdered(max, calls);
  }

  /** After every run each slot is the last accepted put of its key. */
  lemma {:induction false} RunHolds(max: int, calls: seq<Call>)
    ensures Holds(Run(max, calls), LastPuts(calls))
    decreases |calls|
  {
    if calls == [] {
    } else {
      var before, call := calls[..|calls| - 1], calls[|calls| - 1];
      RunHolds(max, before);
      OrderedDistinct(max, before);
      match call
      case Get(key, now) => GetHolds(Run(max, before), LastPuts(before), key, now);
      case Put(slot) => PutHolds(Run(max, before), LastPuts(before), max, slot);
      case Purge =>
    }
  }

  /**
   * When a run's next put evicts a slot, the cache then holds exactly `max` slots, and the evicted one was last
   * used before all of them.
   */
  lemma EvictsLeastRecentlyUsed(max: int, calls: seq<Call>, slot: Slot, x: Slot)
    requires 0 < max && x in RecencyPut(Run(max, calls), max, slot).evicted
    ensures var r := Run(max, calls + [Put(slot)]);
      && |r| == max && DistinctKeys(r)
      && forall y | y in r :: y.key != x.key && LastUse(max, calls + [Put(slot)], y.key) > LastUse(max, calls, x.key)
  {
    var later := calls + [Put(slot)];
    assert later[..|later| - 1] == calls;
    var s, r := Run(max, calls), Run(max, later);
    RunOrdered(max, calls);
    RunBounded(max, calls);
    RunBounded(max, later);
    HasIs(s, slot.key);
    assert x == s[|s| - 1] && x in s;
    forall y | y in r ensures y.key != x.key && LastUse(max, later, y.key) > LastUse(max, calls, x.key) {
      KeptIsNewer(max, calls, slot, y);
    }
  }

  /** What stays besides a full cache's new slot was used after the last slot. */
  lemma KeptIsNewer(max: int, calls: seq<Call>, slot: Slot, y: Slot)
    requires var s := Run(max, calls);
      |s| > 0 && Cacheable(slot.payload) && !Has(s, slot.key) && Ordered(Rank(max, calls), s)
      && (y == slot || y in s[..|s| - 1])
    ensures var x, later := Run(max, calls)[|Run(max, calls)| - 1], calls + [Put(slot)];
      y.key != x.key && LastUse(max, later, y.key) > LastUse(max, calls, x.key)
  {
    var s, later := Run(max, calls), calls + [Put(slot)];
    var x := s[|s| - 1];
    assert later[..|later| - 1] == calls;
    HasIs(s, slot.key);
    assert x in s;
    if y != slot {
      var i :| 0 <= i < |s| - 1 && s[i] == y;
      assert y in s && Rank(max, calls)(s[i].key) > Rank(max, calls)(x.key);
    }
  }

  /** A hit is the last accepted put of its key, and has not expired. */
  lemma HitIsLastPut(max: int, calls: seq<Call>, key: string, now: int)
    ensures var hit := RecencyGet(Run(max, calls), key, now).hit;
      hit.Some? ==>
        && key in LastPuts(calls) && hit.value == LastPuts(calls)[key]
        && !Expired(hit.value.storedAt, hit.value.ttl, now)
  {
    RunHolds(max, calls);
  }
}
