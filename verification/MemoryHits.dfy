/** What the in-memory cache is for: an entry used lately enough is found again. */
module MemoryHits {
  import opened Text
  import opened CacheModel
  import opened Recency

  // ---- How deep an entry lies ----

  /** The entry is at position `p`, behind entries of the given keys only. */
  ghost predicate NearAt(s: seq<Slot>, p: nat, x: Slot, used: set<string>) {
    p < |s| && s[p] == x && x.key !in used && forall q | 0 <= q < p :: s[q].key in used
  }

  ghost predicate Near(s: seq<Slot>, x: Slot, used: set<string>) {
    exists p: nat :: NearAt(s, p, x, used)
  }

  lemma NearFront(x: Slot, s: seq<Slot>)
    ensures Near([x] + s, x, {})
  {
    assert NearAt([x] + s, 0, x, {});
  }

  lemma NearMore(s: seq<Slot>, x: Slot, used: set<string>, more: set<string>)
    requires Near(s, x, used) && used <= more && x.key !in more
    ensures Near(s, x, more)
  {
    var p: nat :| NearAt(s, p, x, used);
    assert NearAt(s, p, x, more);
  }

  lemma NearDrop(s: seq<Slot>, p: nat, x: Slot, used: set<string>, i: nat)
    requires NearAt(s, p, x, used) && i < |s| && i != p
    ensures NearAt(s[..i] + s[i + 1..], if i < p then p - 1 else p, x, used)
  {
    var r := s[..i] + s[i + 1..];
    forall j | 0 <= j < |r| ensures r[j] == s[if j < i then j else j + 1] {}
  }

  lemma NearWithout(s: seq<Slot>, x: Slot, used: set<string>, key: string)
    requires DistinctKeys(s) && Near(s, x, used) && key != x.key
    ensures Near(Without(s, key), x, used)
  {
    if Has(s, key) {
      var p: nat :| NearAt(s, p, x, used);
      var i := Position(s, key);
      NearDrop(s, p, x, used, i);
    } else {
      WithoutAbsent(s, key);
    }
  }

  lemma NearPush(y: Slot, s: seq<Slot>, x: Slot, used: set<string>)
    requires Near(s, x, used) && y.key != x.key
    ensures Near([y] + s, x, used + {y.key})
  {
    var p: nat :| NearAt(s, p, x, used);
    var r := [y] + s;
    forall q | 0 <= q < p + 1 ensures r[q].key in used + {y.key} { assert q > 0 ==> r[q] == s[q - 1]; }
    assert NearAt(r, p + 1, x, used + {y.key});
  }

  lemma NearGet(s: seq<Slot>, x: Slot, used: set<string>, key: string, now: int)
    requires DistinctKeys(s) && Near(s, x, used) && key != x.key
    ensures Near(RecencyGet(s, key, now).slots, x, used + {key})
  {
    if Has(s, key) {
      NearWithout(s, x, used, key);
      if !Expired(Lookup(s, key).storedAt, Lookup(s, key).ttl, now) {
        NearPush(Lookup(s, key), Without(s, key), x, used);
      } else {
        NearMore(Without(s, key), x, used, used + {key});
      }
    } else {
      NearMore(s, x, used, used + {key});
    }
  }

  function KeysBefore(s: seq<Slot>, p: nat): (keys: set<string>)
    requires p <= |s|
  {
    set q | 0 <= q < p :: s[q].key
  }

  lemma {:induction false} KeysBeforeSize(s: seq<Slot>, p: nat)
    requires DistinctKeys(s) && p <= |s|
    ensures |KeysBefore(s, p)| == p
    decreases p
  {
    if p == 0 {
    } else {
      KeysBeforeSize(s, p - 1);
      assert KeysBefore(s, p) == KeysBefore(s, p - 1) + {s[p - 1].key};
    }
  }

  /** Among fewer keys than the cache holds, the entry is not the last of a full cache. */
  lemma NotLast(s: seq<Slot>, x: Slot, used: set<string>, p: nat, key: string)
    requires DistinctKeys(s) && NearAt(s, p, x, used) && !Has(s, key) && |used + {key}| < |s|
    ensures p < |s| - 1
  {
    KeysBeforeSize(s, p);
    HasIs(s, key);
    assert key !in KeysBefore(s, p);
    SubsetSize(KeysBefore(s, p) + {key}, used + {key});
  }

  lemma NearPut(s: seq<Slot>, x: Slot, used: set<string>, max: int, slot: Slot)
    requires DistinctKeys(s) && Near(s, x, used) && slot.key != x.key && |used + {slot.key}| < max
    ensures Near(RecencyPut(s, max, slot).slots, x, used + {slot.key})
  {
    if !Cacheable(slot.payload) {
      NearMore(s, x, used, used + {slot.key});
    } else if Has(s, slot.key) {
      NearWithout(s, x, used, slot.key);
      NearPush(slot, Without(s, slot.key), x, used);
    } else if |s| < max || s == [] {
      NearPush(slot, s, x, used);
    } else {
      var p: nat :| NearAt(s, p, x, used);
      NotLast(s, x, used, p, slot.key);
      assert NearAt(s[..|s| - 1], p, x, used);
      NearPush(slot, s[..|s| - 1], x, used);
    }
  }

  lemma NearIsFound(s: seq<Slot>, x: Slot, used: set<string>, now: int)
    requires DistinctKeys(s) && Near(s, x, used)
    ensures Has(s, x.key) && Lookup(s, x.key) == x
    ensures RecencyGet(s, x.key, now).hit == if Expired(x.storedAt, x.ttl, now) then None else Some(x)
  {
    var p: nat :| NearAt(s, p, x, used);
    SlotAt(s, p);
  }

  // ---- Runs ----

  /** The entry a call stores or hits. */
  function UsedBy(max: int, calls: seq<Call>, i: nat): (x: Option<Slot>)
    requires i < |calls|
  {
    match calls[i]
    case Put(slot) => if Cacheable(slot.payload) then Some(slot) else None
    case Get(key, now) => RecencyGet(Run(max, calls[..i]), key, now).hit
    case Purge => None
  }

  function KeyOf(call: Call): (key: string)
    requires !call.Purge?
  {
    match call case Put(slot) => slot.key case Get(key, _) => key
  }

  /** The keys that calls `i..j` ask for or store. */
  function KeysIn(calls: seq<Call>, i: nat, j: nat): (keys: set<string>)
    requires i <= j <= |calls| && forall k | i <= k < j :: !calls[k].Purge?
  {
    if i == j then {} else KeysIn(calls, i, j - 1) + {KeyOf(calls[j - 1])}
  }

  lemma UsedIsFront(max: int, calls: seq<Call>, i: nat)
    requires i < |calls| && UsedBy(max, calls, i).Some?
    ensures Near(Run(max, calls[..i + 1]), UsedBy(max, calls, i).value, {})
  {
    var s, r := Run(max, calls[..i]), Run(max, calls[..i + 1]);
    assert calls[..i + 1][..i] == calls[..i];
    NearFront(UsedBy(max, calls, i).value, r[1..]);
    assert r == [UsedBy(max, calls, i).value] + r[1..];
  }

  lemma NearNext(max: int, s: seq<Slot>, x: Slot, used: set<string>, call: Call)
    requires DistinctKeys(s) && Near(s, x, used) && !call.Purge? && KeyOf(call) != x.key && |used + {KeyOf(call)}| < max
    ensures Near(Next(max, s, call), x, used + {KeyOf(call)})
  {
    match call
    case Get(key, now) => NearGet(s, x, used, key, now);
    case Put(slot) => NearPut(s, x, used, max, slot);
  }

  lemma OneMoreKey(calls: seq<Call>, i: nat, j: nat)
    requires i <= j < |calls| && forall k | i <= k <= j :: !calls[k].Purge?
    ensures |KeysIn(calls, i, j)| <= |KeysIn(calls, i, j + 1)|
  {
    SubsetSize(KeysIn(calls, i, j), KeysIn(calls, i, j + 1));
  }

  lemma RunOneMore(max: int, calls: seq<Call>, j: nat)
    requires j < |calls|
    ensures Run(max, calls[..j + 1]) == Next(max, Run(max, calls[..j]), calls[j])
  {
    assert calls[..j + 1][..j] == calls[..j];
  }

  /** Calls `i..j` use other keys only, and fewer than the cache has room for. */
  ghost predicate FewOthers(max: int, calls: seq<Call>, i: nat, j: nat, key: string) {
    && i <= j <= |calls| && (forall k | i <= k < j :: !calls[k].Purge? && KeyOf(calls[k]) != key)
    && |KeysIn(calls, i, j)| < max
  }

  /** After call `j` the entry lies behind what calls `i..j` used. */
  ghost predicate Kept(max: int, calls: seq<Call>, i: nat, j: nat, x: Slot)
    requires FewOthers(max, calls, i, j, x.key)
  {
    Near(Run(max, calls[..j]), x, KeysIn(calls, i, j))
  }

  lemma KeptStep(max: int, calls: seq<Call>, i: nat, j: nat, x: Slot)
    requires i <= j < |calls| && FewOthers(max, calls, i, j, x.key) && FewOthers(max, calls, i, j + 1, x.key)
    requires Kept(max, calls, i, j, x)
    ensures Kept(max, calls, i, j + 1, x)
  {
    var s, used, call := Run(max, calls[..j]), KeysIn(calls, i, j), calls[j];
    OrderedDistinct(max, calls[..j]);
    RunOneMore(max, calls, j);
    assert KeysIn(calls, i, j + 1) == used + {KeyOf(call)};
    NearNext(max, s, x, used, call);
  }

  lemma KeptStart(max: int, calls: seq<Call>, i: nat, x: Slot)
    requires FewOthers(max, calls, i, i, x.key) && Near(Run(max, calls[..i]), x, {})
    ensures Kept(max, calls, i, i, x)
  {
    assert KeysIn(calls, i, i) == {};
  }

  lemma FewerOthers(max: int, calls: seq<Call>, i: nat, j: nat, key: string)
    requires i <= j < |calls| && FewOthers(max, calls, i, j + 1, key)
    ensures FewOthers(max, calls, i, j, key)
  {
    OneMoreKey(calls, i, j);
  }

  lemma {:induction false} StaysKept(max: int, calls: seq<Call>, i: nat, j: nat, x: Slot)
    requires FewOthers(max, calls, i, j, x.key) && FewOthers(max, calls, i, i, x.key) && Kept(max, calls, i, i, x)
    ensures Kept(max, calls, i, j, x)
    decreases j
  {
    if i == j {
    } else {
      FewerOthers(max, calls, i, j - 1, x.key);
      StaysKept(max, calls, i, j - 1, x);
      KeptStep(max, calls, i, j - 1, x);
    }
  }

  /**
   * In every run, an entry stored or hit by call `i` is hit by a later get of its key, until it expires, as long as no
   * purge and fewer other keys than the cache has room for come in between.
   */
  lemma HitsAgain(max: int, calls: seq<Call>, i: nat, j: nat, now: int)
    requires i < j <= |calls| && UsedBy(max, calls, i).Some?
    requires FewOthers(max, calls, i + 1, j, UsedBy(max, calls, i).value.key)
    ensures var x := UsedBy(max, calls, i).value;
      RecencyGet(Run(max, calls[..j]), x.key, now).hit == if Expired(x.storedAt, x.ttl, now) then None else Some(x)
  {
    var x := UsedBy(max, calls, i).value;
    UsedIsFront(max, calls, i);
    assert KeysIn(calls, i + 1, i + 1) == {};
    KeptStart(max, calls, i + 1, x);
    StaysKept(max, calls, i + 1, j, x);
    OrderedDistinct(max, calls[..j]);
    NearIsFound(Run(max, calls[..j]), x, KeysIn(calls, i + 1, j), now);
  }
}
