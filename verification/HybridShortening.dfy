/**
 * The condition on TTLs is needed: in a hybrid cache of any size, replacing a response under any shorter TTL admits
 * a run that serves the replaced response.
 */
module HybridShortening {
  import opened Text
  import opened CacheModel
  import opened HybridCache
  import Disk = DiskCache

  function At(now: int): (env: Env) {
    Env(now, now, now, now, Disk.ReadFault(false, false), Disk.WriteFault(false, false, false), [])
  }

  function Response(statusCode: int): (p: Payload) {
    Payload([], statusCode, map[])
  }

  /** As many different keys as wanted, none of them "a". */
  function FillKey(i: nat): (key: string)
    ensures |key| == i + 1 && key[0] == 'b'
  {
    seq(i + 1, _ => 'b')
  }

  function Filler(i: nat, ttl: int): (s: Slot) {
    Slot(FillKey(i), Response(200), 0, ttl)
  }

  /** The first `n` fillers, the latest in front. */
  function Fillers(n: nat, ttl: int): (s: seq<Slot>)
    ensures |s| == n
  {
    if n == 0 then [] else [Filler(n - 1, ttl)] + Fillers(n - 1, ttl)
  }

  function First(ttl: int): (s: Slot) {
    Slot("a", Response(200), 0, ttl)
  }

  /** Stores "a" and then `n` fillers. */
  function Filling(n: nat, ttl: int): (calls: seq<Call>)
    ensures |calls| == n + 1 && forall i | 0 <= i <= n :: calls[i].env == At(0)
  {
    if n == 0 then [Call(Put("a", Response(200), ttl), At(0))]
    else Filling(n - 1, ttl) + [Call(Put(FillKey(n - 1), Response(200), ttl), At(0))]
  }

  function Replace(short: int): (call: Call) {
    Call(Put("a", Response(201), short), At(0))
  }

  function Ask(short: int): (call: Call) {
    Call(Get("a"), At(short + 1))
  }

  /** Store "a", push it to disk with fillers, replace it under a shorter TTL, and ask once that TTL has passed. */
  function ShorteningRun(maxEntries: nat, long: int, short: int): (calls: seq<Call>) {
    Filling(maxEntries, long) + [Replace(short)] + [Ask(short)]
  }

  // ---- One call ----

  lemma AllCacheable()
    ensures Cacheable(Response(200)) && Cacheable(Response(201))
  {
  }

  /** The calls are a legal run that ends in `t`. */
  ghost predicate Reaches(limits: Limits, calls: seq<Call>, t: Tiers) {
    Legal(limits, calls) && Run(limits, calls) == t
  }

  /** The call is permitted in `t` and leads to `u`. */
  ghost predicate Leads(limits: Limits, t: Tiers, call: Call, u: Tiers) {
    Allowed(t, limits, call) && Next(t, limits, call).tiers == u
  }

  lemma LegalAppend(limits: Limits, calls: seq<Call>, call: Call)
    requires Legal(limits, calls) && Allowed(Run(limits, calls), limits, call)
    ensures Legal(limits, calls + [call])
  {
    var more := calls + [call];
    forall i | 0 <= i < |more| ensures Allowed(Run(limits, more[..i]), limits, more[i]) {
      assert more[..i] == calls[..i];
      assert i == |calls| ==> calls[..i] == calls;
    }
  }

  lemma RunAppend(limits: Limits, calls: seq<Call>, call: Call)
    ensures Run(limits, calls + [call]) == Next(Run(limits, calls), limits, call).tiers
  {
    assert (calls + [call])[..|calls|] == calls;
  }

  lemma ReachesNext(limits: Limits, calls: seq<Call>, t: Tiers, call: Call, u: Tiers)
    requires Reaches(limits, calls, t) && Leads(limits, t, call, u)
    ensures Reaches(limits, calls + [call], u)
  {
    LegalAppend(limits, calls, call);
    RunAppend(limits, calls, call);
  }

  /** A new key while there is room. */
  lemma PutFits(t: Tiers, limits: Limits, key: string, payload: Payload, ttl: int)
    requires Cacheable(payload) && !Has(t.memory, key) && |t.memory| < limits.maxEntries
    ensures Leads(limits, t, Call(Put(key, payload, ttl), At(0)),
                  Tiers([Slot(key, payload, 0, ttl)] + t.memory, t.disk))
  {
  }

  /** Bodies without bytes fit any budget. */
  lemma NothingToEvict(c: Disk.Contents, maxBytes: nat, slot: Slot)
    requires Disk.Total(c - {slot.key}) == 0 && Disk.Size(slot) == 0 && Cacheable(slot.payload)
    ensures Disk.PutStep(c, maxBytes, slot, [], Disk.WriteFault(false, false, false), c[slot.key := slot])
  {
    assert Disk.RemoveAll(c - {slot.key}, []) == c - {slot.key};
    assert (c - {slot.key})[slot.key := slot] == c[slot.key := slot];
  }

  /** A new key when memory is full: the last slot goes to disk. */
  lemma PutSpills(t: Tiers, limits: Limits, key: string, payload: Payload, ttl: int, rest: seq<Slot>, last: Slot)
    requires Cacheable(payload) && !Has(t.memory, key) && t.memory == rest + [last]
    requires |t.memory| == limits.maxEntries && limits.maxBytes >= 0
    requires last.storedAt == 0 && Cacheable(last.payload) && Disk.Size(last) == 0
    requires Disk.Total(t.disk - {last.key}) == 0
    ensures Leads(limits, t, Call(Put(key, payload, ttl), At(0)),
                  Tiers([Slot(key, payload, 0, ttl)] + rest, t.disk[last.key := last]))
  {
    var slot := Slot(key, payload, 0, ttl);
    assert t.memory[..|t.memory| - 1] == rest && t.memory[|t.memory| - 1] == last;
    assert RecencyPut(t.memory, limits.maxEntries, slot) == PutResult([slot] + rest, [last]);
    assert last.(storedAt := 0) == last;
    NothingToEvict(t.disk, limits.maxBytes, last);
  }

  // ---- Filling up ----

  lemma {:induction false} FillersLack(n: nat, ttl: int, tail: seq<Slot>, key: string)
    requires !Has(tail, key) && (key == "a" || |key| > n)
    ensures !Has(Fillers(n, ttl) + tail, key)
    decreases n
  {
    var s := Fillers(n, ttl) + tail;
    if n == 0 {
      assert s == tail;
    } else {
      FillersLack(n - 1, ttl, tail, key);
      assert s[1..] == Fillers(n - 1, ttl) + tail;
      assert FillKey(n - 1) != key by { assert "a"[0] != 'b'; }
    }
  }

  lemma {:induction false} FillersEnd(n: nat, ttl: int)
    requires n > 0
    ensures exists rest :: Fillers(n, ttl) == rest + [Filler(0, ttl)] && |rest| == n - 1 && !Has(rest, "a")
    decreases n
  {
    if n == 1 {
      assert Fillers(1, ttl) == [] + [Filler(0, ttl)];
      assert !Has([], "a");
    } else {
      FillersEnd(n - 1, ttl);
      var rest :| Fillers(n - 1, ttl) == rest + [Filler(0, ttl)] && |rest| == n - 2 && !Has(rest, "a");
      var more := [Filler(n - 1, ttl)] + rest;
      assert Fillers(n, ttl) == more + [Filler(0, ttl)];
      assert more[1..] == rest && "a"[0] != 'b';
      assert !Has(more, "a");
    }
  }

  lemma NotFirstKey(i: nat)
    ensures FillKey(i) != "a"
  {
    assert "a"[0] != 'b';
  }

  lemma LacksFirst(key: string, ttl: int)
    requires key != "a"
    ensures !Has([First(ttl)], key)
  {
    assert [First(ttl)][1..] == [];
  }

  /** Memory after `n` fillers while there is room. */
  function Partial(n: nat, ttl: int): (t: Tiers) {
    Tiers(Fillers(n, ttl) + [First(ttl)], map[])
  }

  lemma PartialLacks(n: nat, ttl: int)
    ensures !Has(Partial(n, ttl).memory, FillKey(n))
  {
    NotFirstKey(n);
    LacksFirst(FillKey(n), ttl);
    FillersLack(n, ttl, [First(ttl)], FillKey(n));
  }

  lemma StartFilling(limits: Limits, ttl: int)
    requires 0 < limits.maxEntries
    ensures Reaches(limits, Filling(0, ttl), Partial(0, ttl))
  {
    AllCacheable();
    var call := Call(Put("a", Response(200), ttl), At(0));
    assert Reaches(limits, [], Tiers([], map[]));
    PutFits(Tiers([], map[]), limits, "a", Response(200), ttl);
    assert [First(ttl)] + [] == [] + [First(ttl)];
    ReachesNext(limits, [], Tiers([], map[]), call, Partial(0, ttl));
    assert [] + [call] == [call];
  }

  lemma FillOne(limits: Limits, n: nat, ttl: int)
    requires n + 1 < limits.maxEntries
    ensures Leads(limits, Partial(n, ttl), Call(Put(FillKey(n), Response(200), ttl), At(0)), Partial(n + 1, ttl))
  {
    AllCacheable();
    PartialLacks(n, ttl);
    PutFits(Partial(n, ttl), limits, FillKey(n), Response(200), ttl);
    assert [Filler(n, ttl)] + (Fillers(n, ttl) + [First(ttl)]) == Fillers(n + 1, ttl) + [First(ttl)];
  }

  /** While there is room everything stays in memory. */
  lemma {:induction false} RoomLeft(limits: Limits, n: nat, ttl: int)
    requires n < limits.maxEntries
    ensures Reaches(limits, Filling(n, ttl), Partial(n, ttl))
    decreases n
  {
    if n == 0 {
      StartFilling(limits, ttl);
    } else {
      RoomLeft(limits, n - 1, ttl);
      FillOne(limits, n - 1, ttl);
      var call := Call(Put(FillKey(n - 1), Response(200), ttl), At(0));
      ReachesNext(limits, Filling(n - 1, ttl), Partial(n - 1, ttl), call, Partial(n, ttl));
    }
  }

  /** Memory full of fillers, and "a" on disk. */
  function Filled(n: nat, ttl: int): (t: Tiers) {
    Tiers(Fillers(n, ttl), map["a" := First(ttl)])
  }

  lemma FirstSpills(limits: Limits, ttl: int)
    requires limits.maxEntries >= 1 && limits.maxBytes >= 0
    ensures var n := limits.maxEntries - 1;
      Leads(limits, Partial(n, ttl), Call(Put(FillKey(n), Response(200), ttl), At(0)), Filled(n + 1, ttl))
  {
    AllCacheable();
    var n := limits.maxEntries - 1;
    PartialLacks(n, ttl);
    var none: Disk.Contents := map[];
    assert none - {"a"} == none;
    PutSpills(Partial(n, ttl), limits, FillKey(n), Response(200), ttl, Fillers(n, ttl), First(ttl));
    assert none["a" := First(ttl)] == map["a" := First(ttl)];
  }

  /** The last filler pushes "a" to disk. */
  lemma FillingSpills(limits: Limits, ttl: int)
    requires limits.maxEntries >= 1 && limits.maxBytes >= 0
    ensures Reaches(limits, Filling(limits.maxEntries, ttl), Filled(limits.maxEntries, ttl))
  {
    var n := limits.maxEntries - 1;
    RoomLeft(limits, n, ttl);
    FirstSpills(limits, ttl);
    ReachesNext(limits, Filling(n, ttl), Partial(n, ttl), Call(Put(FillKey(n), Response(200), ttl), At(0)),
                Filled(n + 1, ttl));
  }

  /** The replacement in front of what is left of the fillers, over the old copy on disk. */
  function Replaced(rest: seq<Slot>, long: int, short: int): (t: Tiers) {
    Tiers([Slot("a", Response(201), 0, short)] + rest, map["a" := First(long)][FillKey(0) := Filler(0, long)])
  }

  lemma ReplaceSpills(limits: Limits, long: int, short: int, rest: seq<Slot>)
    requires limits.maxEntries >= 1 && limits.maxBytes >= 0
    requires Fillers(limits.maxEntries, long) == rest + [Filler(0, long)]
    ensures Leads(limits, Filled(limits.maxEntries, long), Replace(short), Replaced(rest, long, short))
  {
    AllCacheable();
    var m := limits.maxEntries;
    FillersLack(m, long, [], "a");
    assert Fillers(m, long) + [] == Fillers(m, long);
    var one: Disk.Contents := map["a" := First(long)];
    NotFirstKey(0);
    assert one - {FillKey(0)} == one;
    Disk.TotalRemove(one, "a");
    assert one - {"a"} == map[];
    PutSpills(Filled(m, long), limits, "a", Response(201), short, rest, Filler(0, long));
  }

  /** Replacing "a" spills a filler and leaves the old copy of "a" on disk. */
  lemma ReplacedInMemory(limits: Limits, long: int, short: int) returns (rest: seq<Slot>)
    requires limits.maxEntries >= 1 && limits.maxBytes >= 0
    ensures |rest| == limits.maxEntries - 1 && !Has(rest, "a")
    ensures Reaches(limits, Filling(limits.maxEntries, long) + [Replace(short)], Replaced(rest, long, short))
  {
    var m := limits.maxEntries;
    FillersEnd(m, long);
    rest :| Fillers(m, long) == rest + [Filler(0, long)] && |rest| == m - 1 && !Has(rest, "a");
    FillingSpills(limits, long);
    ReplaceSpills(limits, long, short, rest);
    ReachesNext(limits, Filling(m, long), Filled(m, long), Replace(short), Replaced(rest, long, short));
  }

  /** Past the short TTL the memory entry is dropped, and the old copy is live and promoted. */
  lemma OldCopyServed(t: Tiers, limits: Limits, long: int, short: int, rest: seq<Slot>)
    requires !TtlAtMost(long, short) && |rest| < limits.maxEntries && !Has(rest, "a")
    requires t.memory == [Slot("a", Response(201), 0, short)] + rest && "a" in t.disk && t.disk["a"] == First(long)
    ensures Allowed(t, limits, Ask(short)) && Next(t, limits, Ask(short)).hit == Some(First(long))
  {
    AllCacheable();
    var s := Slot("a", Response(201), 0, short);
    assert t.memory[0] == s && t.memory[1..] == rest;
    assert RecencyGet(t.memory, "a", short + 1) == GetResult(rest, None);
    var dsk := Disk.AfterGet(t.disk, "a", short + 1, Disk.ReadFault(false, false));
    assert dsk == Disk.Lookup(t.disk, Some(First(long)));
  }

  lemma ReplacedIsLast(calls: seq<Call>, short: int)
    ensures "a" in LastPuts(calls + [Replace(short)])
    ensures LastPuts(calls + [Replace(short)])["a"].payload == Response(201)
  {
    AllCacheable();
    assert (calls + [Replace(short)])[..|calls|] == calls;
  }

  lemma RunIsClocked(n: nat, long: int, short: int)
    requires short > 0
    ensures Clocked(ShorteningRun(n, long, short))
  {
    var calls := ShorteningRun(n, long, short);
    assert forall i | 0 <= i < |calls| - 1 :: calls[i].env == At(0);
  }

  /** For caches of every size and every shortened TTL: the last get of the run returns the replaced response. */
  lemma ShorteningServesReplaced(limits: Limits, long: int, short: int)
    requires limits.maxEntries >= 1 && limits.maxBytes >= 0 && !TtlAtMost(long, short)
    ensures var calls := ShorteningRun(limits.maxEntries, long, short);
      var i := |calls| - 1;
      && Legal(limits, calls) && Clocked(calls)
      && calls[i].op == Get("a") && Hit(limits, calls, i).Some? && "a" in LastPuts(calls[..i])
      && Hit(limits, calls, i).value.payload != LastPuts(calls[..i])["a"].payload
  {
    var fill := Filling(limits.maxEntries, long);
    var before, calls := fill + [Replace(short)], ShorteningRun(limits.maxEntries, long, short);
    assert calls == before + [Ask(short)] && calls[..|calls| - 1] == before;
    var rest := ReplacedInMemory(limits, long, short);
    NotFirstKey(0);
    var t := Replaced(rest, long, short);
    OldCopyServed(t, limits, long, short, rest);
    ReachesNext(limits, before, t, Ask(short), Next(t, limits, Ask(short)).tiers);
    ReplacedIsLast(fill, short);
    RunIsClocked(limits.maxEntries, long, short);
  }
}
