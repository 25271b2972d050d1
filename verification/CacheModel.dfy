/** Cached responses, and the memory tier as a sequence of slots ordered by recency. */
module CacheModel {
  import opened Text

  /** Header values by canonical header name. */
  type Headers = map<string, seq<string>>

  datatype Payload = Payload(body: Bytes, statusCode: int, headers: Headers)

  /** A stored response; times and TTLs are nanoseconds. */
  datatype Slot = Slot(key: string, payload: Payload, storedAt: int, ttl: int)

  function HeaderValue(headers: Headers, name: string): (v: string) {
    if name in headers && headers[name] != [] then headers[name][0] else ""
  }

  predicate ShouldSkipCache(headers: Headers) {
    var cc := HeaderValue(headers, "Cache-Control");
    cc != "" && (Contains(Lower(cc), "no-store") || Contains(Lower(cc), "no-cache"))
  }

  /** What both tiers accept: 2xx responses that Cache-Control does not exclude. */
  predicate Cacheable(p: Payload) {
    !ShouldSkipCache(p.headers) && 200 <= p.statusCode < 300
  }

  /** The word stands at position `i` of the text, in any letter case. */
  predicate MentionsAt(text: string, word: string, i: int) {
    0 <= i <= |text| - |word| && SameLetters(text[i..i + |word|], word)
  }

  ghost predicate Mentions(text: string, word: string) {
    exists i :: MentionsAt(text, word, i)
  }

  lemma ContainsLowerAt(text: string, word: string, i: nat)
    requires Lower(word) == word && i <= |text|
    ensures word <= Lower(text)[i..] <==> MentionsAt(text, word, i)
  {
    var n := |word|;
    if i + n <= |text| {
      assert Lower(text[i..i + n]) == Lower(text)[i..][..n];
      LowerExactly(text[i..i + n], word);
    }
  }

  lemma ContainsLower(text: string, word: string)
    requires Lower(word) == word
    ensures Contains(Lower(text), word) <==> Mentions(text, word)
  {
    forall i | 0 <= i <= |text| ensures word <= Lower(text)[i..] <==> MentionsAt(text, word, i) {
      ContainsLowerAt(text, word, i);
    }
  }

  /**
   * A response can be cached exactly when its status is 2xx and the first value of its Cache-Control header, if it has
   * one, mentions neither "no-store" nor "no-cache" in any letter case.
   */
  lemma CacheableExactly(p: Payload)
    ensures Cacheable(p) <==>
      && 200 <= p.statusCode <= 299
      && ("Cache-Control" in p.headers && p.headers["Cache-Control"] != [] ==>
            && !Mentions(p.headers["Cache-Control"][0], "no-store")
            && !Mentions(p.headers["Cache-Control"][0], "no-cache"))
  {
    var cc := HeaderValue(p.headers, "Cache-Control");
    assert Lower("no-store") == "no-store" && Lower("no-cache") == "no-cache";
    ContainsLower(cc, "no-store");
    ContainsLower(cc, "no-cache");
  }

  predicate Expired(storedAt: int, ttl: int, now: int) {
    ttl > 0 && now - storedAt > ttl
  }

  // ---- The memory tier as a value: most recently used slot first ----

  ghost predicate DistinctKeys(s: seq<Slot>) {
    forall i, j | 0 <= i < j < |s| :: s[i].key != s[j].key
  }

  predicate Has(s: seq<Slot>, key: string) {
    s != [] && (s[0].key == key || Has(s[1..], key))
  }

  function Lookup(s: seq<Slot>, key: string): (slot: Slot)
    requires Has(s, key)
    ensures slot in s && slot.key == key
  {
    if s[0].key == key then s[0] else Lookup(s[1..], key)
  }

  function Without(s: seq<Slot>, key: string): (r: seq<Slot>) {
    if s == [] then []
    else if s[0].key == key then s[1..]
    else [s[0]] + Without(s[1..], key)
  }

  datatype GetResult = GetResult(slots: seq<Slot>, hit: Option<Slot>)

  /** A live slot is returned and moves to the front; an expired one is dropped. */
  function RecencyGet(s: seq<Slot>, key: string, now: int): (r: GetResult) {
    if !Has(s, key) then GetResult(s, None)
    else
      var slot := Lookup(s, key);
      if Expired(slot.storedAt, slot.ttl, now) then GetResult(Without(s, key), None)
      else GetResult([slot] + Without(s, key), Some(slot))
  }

  datatype PutResult = PutResult(slots: seq<Slot>, evicted: seq<Slot>)

  /** An accepted slot goes to the front; a full cache first gives up its last slot. */
  function RecencyPut(s: seq<Slot>, max: int, slot: Slot): (r: PutResult) {
    if !Cacheable(slot.payload) then PutResult(s, [])
    else if Has(s, slot.key) then PutResult([slot] + Without(s, slot.key), [])
    else if |s| < max || s == [] then PutResult([slot] + s, [])
    else PutResult([slot] + s[..|s| - 1], [s[|s| - 1]])
  }

  /** What a lookup finds at position `i`, and what removing that key leaves. */
  lemma {:induction false} SlotAt(s: seq<Slot>, i: nat)
    requires DistinctKeys(s) && i < |s|
    ensures Has(s, s[i].key) && Lookup(s, s[i].key) == s[i]
    ensures Without(s, s[i].key) == s[..i] + s[i + 1..]
  {
    if i == 0 {
    } else {
      SlotAt(s[1..], i - 1);
      assert s[..i] + s[i + 1..] == [s[0]] + (s[1..][..i - 1] + s[1..][i..]);
    }
  }

  lemma {:induction false} HasIs(s: seq<Slot>, key: string)
    ensures Has(s, key) <==> exists x :: x in s && x.key == key
  {
    if s == [] {
    } else {
      HasIs(s[1..], key);
      assert s == [s[0]] + s[1..];
    }
  }

  /** Removing a key leaves exactly the other slots. */
  lemma {:induction false} WithoutMembers(s: seq<Slot>, key: string)
    requires DistinctKeys(s)
    ensures forall x :: x in Without(s, key) <==> x in s && x.key != key
  {
    if s == [] {
    } else {
      WithoutMembers(s[1..], key);
      assert s == [s[0]] + s[1..];
    }
  }

  lemma {:induction false} WithoutIs(s: seq<Slot>, key: string)
    requires DistinctKeys(s)
    ensures DistinctKeys(Without(s, key)) && !Has(Without(s, key), key)
    ensures |Without(s, key)| <= |s| && (Has(s, key) ==> |Without(s, key)| < |s|)
  {
    if s == [] {
    } else {
      WithoutIs(s[1..], key);
      WithoutMembers(s, key);
      HasIs(Without(s, key), key);
      if s[0].key != key { HasIs(Without(s[1..], key), s[0].key); WithoutMembers(s[1..], key); }
    }
  }

  lemma LookupIs(s: seq<Slot>, x: Slot)
    requires DistinctKeys(s) && x in s
    ensures Has(s, x.key) && Lookup(s, x.key) == x
  {
    var i :| 0 <= i < |s| && s[i] == x;
    SlotAt(s, i);
  }

  ghost predicate Bounded(s: seq<Slot>, max: int) {
    DistinctKeys(s) && |s| <= max
  }

  lemma PushFront(slot: Slot, s: seq<Slot>)
    requires DistinctKeys(s) && !Has(s, slot.key)
    ensures DistinctKeys([slot] + s)
  {
    HasIs(s, slot.key);
  }

  /** A get keeps the keys distinct and the capacity. */
  lemma RecencyGetKeepsBound(s: seq<Slot>, max: int, key: string, now: int)
    requires Bounded(s, max)
    ensures Bounded(RecencyGet(s, key, now).slots, max)
  {
    WithoutIs(s, key);
    if Has(s, key) { PushFront(Lookup(s, key), Without(s, key)); }
  }

  /** A put keeps the keys distinct and the capacity. */
  lemma RecencyPutKeepsBound(s: seq<Slot>, max: int, slot: Slot)
    requires Bounded(s, max) && 0 < max
    ensures Bounded(RecencyPut(s, max, slot).slots, max)
  {
    WithoutIs(s, slot.key);
    if Has(s, slot.key) {
      PushFront(slot, Without(s, slot.key));
    } else if |s| < max {
      PushFront(slot, s);
    } else {
      HasIs(s, slot.key);
      HasIs(s[..|s| - 1], slot.key);
      PushFront(slot, s[..|s| - 1]);
    }
  }

  ghost predicate Named(s: seq<Slot>) {
    forall x | x in s :: x.key != ""
  }

  lemma RecencyGetKeepsNames(s: seq<Slot>, key: string, now: int)
    requires DistinctKeys(s) && Named(s)
    ensures Named(RecencyGet(s, key, now).slots)
  {
    WithoutMembers(s, key);
  }

  lemma RecencyPutKeepsNames(s: seq<Slot>, max: int, slot: Slot)
    requires DistinctKeys(s) && Named(s) && (Cacheable(slot.payload) ==> slot.key != "")
    ensures Named(RecencyPut(s, max, slot).slots) && Named(RecencyPut(s, max, slot).evicted)
  {
    WithoutMembers(s, slot.key);
  }

  /** A put loses nothing but the slot it replaces: every other slot is kept or handed out as evicted. */
  lemma RecencyPutConserves(s: seq<Slot>, max: int, slot: Slot, x: Slot)
    requires Bounded(s, max) && 0 < max && x.key != slot.key
    ensures var r := RecencyPut(s, max, slot); x in s <==> x in r.slots || x in r.evicted
  {
    WithoutMembers(s, slot.key);
    if s != [] { InitAndLast(s, x); }
  }

  lemma InitAndLast(s: seq<Slot>, x: Slot)
    requires s != []
    ensures x in s <==> x in s[..|s| - 1] || x == s[|s| - 1]
  {
    assert s == s[..|s| - 1] + [s[|s| - 1]];
  }

  /** What a put evicts was stored, is not kept, and is not the key being put. */
  lemma RecencyPutEvicts(s: seq<Slot>, max: int, slot: Slot)
    requires Bounded(s, max) && 0 < max
    ensures var r := RecencyPut(s, max, slot);
      && |r.evicted| <= 1
      && forall x | x in r.evicted :: x in s && !Has(r.slots, x.key)
  {
    var r := RecencyPut(s, max, slot);
    if r.evicted != [] {
      var x := s[|s| - 1];
      assert x in s;
      HasIs(s, slot.key);
      HasIs(r.slots, x.key);
    }
  }
}
