/** The cache key of a request: method, host, path and the sorted query parameters. */
module CacheKeys {
  import opened Text

  /** Byte-wise string order, as `sort.Strings` uses it. */
  predicate AtMost(a: string, b: string)
    decreases |a|
  {
    |a| == 0 || (|b| > 0 && (a[0] < b[0] || (a[0] == b[0] && AtMost(a[1..], b[1..]))))
  }

  lemma {:induction false} AtMostTotal(a: string, b: string)
    ensures AtMost(a, b) || AtMost(b, a)
    decreases |a|
  {
    if |a| > 0 && |b| > 0 && a[0] == b[0] { AtMostTotal(a[1..], b[1..]); }
  }

  lemma {:induction false} AtMostAntisymmetric(a: string, b: string)
    requires AtMost(a, b) && AtMost(b, a)
    ensures a == b
    decreases |a|
  {
    if |a| > 0 && |b| > 0 {
      AtMostAntisymmetric(a[1..], b[1..]);
      assert a == [a[0]] + a[1..] && b == [b[0]] + b[1..];
    }
  }

  lemma {:induction false} AtMostTransitive(a: string, b: string, c: string)
    requires AtMost(a, b) && AtMost(b, c)
    ensures AtMost(a, c)
    decreases |a|
  {
    if |a| > 0 && a[0] == b[0] && b[0] == c[0] { AtMostTransitive(a[1..], b[1..], c[1..]); }
  }

  ghost predicate Sorted(s: seq<string>) {
    forall i, j | 0 <= i < j < |s| :: AtMost(s[i], s[j])
  }

  function Insert(x: string, s: seq<string>): (r: seq<string>) {
    if s == [] || AtMost(x, s[0]) then [x] + s else [s[0]] + Insert(x, s[1..])
  }

  /** `sort.Strings`. */
  function Sort(s: seq<string>): (r: seq<string>) {
    if s == [] then [] else Insert(s[0], Sort(s[1..]))
  }

  lemma {:induction false} InsertSorts(x: string, s: seq<string>)
    requires Sorted(s)
    ensures Sorted(Insert(x, s))
    ensures multiset(Insert(x, s)) == multiset([x]) + multiset(s)
    decreases |s|
  {
    var r := Insert(x, s);
    if s == [] {
    } else if AtMost(x, s[0]) {
      forall j | 0 < j < |r| ensures AtMost(r[0], r[j]) {
        if j > 1 { AtMostTransitive(x, s[0], s[j - 1]); }
      }
    } else {
      InsertSorts(x, s[1..]);
      AtMostTotal(x, s[0]);
      assert s == [s[0]] + s[1..];
      forall j | 0 < j < |r| ensures AtMost(r[0], r[j]) {
        assert r[j] == r[1..][j - 1] && r[1..][j - 1] in multiset(r[1..]);
        assert r[j] == x || r[j] in s[1..];
      }
    }
  }

  lemma {:induction false} SortSorts(s: seq<string>)
    ensures Sorted(Sort(s)) && multiset(Sort(s)) == multiset(s)
    decreases |s|
  {
    if s == [] {
    } else {
      SortSorts(s[1..]);
      InsertSorts(s[0], Sort(s[1..]));
      assert s == [s[0]] + s[1..];
    }
  }

  lemma HeadIsLeast(s: seq<string>, x: string)
    requires Sorted(s) && x in s
    ensures AtMost(s[0], x)
  {
    AtMostTotal(x, x);
  }

  lemma TailElements(s: seq<string>)
    requires s != []
    ensures multiset(s[1..]) == multiset(s) - multiset{s[0]}
  {
    assert s == [s[0]] + s[1..];
  }

  /** A sorted sequence is determined by its elements. */
  lemma {:induction false} SortedUnique(a: seq<string>, b: seq<string>)
    requires Sorted(a) && Sorted(b) && multiset(a) == multiset(b)
    ensures a == b
    decreases |a|
  {
    assert |a| == |b| by { assert |multiset(a)| == |a| && |multiset(b)| == |b|; }
    if |a| == 0 {
    } else {
      assert a[0] == b[0] by {
        assert a[0] in multiset(b) && b[0] in multiset(a);
        HeadIsLeast(b, a[0]);
        HeadIsLeast(a, b[0]);
        AtMostAntisymmetric(a[0], b[0]);
      }
      TailElements(a);
      TailElements(b);
      SortedUnique(a[1..], b[1..]);
      assert a == [a[0]] + a[1..] && b == [b[0]] + b[1..];
    }
  }

  function Parameters(rawQuery: string): (parts: seq<string>) {
    Split(rawQuery, '&')
  }

  function CacheKey(method_: string, host: string, path: string, rawQuery: string): (key: string) {
    var base := method_ + "|" + host + "|" + path;
    if rawQuery == "" then base else base + "?" + Join(SortedParameters(rawQuery), '&')
  }

  function SortedParameters(rawQuery: string): (parts: seq<string>)
    ensures Separated(parts, '&')
    ensures Sorted(parts)
    ensures multiset(parts) == multiset(Parameters(rawQuery))
  {
    SortSorts(Parameters(rawQuery));
    assert |multiset(Sort(Parameters(rawQuery)))| == |multiset(Parameters(rawQuery))|;
    assert forall p | p in multiset(Sort(Parameters(rawQuery))) :: p in Parameters(rawQuery);
    assert forall i | 0 <= i < |Sort(Parameters(rawQuery))| ::
        Sort(Parameters(rawQuery))[i] in multiset(Sort(Parameters(rawQuery)));
    Sort(Parameters(rawQuery))
  }

  /** Keys never collide with the empty string, which the disk tier reserves as "no key". */
  lemma CacheKeyNotEmpty(method_: string, host: string, path: string, rawQuery: string)
    ensures CacheKey(method_, host, path, rawQuery) != ""
  {
    assert |method_ + "|" + host + "|" + path| >= 2;
  }

  function Tail(rawQuery: string): (s: string) {
    if rawQuery == "" then "" else "?" + Join(SortedParameters(rawQuery), '&')
  }

  lemma NoParameters(q: string)
    ensures q == "" <==> multiset(Parameters(q)) == multiset{""}
  {
    JoinSplit(q, '&');
    var parts := Parameters(q);
    if multiset(parts) == multiset{""} {
      assert |parts| == |multiset(parts)| == 1;
      assert parts[0] in multiset(parts);
    }
  }

  /** The query part of the key forgets the order of the parameters and nothing else. */
  lemma TailCanonical(q: string, r: string)
    ensures Tail(q) == Tail(r) <==> multiset(Parameters(q)) == multiset(Parameters(r))
  {
    NoParameters(q);
    NoParameters(r);
    if q != "" && r != "" {
      var a, b := SortedParameters(q), SortedParameters(r);
      assert Tail(q)[1..] == Join(a, '&') && Tail(r)[1..] == Join(b, '&');
      SplitJoin(a, '&');
      SplitJoin(b, '&');
      if multiset(a) == multiset(b) { SortedUnique(a, b); }
    }
  }

  /** Path and query part are told apart by the first '?'. */
  lemma PathAndTail(p: string, t: string, p': string, t': string)
    requires '?' !in p && '?' !in p'
    requires t == "" || t[0] == '?'
    requires t' == "" || t'[0] == '?'
    requires p + t == p' + t'
    ensures p == p' && t == t'
  {
    assert '?' in p + t <==> t != "";
    assert '?' in p' + t' <==> t' != "";
    if t == "" {
      assert p + t == p && p' + t' == p';
    } else {
      assert p + t == p + ['?'] + t[1..] && p' + t' == p' + ['?'] + t'[1..];
      CutInjective(p, p', '?', t[1..], t'[1..]);
    }
  }

  /** For methods and hosts without '|', two requests share a key exactly when path and query part read the same. */
  lemma KeyExactly(m: string, h: string, p: string, q: string, m': string, h': string, p': string, q': string)
    requires '|' !in m && '|' !in m' && '|' !in h && '|' !in h'
    ensures CacheKey(m, h, p, q) == CacheKey(m', h', p', q') <==> m == m' && h == h' && p + Tail(q) == p' + Tail(q')
  {
    KeyShape(m, h, p, q);
    KeyShape(m', h', p', q');
    if CacheKey(m, h, p, q) == CacheKey(m', h', p', q') {
      CutInjective(m, m', '|', h + ['|'] + (p + Tail(q)), h' + ['|'] + (p' + Tail(q')));
      CutInjective(h, h', '|', p + Tail(q), p' + Tail(q'));
    }
  }

  /** Two requests share a key exactly when they agree up to the order of their query parameters. */
  lemma CacheKeyCanonical(m: string, h: string, p: string, q: string,
                          m': string, h': string, p': string, q': string)
    requires '|' !in m && '|' !in m' && '|' !in h && '|' !in h'
    requires '?' !in p && '?' !in p'
    ensures CacheKey(m, h, p, q) == CacheKey(m', h', p', q')
       <==> m == m' && h == h' && p == p' && multiset(Parameters(q)) == multiset(Parameters(q'))
  {
    KeyExactly(m, h, p, q, m', h', p', q');
    TailCanonical(q, q');
    if p + Tail(q) == p' + Tail(q') { PathAndTail(p, Tail(q), p', Tail(q')); }
  }

  /** A path that holds a question mark shares the key of a request that has a query instead. */
  lemma QuestionMarkInPathCollides(m: string, h: string, p: string, q: string)
    requires q != ""
    ensures CacheKey(m, h, p + Tail(q), "") == CacheKey(m, h, p, q) && p + Tail(q) != p
  {
    KeyShape(m, h, p, q);
    KeyShape(m, h, p + Tail(q), "");
    assert p + Tail(q) + Tail("") == p + Tail(q);
  }

  /** A host that holds a bar shares the key of a request with a shorter host and a longer path. */
  lemma BarInHostCollides(m: string, h: string, x: string, p: string, q: string)
    ensures CacheKey(m, h + "|" + x, p, q) == CacheKey(m, h, x + "|" + p, q)
  {
    assert m + "|" + (h + "|" + x) + "|" + p == m + "|" + h + "|" + (x + "|" + p);
  }

  lemma KeyShape(m: string, h: string, p: string, q: string)
    ensures CacheKey(m, h, p, q) == m + ['|'] + (h + ['|'] + (p + Tail(q)))
  {
    var base := m + "|" + h + "|" + p;
    assert base + Tail(q) == m + ['|'] + (h + ['|'] + (p + Tail(q)));
    if q == "" { assert base + Tail(q) == base; }
    else { assert base + Tail(q) == base + "?" + Join(SortedParameters(q), '&'); }
  }
}
