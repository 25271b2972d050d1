/** Sequence utilities shared by the codecs: cutting, splitting and joining around a separator. */
module Text {

  datatype Option<+T> = None | Some(value: T)

  type Byte = x: int | 0 <= x < 256
  type Bytes = seq<Byte>

  /** The first position of `x` in `s`. */
  function IndexOf<T(==)>(s: seq<T>, x: T): (i: nat)
    requires x in s
    ensures i < |s| && s[i] == x && x !in s[..i]
  {
    if s[0] == x then 0 else
      var i := IndexOf(s[1..], x);
      assert s[..i + 1] == [s[0]] + s[1..][..i];
      i + 1
  }

  /** `strings.Split` with a one-element separator: never empty, no part holds the separator. */
  function Split<T(==)>(s: seq<T>, sep: T): (parts: seq<seq<T>>)
    ensures |parts| > 0
    ensures forall i | 0 <= i < |parts| :: sep !in parts[i]
    decreases |s|
  {
    if sep !in s then [s] else
      var i := IndexOf(s, sep);
      [s[..i]] + Split(s[i + 1..], sep)
  }

  /** `strings.Join` with a one-element separator. */
  function Join<T>(parts: seq<seq<T>>, sep: T): (s: seq<T>)
    requires |parts| > 0
    decreases |parts|
  {
    if |parts| == 1 then parts[0] else parts[0] + [sep] + Join(parts[1..], sep)
  }

  ghost predicate Separated<T>(parts: seq<seq<T>>, sep: T) {
    |parts| > 0 && forall i | 0 <= i < |parts| :: sep !in parts[i]
  }

  lemma {:induction false} IndexOfIs<T>(s: seq<T>, x: T, i: nat)
    requires i < |s| && s[i] == x && x !in s[..i]
    ensures IndexOf(s, x) == i
    decreases i
  {
    if i == 0 {
    } else {
      assert s[0] in s[..i];
      assert s[1..][..i - 1] == s[..i][1..];
      IndexOfIs(s[1..], x, i - 1);
    }
  }

  /** The first separator of `a + [sep] + rest` is at `|a|` when `a` has none. */
  lemma FirstSeparator<T>(a: seq<T>, sep: T, rest: seq<T>)
    requires sep !in a
    ensures sep in a + [sep] + rest
    ensures IndexOf(a + [sep] + rest, sep) == |a|
    ensures (a + [sep] + rest)[..|a|] == a
    ensures (a + [sep] + rest)[|a| + 1..] == rest
  {
    var s := a + [sep] + rest;
    assert s[|a|] == sep && s[..|a|] == a;
    IndexOfIs(s, sep, |a|);
  }

  /** Two strings cut at their first separator are equal only piecewise. */
  lemma CutInjective<T>(a: seq<T>, b: seq<T>, sep: T, x: seq<T>, y: seq<T>)
    requires sep !in a && sep !in b
    requires a + [sep] + x == b + [sep] + y
    ensures a == b && x == y
  {
    FirstSeparator(a, sep, x);
    FirstSeparator(b, sep, y);
  }

  lemma JoinCons<T>(a: seq<T>, rest: seq<seq<T>>, sep: T)
    requires |rest| > 0
    ensures Join([a] + rest, sep) == a + [sep] + Join(rest, sep)
  {
    assert ([a] + rest)[1..] == rest;
  }

  lemma {:induction false} JoinSplit<T>(s: seq<T>, sep: T)
    ensures Join(Split(s, sep), sep) == s
    decreases |s|
  {
    if sep in s {
      var i := IndexOf(s, sep);
      JoinSplit(s[i + 1..], sep);
      JoinCons(s[..i], Split(s[i + 1..], sep), sep);
      assert s == s[..i] + [sep] + s[i + 1..];
    }
  }

  lemma SplitCut<T>(a: seq<T>, sep: T, rest: seq<T>)
    requires sep !in a
    ensures Split(a + [sep] + rest, sep) == [a] + Split(rest, sep)
  {
    FirstSeparator(a, sep, rest);
  }

  lemma {:induction false} SplitJoin<T>(parts: seq<seq<T>>, sep: T)
    requires Separated(parts, sep)
    ensures Split(Join(parts, sep), sep) == parts
    decreases |parts|
  {
    if |parts| > 1 {
      SplitJoin(parts[1..], sep);
      SplitCut(parts[0], sep, Join(parts[1..], sep));
      assert parts == [parts[0]] + parts[1..];
    }
  }

  /** Joining distributes over concatenation of part lists. */
  lemma {:induction false} JoinConcat<T>(a: seq<seq<T>>, b: seq<seq<T>>, sep: T)
    requires |a| > 0 && |b| > 0
    ensures Join(a + b, sep) == Join(a, sep) + [sep] + Join(b, sep)
    decreases |a|
  {
    if |a| == 1 {
      assert a + b == [a[0]] + b;
      JoinCons(a[0], b, sep);
    } else {
      JoinConcat(a[1..], b, sep);
      assert a + b == [a[0]] + (a[1..] + b);
      JoinCons(a[0], a[1..] + b, sep);
      assert a[0] + [sep] + (Join(a[1..], sep) + [sep] + Join(b, sep)) == Join(a, sep) + [sep] + Join(b, sep);
    }
  }

  /** ASCII `strings.ToLower`. */
  function LowerChar(c: char): (r: char) {
    if 'A' <= c <= 'Z' then (c as int + 32) as char else c
  }

  function Lower(s: string): (r: string)
    ensures |r| == |s|
    ensures forall i | 0 <= i < |s| :: r[i] == LowerChar(s[i])
  {
    seq(|s|, i requires 0 <= i < |s| => LowerChar(s[i]))
  }

  /** Two characters are the same, or one ASCII letter in its two cases. */
  predicate SameLetter(a: char, b: char) {
    || a == b
    || ('A' <= a <= 'Z' && 'a' <= b <= 'z' && a as int - 'A' as int == b as int - 'a' as int)
    || ('a' <= a <= 'z' && 'A' <= b <= 'Z' && a as int - 'a' as int == b as int - 'A' as int)
  }

  predicate SameLetters(s: string, t: string) {
    |s| == |t| && forall i | 0 <= i < |s| :: SameLetter(s[i], t[i])
  }

  lemma LowerCharIs(a: char, b: char)
    ensures LowerChar(a) == LowerChar(b) <==> SameLetter(a, b)
  {
  }

  /** Lower case tells texts apart exactly up to the case of ASCII letters. */
  lemma LowerExactly(s: string, t: string)
    ensures Lower(s) == Lower(t) <==> SameLetters(s, t)
  {
    forall i | 0 <= i < |s| && i < |t| ensures LowerChar(s[i]) == LowerChar(t[i]) <==> SameLetter(s[i], t[i]) {
      LowerCharIs(s[i], t[i]);
    }
    if Lower(s) == Lower(t) {
      forall i | 0 <= i < |s| ensures SameLetter(s[i], t[i]) { assert Lower(s)[i] == Lower(t)[i]; }
    }
    if SameLetters(s, t) { assert Lower(s) == Lower(t); }
  }

  predicate HasSuffix<T(==)>(s: seq<T>, suffix: seq<T>) {
    |suffix| <= |s| && s[|s| - |suffix|..] == suffix
  }

  predicate Contains<T(==)>(s: seq<T>, sub: seq<T>) {
    exists i | 0 <= i <= |s| :: sub <= s[i..]
  }

  /** A number above all of a finite set. */
  lemma {:induction false} FreshId(ids: set<nat>) returns (k: nat)
    ensures forall i | i in ids :: i < k
  {
    if ids == {} {
      k := 0;
    } else {
      var i :| i in ids;
      var rest := FreshId(ids - {i});
      assert forall j | j in ids :: j == i || j in ids - {i};
      k := if rest > i then rest else i + 1;
    }
  }

  lemma {:induction false} SubsetSize<T>(a: set<T>, b: set<T>)
    requires a <= b
    ensures |a| <= |b| && (|a| == |b| ==> a == b)
    decreases |a|
  {
    if a == {} {
    } else {
      var x :| x in a;
      SubsetSize(a - {x}, b - {x});
      assert a == (a - {x}) + {x} && b == (b - {x}) + {x};
    }
  }
}
