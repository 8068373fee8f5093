/**
 * Lexicographic order on integer vectors, and the sort used for every ranking in the league.
 *
 * Each comparator of the source (`(a, b) => b.pts - a.pts || ...`) orders rows by a tuple of
 * integer keys, some descending; such a comparator is the lexicographic order on a key vector
 * whose descending components are negated. JavaScript's `Array.prototype.sort` is modelled by
 * `SortBy`, an insertion sort on that key, proved to return a sorted permutation of its input.
 * String comparison in JavaScript (UTF-16 code units, a proper prefix first) is modelled as the
 * same order on the vector of character codes, `Codes`. A Dafny `char` is a Unicode scalar value,
 * so the two orders agree on text without characters outside the Basic Multilingual Plane
 * (which UTF-16 writes as surrogate pairs).
 */
module Ordering {

  /** `a` comes no later than `b`: the first difference decides, and a prefix comes first. */
  predicate LexLe(a: seq<int>, b: seq<int>)
  {
    if |a| == 0 then true
    else if |b| == 0 then false
    else if a[0] != b[0] then a[0] < b[0]
    else LexLe(a[1..], b[1..])
  }

  predicate LexLt(a: seq<int>, b: seq<int>)
  {
    LexLe(a, b) && a != b
  }

  lemma {:induction false} LexLeRefl(a: seq<int>)
    ensures LexLe(a, a)
  {
    if |a| > 0 {
      LexLeRefl(a[1..]);
    }
  }

  lemma {:induction false} LexLeTotal(a: seq<int>, b: seq<int>)
    ensures LexLe(a, b) || LexLe(b, a)
  {
    if |a| > 0 && |b| > 0 && a[0] == b[0] {
      LexLeTotal(a[1..], b[1..]);
    }
  }

  lemma {:induction false} LexLeAntisym(a: seq<int>, b: seq<int>)
    requires LexLe(a, b) && LexLe(b, a)
    ensures a == b
  {
    if |a| > 0 && |b| > 0 {
      LexLeAntisym(a[1..], b[1..]);
      assert a == [a[0]] + a[1..];
      assert b == [b[0]] + b[1..];
    }
  }

  lemma {:induction false} LexLeTrans(a: seq<int>, b: seq<int>, c: seq<int>)
    requires LexLe(a, b) && LexLe(b, c)
    ensures LexLe(a, c)
  {
    if |a| > 0 && |b| > 0 && |c| > 0 && a[0] == b[0] == c[0] {
      LexLeTrans(a[1..], b[1..], c[1..]);
    }
  }

  /** Comparing two vectors that share a prefix of equal length comes down to the prefix first. */
  lemma {:induction false} LexLeAppend(p: seq<int>, q: seq<int>, x: seq<int>, y: seq<int>)
    requires |p| == |q|
    ensures LexLe(p + x, q + y) <==> (p != q && LexLe(p, q)) || (p == q && LexLe(x, y))
  {
    if |p| > 0 {
      var px, qy := p + x, q + y;
      assert px[0] == p[0] && qy[0] == q[0];
      assert p == [p[0]] + p[1..];
      assert q == [q[0]] + q[1..];
      if p[0] != q[0] {
        assert LexLe(px, qy) == (p[0] < q[0]) == LexLe(p, q);
      } else {
        assert px[1..] == p[1..] + x;
        assert qy[1..] == q[1..] + y;
        LexLeAppend(p[1..], q[1..], x, y);
        assert LexLe(px, qy) == LexLe(px[1..], qy[1..]);
        assert LexLe(p, q) == LexLe(p[1..], q[1..]);
        assert p != q <==> p[1..] != q[1..];
      }
    } else {
      assert p + x == x && q + y == y;
    }
  }

  /** Comparing two keys with a first component: the heads decide unless equal. */
  lemma LexLeCons(x: int, a: seq<int>, y: int, b: seq<int>)
    ensures LexLe([x] + a, [y] + b) <==> x < y || (x == y && LexLe(a, b))
  {
    assert ([x] + a)[1..] == a && ([y] + b)[1..] == b;
  }

  /** The character codes of a string: its UTF-16 code units when it has no surrogate pairs. */
  function Codes(s: string): (r: seq<int>)
    ensures |r| == |s|
    ensures forall i :: 0 <= i < |s| ==> r[i] == s[i] as int
  {
    seq(|s|, i requires 0 <= i < |s| => s[i] as int)
  }

  lemma CodesInjective(s: string, t: string)
    requires Codes(s) == Codes(t)
    ensures s == t
  {
    assert |s| == |t|;
    forall i | 0 <= i < |s| ensures s[i] == t[i] {
      assert Codes(s)[i] == Codes(t)[i];
    }
  }

  lemma CodesAppend(s: string, t: string)
    ensures Codes(s + t) == Codes(s) + Codes(t)
  {
  }

  /** `s` is ordered by `key`: no element comes before one with a smaller key. */
  ghost predicate SortedBy<T>(s: seq<T>, key: T -> seq<int>)
  {
    forall i, j :: 0 <= i < j < |s| ==> LexLe(key(s[i]), key(s[j]))
  }

  /** Inserts `x` into `s` in front of the first element whose key is not smaller. */
  function Insert<T>(x: T, s: seq<T>, key: T -> seq<int>): (r: seq<T>)
    ensures multiset(r) == multiset(s) + multiset{x}
    ensures |r| == |s| + 1
    ensures SortedBy(s, key) ==> SortedBy(r, key)
  {
    if |s| == 0 then [x]
    else if LexLe(key(x), key(s[0])) then
      InsertFrontSorted(x, s, key);
      [x] + s
    else
      assert s == [s[0]] + s[1..];
      var tail := Insert(x, s[1..], key);
      LexLeTotal(key(x), key(s[0]));
      InsertBehindSorted(s[0], tail, x, s[1..], key);
      [s[0]] + tail
  }

  lemma InsertFrontSorted<T>(x: T, s: seq<T>, key: T -> seq<int>)
    requires |s| > 0 && LexLe(key(x), key(s[0]))
    ensures SortedBy(s, key) ==> SortedBy([x] + s, key)
  {
    if SortedBy(s, key) {
      var r := [x] + s;
      forall i, j | 0 <= i < j < |r| ensures LexLe(key(r[i]), key(r[j])) {
        if i == 0 && j > 1 {
          LexLeTrans(key(x), key(s[0]), key(s[j - 1]));
        }
      }
    }
  }

  lemma InsertBehindSorted<T>(y: T, tail: seq<T>, x: T, rest: seq<T>, key: T -> seq<int>)
    requires LexLe(key(y), key(x))
    requires multiset(tail) == multiset(rest) + multiset{x}
    requires SortedBy([y] + rest, key) ==> SortedBy(rest, key) ==> SortedBy(tail, key)
    ensures SortedBy([y] + rest, key) ==> SortedBy([y] + tail, key)
  {
    if SortedBy([y] + rest, key) {
      assert SortedBy(rest, key) by {
        forall i, j | 0 <= i < j < |rest| ensures LexLe(key(rest[i]), key(rest[j])) {
          assert ([y] + rest)[i + 1] == rest[i];
          assert ([y] + rest)[j + 1] == rest[j];
        }
      }
      var r := [y] + tail;
      forall i, j | 0 <= i < j < |r| ensures LexLe(key(r[i]), key(r[j])) {
        if i == 0 {
          var z := tail[j - 1];
          assert r[j] == z;
          assert z in multiset(tail);
          if z != x {
            assert z in multiset(rest);
            var k :| 0 <= k < |rest| && rest[k] == z;
            assert ([y] + rest)[0] == y && ([y] + rest)[k + 1] == z;
          }
        } else {
          assert r[i] == tail[i - 1] && r[j] == tail[j - 1];
        }
      }
    }
  }

  /** Stable insertion sort: the order `Array.prototype.sort` produces with a key comparator. */
  function SortBy<T>(s: seq<T>, key: T -> seq<int>): (r: seq<T>)
    ensures multiset(r) == multiset(s)
    ensures |r| == |s|
    ensures SortedBy(r, key)
  {
    if |s| == 0 then []
    else
      assert s == [s[0]] + s[1..];
      Insert(s[0], SortBy(s[1..], key), key)
  }

  /** A sorted permutation keeps the input's elements and nothing else. */
  lemma SortByMembers<T>(s: seq<T>, key: T -> seq<int>, x: T)
    ensures x in SortBy(s, key) <==> x in s
  {
    var r := SortBy(s, key);
    assert x in r <==> x in multiset(r);
    assert x in s <==> x in multiset(s);
  }

  /** No element occurs twice. */
  predicate Distinct<T(==)>(s: seq<T>)
  {
    forall i, j :: 0 <= i < j < |s| ==> s[i] != s[j]
  }

  /** `[...new Set(s)]`: the first occurrence of each element, in order of first appearance. */
  function Dedup<T(==,!new)>(s: seq<T>): (r: seq<T>)
    ensures Distinct(r)
    ensures forall x :: x in r <==> x in s
  {
    if |s| == 0 then []
    else
      var init := Dedup(s[..|s| - 1]);
      var last := s[|s| - 1];
      assert forall x :: x in s <==> x in s[..|s| - 1] || x == last by {
        assert s == s[..|s| - 1] + [last];
      }
      if last in init then init else init + [last]
  }
}
