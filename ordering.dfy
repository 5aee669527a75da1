/**
 * Sort keys and sorting. Every ordering the engine uses (by date, by start
 * time, by date then start time, newest first) is a comparison of a
 * `SortKey`: an integer first, then a string compared code point by code
 * point (how `localeCompare` orders the "HH:MM" texts the engine stores).
 */
module Ordering {

  datatype SortKey = SortKey(major: int, minor: string)

  /** Lexicographic order on strings. */
  predicate StrLe(a: string, b: string) {
    a == [] || (b != [] && (a[0] < b[0] || (a[0] == b[0] && StrLe(a[1..], b[1..]))))
  }

  lemma {:induction false} StrLeTotal(a: string, b: string)
    ensures StrLe(a, b) || StrLe(b, a)
  {
    if a != [] && b != [] && a[0] == b[0] {
      StrLeTotal(a[1..], b[1..]);
    }
  }

  lemma {:induction false} StrLeTrans(a: string, b: string, c: string)
    requires StrLe(a, b) && StrLe(b, c)
    ensures StrLe(a, c)
  {
    if a != [] && b != [] && c != [] && a[0] == b[0] && b[0] == c[0] {
      StrLeTrans(a[1..], b[1..], c[1..]);
    }
  }

  predicate KeyLe(x: SortKey, y: SortKey) {
    x.major < y.major || (x.major == y.major && StrLe(x.minor, y.minor))
  }

  lemma KeyLeTotal(x: SortKey, y: SortKey)
    ensures KeyLe(x, y) || KeyLe(y, x)
  {
    StrLeTotal(x.minor, y.minor);
  }

  lemma KeyLeTrans(x: SortKey, y: SortKey, z: SortKey)
    requires KeyLe(x, y) && KeyLe(y, z)
    ensures KeyLe(x, z)
  {
    if x.major == y.major == z.major {
      StrLeTrans(x.minor, y.minor, z.minor);
    }
  }

  ghost predicate SortedBy<T>(s: seq<T>, key: T -> SortKey) {
    forall i, j :: 0 <= i < j < |s| ==> KeyLe(key(s[i]), key(s[j]))
  }

  /** In a sorted sequence the first element is below every element. */
  lemma HeadIsLeast<T>(s: seq<T>, key: T -> SortKey)
    requires s != [] && SortedBy(s, key)
    ensures forall y :: y in s ==> KeyLe(key(s[0]), key(y))
  {
    forall y | y in s ensures KeyLe(key(s[0]), key(y)) {
      var j :| 0 <= j < |s| && s[j] == y;
      if j == 0 {
        StrLeTotal(key(y).minor, key(y).minor);
      }
    }
  }

  /** Prepending an element below every element keeps a sequence sorted. */
  lemma ConsSorted<T>(x: T, s: seq<T>, key: T -> SortKey)
    requires SortedBy(s, key)
    requires forall y :: y in s ==> KeyLe(key(x), key(y))
    ensures SortedBy([x] + s, key)
  {
    var r := [x] + s;
    forall i, j | 0 <= i < j < |r| ensures KeyLe(key(r[i]), key(r[j])) {
      if i == 0 {
        assert r[j] in s;
      } else {
        assert r[i] == s[i - 1] && r[j] == s[j - 1];
      }
    }
  }

  /** Insertion of one element into a sorted sequence, before the first element it is not above. */
  function InsertByKey<T(==)>(x: T, s: seq<T>, key: T -> SortKey): (r: seq<T>)
    requires SortedBy(s, key)
    ensures SortedBy(r, key)
    ensures multiset(r) == multiset(s) + multiset{x}
  {
    if s == [] then [x]
    else if KeyLe(key(x), key(s[0])) then
      HeadIsLeast(s, key);
      LeastStaysLeast(x, s, key);
      ConsSorted(x, s, key);
      [x] + s
    else
      var rest := InsertByKey(x, s[1..], key);
      KeyLeTotal(key(x), key(s[0]));
      HeadIsLeast(s, key);
      HeadBelowInsert(s, x, rest, key);
      ConsSorted(s[0], rest, key);
      assert s == [s[0]] + s[1..];
      [s[0]] + rest
  }

  lemma LeastStaysLeast<T>(x: T, s: seq<T>, key: T -> SortKey)
    requires s != [] && KeyLe(key(x), key(s[0]))
    requires forall y :: y in s ==> KeyLe(key(s[0]), key(y))
    ensures forall y :: y in s ==> KeyLe(key(x), key(y))
  {
    forall y | y in s ensures KeyLe(key(x), key(y)) {
      KeyLeTrans(key(x), key(s[0]), key(y));
    }
  }

  lemma HeadBelowInsert<T>(s: seq<T>, x: T, rest: seq<T>, key: T -> SortKey)
    requires s != [] && KeyLe(key(s[0]), key(x))
    requires forall y :: y in s ==> KeyLe(key(s[0]), key(y))
    requires multiset(rest) == multiset(s[1..]) + multiset{x}
    ensures forall y :: y in rest ==> KeyLe(key(s[0]), key(y))
  {
    forall y | y in rest ensures KeyLe(key(s[0]), key(y)) {
      assert y in multiset(rest);
      if y != x {
        assert y in multiset(s[1..]);
        assert y in s[1..];
        assert y in s;
      }
    }
  }

  /** Insertion sort: the order `Array#sort` produces with a comparator on `key`. */
  function SortByKey<T(==)>(s: seq<T>, key: T -> SortKey): (r: seq<T>)
    ensures SortedBy(r, key)
    ensures multiset(r) == multiset(s)
    ensures |r| == |s|
  {
    if s == [] then []
    else
      assert s == [s[0]] + s[1..];
      var r := InsertByKey(s[0], SortByKey(s[1..], key), key);
      assert |multiset(r)| == |multiset(s)|;
      r
  }

  /** Reorders an array in place into key order. */
  method SortInPlace<T(==)>(a: array<T>, key: T -> SortKey)
    modifies a
    ensures a[..] == SortByKey(old(a[..]), key)
  {
    var sorted := SortByKey(a[..], key);
    var i := 0;
    while i < a.Length
      invariant 0 <= i <= a.Length == |sorted|
      invariant sorted == SortByKey(old(a[..]), key)
      invariant forall k :: 0 <= k < i ==> a[k] == sorted[k]
    {
      a[i] := sorted[i];
      i := i + 1;
    }
    assert a[..] == sorted;
  }
}
