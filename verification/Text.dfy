/** The order strings are sorted by. */
module Text {
  import Sorting

  /** Go's string order; on UTF-8 the order of bytes is the order of code points. */
  predicate StrLess(s: string, t: string) {
    if |t| == 0 then false
    else if |s| == 0 then true
    else if s[0] != t[0] then s[0] < t[0]
    else StrLess(s[1..], t[1..])
  }

  /** The two agree on n characters, after which s has ended, or has the lesser character. */
  ghost predicate LessFrom(s: string, t: string, n: nat) {
    && n <= |s| && n < |t| && s[..n] == t[..n]
    && (n == |s| || s[n] < t[n])
  }

  /** s is a proper beginning of t, or less where they first differ. */
  ghost predicate Precedes(s: string, t: string) {
    exists n: nat :: LessFrom(s, t, n)
  }

  /** What the order means. */
  lemma {:induction false} StrLessIff(s: string, t: string)
    ensures StrLess(s, t) <==> Precedes(s, t)
  {
    if |t| == 0 {
    } else if |s| == 0 {
      assert LessFrom(s, t, 0);
    } else if s[0] != t[0] {
      if s[0] < t[0] {
        assert LessFrom(s, t, 0);
      }
      forall n: nat | LessFrom(s, t, n)
        ensures s[0] < t[0]
      {
        assert n > 0 ==> s[..n][0] == t[..n][0];
      }
    } else {
      StrLessIff(s[1..], t[1..]);
      if n: nat :| LessFrom(s[1..], t[1..], n) {
        OneEarlier(s, t, n);
      }
      if n: nat :| LessFrom(s, t, n) {
        OneLater(s, t, n);
      }
    }
  }

  lemma OneEarlier(s: string, t: string, n: nat)
    requires |s| > 0 && |t| > 0 && s[0] == t[0] && LessFrom(s[1..], t[1..], n)
    ensures LessFrom(s, t, n + 1)
  {
    assert s[..n + 1] == [s[0]] + s[1..][..n] && t[..n + 1] == [t[0]] + t[1..][..n];
  }

  lemma OneLater(s: string, t: string, n: nat)
    requires |s| > 0 && |t| > 0 && s[0] == t[0] && LessFrom(s, t, n)
    ensures n > 0 && LessFrom(s[1..], t[1..], n - 1)
  {
    assert s[1..][..n - 1] == s[..n][1..] && t[1..][..n - 1] == t[..n][1..];
  }

  lemma {:induction false} StrLessTrichotomy(s: string, t: string)
    ensures s == t ==> !StrLess(s, t)
    ensures s != t ==> (StrLess(s, t) <==> !StrLess(t, s))
  {
    if |s| > 0 && |t| > 0 && s[0] == t[0] {
      StrLessTrichotomy(s[1..], t[1..]);
      assert s == [s[0]] + s[1..] && t == [t[0]] + t[1..];
    }
  }

  lemma {:induction false} StrLessTransitive(s: string, t: string, u: string)
    requires StrLess(s, t) && StrLess(t, u)
    ensures StrLess(s, u)
  {
    if |s| > 0 && s[0] == t[0] == u[0] {
      StrLessTransitive(s[1..], t[1..], u[1..]);
    }
  }

  /** Sorted by a string key, no key twice. */
  ghost predicate Ascending<T(!new)>(key: T -> string, s: seq<T>) {
    forall a, b :: 0 <= a < b < |s| ==> StrLess(key(s[a]), key(s[b]))
  }

  function ByKey<T>(key: T -> string): (T, T) -> bool {
    (x, y) => StrLess(key(x), key(y))
  }

  ghost predicate DistinctKeys<T(!new)>(key: T -> string, s: seq<T>) {
    forall a, b :: 0 <= a < b < |s| ==> key(s[a]) != key(s[b])
  }

  lemma ByKeyIsOrder<T(!new)>(key: T -> string, s: seq<T>)
    ensures Sorting.WeakOrder(ByKey(key), s)
  {
    forall x, y | x in s && y in s && ByKey(key)(x, y)
      ensures !ByKey(key)(y, x)
    {
      StrLessTrichotomy(key(x), key(y));
    }
    forall x, y, z | x in s && y in s && z in s && !ByKey(key)(y, x) && !ByKey(key)(z, y)
      ensures !ByKey(key)(z, x)
    {
      StrLessTrichotomy(key(x), key(y));
      StrLessTrichotomy(key(y), key(z));
      StrLessTrichotomy(key(x), key(z));
      if key(x) != key(y) && key(y) != key(z) {
        StrLessTransitive(key(x), key(y), key(z));
      }
    }
  }

  lemma KeysStayDistinct<T(!new)>(key: T -> string, s: seq<T>, r: seq<T>)
    requires DistinctKeys(key, s) && multiset(s) == multiset(r)
    ensures DistinctKeys(key, r)
  {
    assert Sorting.NoRepeats(s);
    Sorting.NoRepeatsByCount(s);
    Sorting.SameMembers(s, r);
    Sorting.NoRepeatsByCount(r);
    forall a, b | 0 <= a < b < |r|
      ensures key(r[a]) != key(r[b])
    {
      assert r[a] in r && r[b] in r;
      var i :| 0 <= i < |s| && s[i] == r[a];
      var j :| 0 <= j < |s| && s[j] == r[b];
      assert i != j;
    }
  }

  /** Sorting by distinct keys puts them in strictly ascending order. */
  lemma SortAscending<T(!new)>(key: T -> string, s: seq<T>)
    requires DistinctKeys(key, s)
    ensures Ascending(key, Sorting.SortBy(ByKey(key), s))
  {
    var r := Sorting.SortBy(ByKey(key), s);
    ByKeyIsOrder(key, s);
    Sorting.SortOrdered(ByKey(key), s);
    KeysStayDistinct(key, s, r);
    forall a, b | 0 <= a < b < |r|
      ensures StrLess(key(r[a]), key(r[b]))
    {
      assert !ByKey(key)(r[b], r[a]);
      StrLessTrichotomy(key(r[a]), key(r[b]));
    }
  }

  lemma AscendingDistinct<T(!new)>(key: T -> string, s: seq<T>)
    requires Ascending(key, s)
    ensures DistinctKeys(key, s)
  {
    forall a, b | 0 <= a < b < |s|
      ensures key(s[a]) != key(s[b])
    {
      StrLessTrichotomy(key(s[a]), key(s[b]));
    }
  }

  /** There is only one way to put the same elements in ascending order. */
  lemma {:induction false} AscendingUnique<T(!new)>(key: T -> string, s: seq<T>, t: seq<T>)
    requires Ascending(key, s) && Ascending(key, t)
    requires forall x :: x in s <==> x in t
    ensures s == t
  {
    assert (|s| > 0 ==> s[0] in s) && (|t| > 0 ==> t[0] in t);
    if |s| > 0 && |t| > 0 {
      FirstsAgree(key, s, t);
      AscendingDistinct(key, s);
      AscendingDistinct(key, t);
      assert Sorting.NoRepeats(s) && Sorting.NoRepeats(t);
      forall x
        ensures x in s[1..] <==> x in t[1..]
      {
        InTail(s, x);
        InTail(t, x);
      }
      AscendingUnique(key, s[1..], t[1..]);
      assert s == [s[0]] + s[1..] && t == [t[0]] + t[1..];
    }
  }

  lemma InTail<T>(s: seq<T>, x: T)
    requires |s| > 0
    ensures x in s <==> x == s[0] || x in s[1..]
    ensures Sorting.NoRepeats(s) ==> s[0] !in s[1..]
  {
    assert s == [s[0]] + s[1..];
  }

  lemma FirstIsLeast<T(!new)>(key: T -> string, s: seq<T>, x: T)
    requires Ascending(key, s) && x in s && x != s[0]
    ensures StrLess(key(s[0]), key(x))
  {
    var i :| 0 <= i < |s| && s[i] == x;
    assert i > 0;
  }

  lemma FirstsAgree<T(!new)>(key: T -> string, s: seq<T>, t: seq<T>)
    requires Ascending(key, s) && Ascending(key, t) && |s| > 0 && |t| > 0
    requires forall x :: x in s <==> x in t
    ensures s[0] == t[0]
  {
    if s[0] != t[0] {
      FirstIsLeast(key, s, t[0]);
      FirstIsLeast(key, t, s[0]);
      StrLessTrichotomy(key(s[0]), key(t[0]));
    }
  }

  function Same(s: string): string { s }

  /** The elements of a set in some order: what ranging over a map yields. */
  ghost function AnyOrder<T>(s: set<T>): (r: seq<T>)
    ensures |r| == |s|
  {
    if s == {} then [] else var x :| x in s; [x] + AnyOrder(s - {x})
  }

  lemma {:induction false} AnyOrderMembers<T>(s: set<T>)
    ensures forall x :: x in AnyOrder(s) <==> x in s
    ensures Sorting.NoRepeats(AnyOrder(s))
  {
    if s != {} {
      var x := AnyOrder(s)[0];
      assert AnyOrder(s) == [x] + AnyOrder(s - {x});
      AnyOrderMembers(s - {x});
    }
  }

  ghost function SortedSet(s: set<string>): (r: seq<string>) {
    Sorting.SortBy(ByKey(Same), AnyOrder(s))
  }

  lemma SortedSetAscending(s: set<string>)
    ensures Ascending(Same, SortedSet(s))
    ensures forall x :: x in SortedSet(s) <==> x in s
  {
    AnyOrderMembers(s);
    assert DistinctKeys(Same, AnyOrder(s));
    SortAscending(Same, AnyOrder(s));
    Sorting.SameMembers(AnyOrder(s), SortedSet(s));
  }

  /** The elements once each, every one less than the next in the order of strings. */
  ghost predicate InOrder(keys: seq<string>, s: set<string>) {
    && (forall x :: x in keys <==> x in s)
    && forall a, b :: 0 <= a < b < |keys| ==> Precedes(keys[a], keys[b])
  }

  /** There is one such listing, and it is the sorted one. */
  lemma SortedSetIff(s: set<string>, keys: seq<string>)
    ensures InOrder(keys, s) <==> keys == SortedSet(s)
  {
    SortedSetAscending(s);
    hide SortedSet, Precedes, StrLess;
    forall x, y
      ensures StrLess(x, y) <==> Precedes(x, y)
    {
      StrLessIff(x, y);
    }
    if InOrder(keys, s) {
      assert Ascending(Same, keys);
      AscendingUnique(Same, keys, SortedSet(s));
    }
    if keys == SortedSet(s) {
      assert forall a, b :: 0 <= a < b < |keys| ==> StrLess(Same(keys[a]), Same(keys[b]));
    }
  }

  /** Whatever order the elements came in, sorting them gives the same sequence. */
  lemma SortForgetsOrder(keys: seq<string>, s: set<string>)
    requires Sorting.NoRepeats(keys) && forall x :: x in keys <==> x in s
    ensures Sorting.SortBy(ByKey(Same), keys) == SortedSet(s)
  {
    assert DistinctKeys(Same, keys);
    SortAscending(Same, keys);
    Sorting.SameMembers(keys, Sorting.SortBy(ByKey(Same), keys));
    SortedSetAscending(s);
    AscendingUnique(Same, Sorting.SortBy(ByKey(Same), keys), SortedSet(s));
  }
}
