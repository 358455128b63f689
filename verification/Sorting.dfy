/** What the library's stable sort promises, with an insertion sort to witness it. */
module Sorting {

  ghost predicate Ordered<T(!new)>(less: (T, T) -> bool, s: seq<T>) {
    forall a, b :: 0 <= a < b < |s| ==> !less(s[b], s[a])
  }

  /** The comparison is asymmetric, and so is "not after". */
  ghost predicate WeakOrder<T(!new)>(less: (T, T) -> bool, s: seq<T>) {
    && (forall x, y :: x in s && y in s && less(x, y) ==> !less(y, x))
    && (forall x, y, z :: x in s && y in s && z in s && !less(y, x) && !less(z, y) ==> !less(z, x))
  }

  function Insert<T>(less: (T, T) -> bool, x: T, s: seq<T>): (r: seq<T>)
    ensures multiset(r) == multiset(s) + multiset{x}
    ensures |r| == |s| + 1
  {
    if |s| == 0 then [x]
    else if !less(s[0], x) then
      assert s == [s[0]] + s[1..];
      [x] + s
    else
      assert s == [s[0]] + s[1..];
      [s[0]] + Insert(less, x, s[1..])
  }

  function SortBy<T>(less: (T, T) -> bool, s: seq<T>): (r: seq<T>)
    ensures multiset(r) == multiset(s)
    ensures |r| == |s|
  {
    if |s| == 0 then []
    else
      assert s == [s[0]] + s[1..];
      Insert(less, s[0], SortBy(less, s[1..]))
  }

  lemma SameMembers<T>(s: seq<T>, r: seq<T>)
    requires multiset(s) == multiset(r)
    ensures forall x :: x in s <==> x in r
  {
    forall x
      ensures x in s <==> x in r
    {
      assert x in s <==> x in multiset(s);
      assert x in r <==> x in multiset(r);
    }
  }

  lemma StillWeakOrder<T(!new)>(less: (T, T) -> bool, s: seq<T>, t: seq<T>)
    requires WeakOrder(less, s) && forall y :: y in t ==> y in s
    ensures WeakOrder(less, t)
  {
  }

  lemma {:induction false} InsertOrdered<T(!new)>(less: (T, T) -> bool, x: T, s: seq<T>)
    requires Ordered(less, s) && WeakOrder(less, [x] + s)
    ensures Ordered(less, Insert(less, x, s))
  {
    hide WeakOrder;
    if |s| > 0 && less(s[0], x) {
      StillWeakOrder(less, [x] + s, [x] + s[1..]);
      InsertOrdered(less, x, s[1..]);
      var rest := Insert(less, x, s[1..]);
      SameMembers(rest, [x] + s[1..]);
      forall b | 0 <= b < |rest|
        ensures !less(rest[b], s[0])
      {
        AfterHead(less, x, s, rest[b]);
      }
    } else if |s| > 0 {
      InsertFirst(less, x, s);
    }
  }

  lemma InsertFirst<T(!new)>(less: (T, T) -> bool, x: T, s: seq<T>)
    requires Ordered(less, s) && WeakOrder(less, [x] + s) && |s| > 0 && !less(s[0], x)
    ensures Ordered(less, [x] + s)
  {
    forall b | 0 <= b < |s|
      ensures !less(s[b], x)
    {
      assert x in [x] + s && s[0] in [x] + s && s[b] in [x] + s;
    }
  }

  lemma AfterHead<T(!new)>(less: (T, T) -> bool, x: T, s: seq<T>, y: T)
    requires Ordered(less, s) && WeakOrder(less, [x] + s)
    requires |s| > 0 && less(s[0], x) && y in [x] + s[1..]
    ensures !less(y, s[0])
  {
    if y == x {
      assert x in [x] + s && s[0] in [x] + s;
    } else {
      var k :| 0 <= k < |s[1..]| && s[1..][k] == y;
      assert !less(s[k + 1], s[0]);
    }
  }

  lemma {:induction false} SortOrdered<T(!new)>(less: (T, T) -> bool, s: seq<T>)
    requires WeakOrder(less, s)
    ensures Ordered(less, SortBy(less, s))
  {
    if |s| > 0 {
      var rest := SortBy(less, s[1..]);
      SameMembers(rest, s[1..]);
      assert forall y :: y in [s[0]] + rest ==> y in s;
      assert forall y :: y in s[1..] ==> y in s;
      SortOrdered(less, s[1..]);
      InsertOrdered(less, s[0], rest);
    }
  }

  ghost predicate NoRepeats<T>(s: seq<T>) {
    forall a, b :: 0 <= a < b < |s| ==> s[a] != s[b]
  }

  lemma NoRepeatsByCount<T>(s: seq<T>)
    ensures NoRepeats(s) <==> forall x :: x in s ==> multiset(s)[x] == 1
  {
    if NoRepeats(s) {
      forall x | x in s
        ensures multiset(s)[x] == 1
      {
        CountOnce(s, x);
      }
    } else {
      var a, b :| 0 <= a < b < |s| && s[a] == s[b];
      assert s == s[..b] + [s[b]] + s[b + 1..];
      assert s[a] in multiset(s[..b]);
      assert multiset(s)[s[b]] >= 2;
    }
  }

  lemma {:induction false} CountOnce<T>(s: seq<T>, x: T)
    requires NoRepeats(s) && x in s
    ensures multiset(s)[x] == 1
  {
    assert s == [s[0]] + s[1..];
    if s[0] == x {
      assert x !in s[1..];
      assert x !in multiset(s[1..]);
    } else {
      CountOnce(s[1..], x);
    }
  }

  /** Sorting neither drops nor repeats. */
  lemma SortNoRepeats<T>(less: (T, T) -> bool, s: seq<T>)
    requires NoRepeats(s)
    ensures NoRepeats(SortBy(less, s))
  {
    NoRepeatsByCount(s);
    NoRepeatsByCount(SortBy(less, s));
    SameMembers(s, SortBy(less, s));
  }

  lemma {:induction false} SubsetSize<T>(s: set<T>, t: set<T>)
    requires s <= t
    ensures |s| <= |t|
  {
    if s != {} {
      var x :| x in s;
      SubsetSize(s - {x}, t - {x});
    }
  }

  ghost function Upto(n: nat): (r: set<int>)
    ensures |r| == n
    ensures forall j :: j in r <==> 0 <= j < n
  {
    if n == 0 then {} else Upto(n - 1) + {n - 1}
  }

  ghost function Elements<T(!new)>(s: seq<T>): (r: set<T>)
    ensures forall x :: x in r <==> x in s
    ensures |r| <= |s|
    ensures NoRepeats(s) ==> |r| == |s|
  {
    if |s| == 0 then {}
    else
      var init := s[..|s|-1];
      assert s == init + [s[|s|-1]];
      Elements(init) + {s[|s|-1]}
  }

  lemma {:induction false} SortFixes<T(!new)>(less: (T, T) -> bool, s: seq<T>)
    requires Ordered(less, s)
    ensures SortBy(less, s) == s
  {
    if |s| > 0 {
      SortFixes(less, s[1..]);
      assert |s| > 1 ==> !less(s[1], s[0]);
      assert s == [s[0]] + s[1..];
    }
  }

  /** Under a comparison that decides between any two distinct elements, there is only one
      order to put them in. */
  lemma {:induction false} UniqueOrder<T(!new)>(less: (T, T) -> bool, s: seq<T>, t: seq<T>)
    requires multiset(s) == multiset(t) && Ordered(less, s) && Ordered(less, t)
    requires forall x, y :: x in s && y in s && x != y ==> less(x, y) || less(y, x)
    ensures s == t
  {
    assert |s| == |multiset(s)| == |multiset(t)| == |t|;
    if |s| > 0 {
      SameMembers(s, t);
      SameFirst(less, s, t);
      SameTails(s, t);
      UniqueOrder(less, s[1..], t[1..]);
      assert s == [s[0]] + s[1..] && t == [t[0]] + t[1..];
    }
  }

  lemma SameTails<T>(s: seq<T>, t: seq<T>)
    requires |s| > 0 && |t| > 0 && s[0] == t[0] && multiset(s) == multiset(t)
    ensures multiset(s[1..]) == multiset(t[1..])
  {
    assert s == [s[0]] + s[1..] && t == [t[0]] + t[1..];
    assert multiset(s[1..]) == multiset(s) - multiset{s[0]};
    assert multiset(t[1..]) == multiset(t) - multiset{t[0]};
  }

  lemma SameFirst<T(!new)>(less: (T, T) -> bool, s: seq<T>, t: seq<T>)
    requires |s| > 0 && |t| > 0 && Ordered(less, s) && Ordered(less, t)
    requires forall x :: x in s <==> x in t
    requires forall x, y :: x in s && y in s && x != y ==> less(x, y) || less(y, x)
    ensures s[0] == t[0]
  {
    assert s[0] in t && t[0] in s;
    var i :| 0 <= i < |t| && t[i] == s[0];
    var j :| 0 <= j < |s| && s[j] == t[0];
    assert i == 0 || !less(t[i], t[0]);
    assert j == 0 || !less(s[j], s[0]);
  }

  /** Sorting forgets the order its input came in. */
  lemma SortForgets<T(!new)>(less: (T, T) -> bool, s: seq<T>, t: seq<T>)
    requires multiset(s) == multiset(t) && WeakOrder(less, s)
    requires forall x, y :: x in s && y in s && x != y ==> less(x, y) || less(y, x)
    ensures SortBy(less, s) == SortBy(less, t)
  {
    SameMembers(s, t);
    SortOrdered(less, s);
    SortOrdered(less, t);
    SameMembers(s, SortBy(less, s));
    UniqueOrder(less, SortBy(less, s), SortBy(less, t));
  }
}
