/**
 Who is credited with a kill, and when that depends on the order the snakes are listed in
 (the map of solid cells in `Sim.advance` of internal/game/sim.go).
*/
module KillCredit {
  import opened Types
  import opened Movement
  import opened Soundness
  import Sorting

  ghost predicate SolidFor(st: State, a: int, p: Point) {
    0 <= a < |st.snakes| && p in SolidCells(st.snakes[a])
  }

  /** A snake that dies by running into a cell that is solid for two living snakes. */
  ghost predicate Disputed(st: State, wrap: bool, v: int)
    requires Playable(st, wrap)
  {
    && Lives(st, v) && !Leaves(st, wrap, v) && !HeadOn(st, wrap, v)
    && exists a, b :: a < b && SolidFor(st, a, HeadAfter(st, wrap, v)) && SolidFor(st, b, HeadAfter(st, wrap, v))
  }

  // ---- Counting credits ----

  ghost predicate Victim(st: State, wrap: bool, v: int, j: int)
    requires Playable(st, wrap)
  {
    Lives(st, v) && Dies(st, wrap, v) && KillerOf(st, wrap, v) == j
  }

  ghost function Victims(st: State, wrap: bool, n: nat, j: int): set<int>
    requires Playable(st, wrap) && n <= |st.snakes|
  {
    set v | 0 <= v < n && Victim(st, wrap, v, j)
  }

  lemma OneMoreSnake(st: State, wrap: bool, n: nat, j: int)
    requires Playable(st, wrap) && 0 < n <= |st.snakes|
    ensures |Victims(st, wrap, n, j)|
      == |Victims(st, wrap, n - 1, j)| + (if Victim(st, wrap, n - 1, j) then 1 else 0)
  {
    hide Victim, Playable;
    var was := Victims(st, wrap, n - 1, j);
    if Victim(st, wrap, n - 1, j) {
      assert Victims(st, wrap, n, j) == was + {n - 1};
    } else {
      assert Victims(st, wrap, n, j) == was;
    }
  }

  lemma {:induction false} CreditsAreVictims(st: State, wrap: bool, n: nat, j: int)
    requires Playable(st, wrap) && n <= |st.snakes|
    ensures Credits(st, wrap, Doomed(st, wrap, n), j) == |Victims(st, wrap, n, j)|
  {
    hide Dies, KillerOf, Playable;
    if n > 0 {
      hide Victims;
      CreditsAreVictims(st, wrap, n - 1, j);
      OneMoreSnake(st, wrap, n, j);
      var was := Doomed(st, wrap, n - 1);
      assert (was + [n - 1])[..|was|] == was;
    }
  }

  lemma AMember<T>(s: set<T>) returns (x: T)
    requires |s| > 0
    ensures x in s
  {
    x :| x in s;
  }

  lemma {:induction false} ImageSize(perm: seq<int>, inv: seq<int>, s: set<int>)
    requires Permutation(perm, inv) && forall x :: x in s ==> 0 <= x < |perm|
    ensures |(set x | x in s :: perm[x])| == |s|
    decreases |s|
  {
    if |s| > 0 {
      var y := AMember(s);
      ImageSize(perm, inv, s - {y});
      var image, rest := set x | x in s :: perm[x], set x | x in s - {y} :: perm[x];
      forall z
        ensures z in image <==> z in rest + {perm[y]}
      {
        if x :| x in s && perm[x] == z {
          assert x == y || x in s - {y};
        }
      }
      assert image == rest + {perm[y]};
      assert forall x :: x in s - {y} ==> perm[x] != perm[y];
    }
  }

  /** No more victims here than there, and fewer if one there is nobody's image. */
  lemma MappedInto(perm: seq<int>, inv: seq<int>, s: set<int>, t: set<int>)
    requires Permutation(perm, inv) && forall x :: x in s ==> 0 <= x < |perm| && perm[x] in t
    ensures |s| <= |t|
    ensures (exists y :: y in t && 0 <= y < |perm| && inv[y] !in s) ==> |s| < |t|
  {
    ImageSize(perm, inv, s);
    var image := set x | x in s :: perm[x];
    Sorting.SubsetSize(image, t);
    if y :| y in t && 0 <= y < |perm| && inv[y] !in s {
      assert y !in image;
      Sorting.SubsetSize(image, t - {y});
    }
  }

  // ---- The same deaths in another order ----

  lemma Backwards(st: State, st2: State, perm: seq<int>, inv: seq<int>)
    requires Reordered(st, st2, perm, inv)
    ensures Reordered(st2, st, inv, perm)
  {
  }

  lemma ReorderedWays(st: State, st2: State, wrap: bool, perm: seq<int>, inv: seq<int>, k: int)
    requires Playable(st, wrap) && Playable(st2, wrap) && Reordered(st, st2, perm, inv) && Lives(st2, k)
    ensures Lives(st, perm[k]) && HeadAfter(st2, wrap, k) == HeadAfter(st, wrap, perm[k])
    ensures Leaves(st2, wrap, k) == Leaves(st, wrap, perm[k]) && HeadOn(st2, wrap, k) == HeadOn(st, wrap, perm[k])
  {
    var i := perm[k];
    if j :| j != i && Lives(st, j) && HeadAfter(st, wrap, j) == HeadAfter(st, wrap, i) {
      assert Lives(st2, inv[j]) && HeadAfter(st2, wrap, inv[j]) == HeadAfter(st2, wrap, k);
    }
    if j :| j != k && Lives(st2, j) && HeadAfter(st2, wrap, j) == HeadAfter(st2, wrap, k) {
      assert Lives(st, perm[j]) && HeadAfter(st, wrap, perm[j]) == HeadAfter(st, wrap, i);
    }
  }

  ghost predicate KillsFollow(st: State, st2: State, wrap: bool, perm: seq<int>)
    requires Playable(st, wrap) && Playable(st2, wrap) && |perm| == |st.snakes| == |st2.snakes|
    requires forall k :: 0 <= k < |perm| ==> 0 <= perm[k] < |perm|
  {
    forall k :: 0 <= k < |perm| ==> Moved(st2, wrap).snakes[k].kills == Moved(st, wrap).snakes[perm[k]].kills
  }

  lemma SameOwner(st: State, st2: State, perm: seq<int>, inv: seq<int>, p: Point)
    requires Reordered(st, st2, perm, inv)
    requires !exists a, b :: a < b && SolidFor(st, a, p) && SolidFor(st, b, p)
    ensures var k := LastSolid(st2.snakes, p); LastSolid(st.snakes, p) == if k < 0 then -1 else perm[k]
  {
    hide SolidCells;
    var k, i := LastSolid(st2.snakes, p), LastSolid(st.snakes, p);
    assert i >= 0 ==> SolidFor(st, i, p) && p in SolidCells(st2.snakes[inv[i]]);
    assert k >= 0 ==> SolidFor(st, perm[k], p);
  }

  lemma SameKiller(st: State, st2: State, wrap: bool, perm: seq<int>, inv: seq<int>, v: int)
    requires Playable(st, wrap) && Playable(st2, wrap) && Reordered(st, st2, perm, inv) && Lives(st2, v)
    requires Lives(st, perm[v]) && !Disputed(st, wrap, perm[v])
    ensures var k := KillerOf(st2, wrap, v); KillerOf(st, wrap, perm[v]) == if k < 0 then -1 else perm[k]
  {
    ReorderedWays(st, st2, wrap, perm, inv, v);
    hide Leaves, HeadOn, HeadAfter, SolidFor;
    if !Leaves(st, wrap, perm[v]) && !HeadOn(st, wrap, perm[v]) {
      SameOwner(st, st2, perm, inv, HeadAfter(st2, wrap, v));
    }
  }

  lemma SameVictims(st: State, st2: State, wrap: bool, perm: seq<int>, inv: seq<int>, k: int)
    requires Playable(st, wrap) && Playable(st2, wrap) && Reordered(st, st2, perm, inv) && 0 <= k < |perm|
    requires forall v :: !Disputed(st, wrap, v)
    ensures |Victims(st2, wrap, |perm|, k)| == |Victims(st, wrap, |perm|, perm[k])|
  {
    hide Dies, KillerOf, Disputed;
    var mine, theirs := Victims(st2, wrap, |perm|, k), Victims(st, wrap, |perm|, perm[k]);
    forall v | v in mine
      ensures perm[v] in theirs
    {
      ReorderedDies(st, st2, wrap, perm, inv, v);
      SameKiller(st, st2, wrap, perm, inv, v);
    }
    forall u | u in theirs
      ensures inv[u] in mine
    {
      Backwards(st, st2, perm, inv);
      ReorderedDies(st2, st, wrap, inv, perm, u);
      SameKiller(st, st2, wrap, perm, inv, inv[u]);
    }
    MappedInto(perm, inv, mine, theirs);
    MappedInto(inv, perm, theirs, mine);
  }

  lemma UndisputedFollow(st: State, st2: State, wrap: bool, perm: seq<int>, inv: seq<int>)
    requires Playable(st, wrap) && Playable(st2, wrap) && Reordered(st, st2, perm, inv)
    requires forall v :: !Disputed(st, wrap, v)
    ensures KillsFollow(st, st2, wrap, perm)
  {
    hide Disputed, Victims, Credits, Doomed, Outcome, KillerOf, Dies;
    forall k | 0 <= k < |perm|
      ensures Moved(st2, wrap).snakes[k].kills == Moved(st, wrap).snakes[perm[k]].kills
    {
      SameVictims(st, st2, wrap, perm, inv, k);
      CreditsAreVictims(st, wrap, |perm|, perm[k]);
      CreditsAreVictims(st2, wrap, |perm|, k);
    }
  }

  // ---- A dispute is settled by the order ----

  function Swap(n: nat, a: nat, b: nat): (perm: seq<int>)
    requires a < b < n
    ensures |perm| == n
    ensures forall k :: 0 <= k < n ==> perm[k] == if k == a then b else if k == b then a else k
  {
    seq(n, k => if k == a then b else if k == b then a else k)
  }

  function Swapped(st: State, a: nat, b: nat): (st2: State)
    requires a < b < |st.snakes|
    ensures |st2.snakes| == |st.snakes| && st2 == st.(snakes := st2.snakes)
    ensures forall k :: 0 <= k < |st.snakes| ==> st2.snakes[k] == st.snakes[Swap(|st.snakes|, a, b)[k]]
  {
    st.(snakes := st.snakes[a := st.snakes[b]][b := st.snakes[a]])
  }

  lemma SwappedIsReordered(st: State, wrap: bool, a: nat, b: nat)
    requires a < b < |st.snakes| && Playable(st, wrap)
    ensures var perm := Swap(|st.snakes|, a, b);
      Playable(Swapped(st, a, b), wrap) && Reordered(st, Swapped(st, a, b), perm, perm)
  {
  }

  /** The two last snakes solid at a cell. */
  ghost predicate LastTwo(st: State, p: Point, a: int, b: int) {
    && a < b && SolidFor(st, a, p) && LastSolid(st.snakes, p) == b
    && forall k :: a < k < b ==> !SolidFor(st, k, p)
  }

  lemma {:induction false} TwoLast(st: State, p: Point, x: int, b: int) returns (a: int)
    requires x < b && SolidFor(st, x, p) && LastSolid(st.snakes, p) == b
    requires SolidFor(st, b, p)
    ensures LastTwo(st, p, a, b)
  {
    a := b - 1;
    while !SolidFor(st, a, p)
      invariant x <= a < b
      invariant forall k :: a < k < b ==> !SolidFor(st, k, p)
      decreases a
    {
      a := a - 1;
    }
  }

  lemma SwapOwners(st: State, a: nat, b: nat, q: Point)
    requires a < b < |st.snakes|
    ensures var st2 := Swapped(st, a, b);
      && (LastSolid(st2.snakes, q) == a ==> LastSolid(st.snakes, q) == b)
      && (LastSolid(st.snakes, q) == a ==> LastSolid(st2.snakes, q) == b)
      && (LastTwo(st, q, a, b) ==> LastSolid(st2.snakes, q) == b)
  {
    hide SolidCells;
    var st2 := Swapped(st, a, b);
    var k, i := LastSolid(st2.snakes, q), LastSolid(st.snakes, q);
    hide Swapped;
    assert st2.snakes[a] == st.snakes[b] && st2.snakes[b] == st.snakes[a];
    assert i > b ==> q in SolidCells(st2.snakes[i]);
    assert k > b ==> q in SolidCells(st.snakes[k]);
  }

  lemma KilledBy(st: State, wrap: bool, u: int, j: int)
    requires Playable(st, wrap) && Lives(st, u) && DistinctIds(st.snakes)
    ensures j >= 0 ==>
      (KillerOf(st, wrap, u) == j <==>
         !Leaves(st, wrap, u) && !HeadOn(st, wrap, u) && LastSolid(st.snakes, HeadAfter(st, wrap, u)) == j && j != u)
  {
    hide Leaves, HeadOn, HeadAfter;
  }

  lemma DistinctAgain(st: State, a: nat, b: nat)
    requires DistinctIds(st.snakes) && a < b < |st.snakes|
    ensures DistinctIds(Swapped(st, a, b).snakes)
  {
  }

  /** Who is killed in the swapped list by the snake moved to a was killed by it at b ... */
  lemma LosesNoneElse(st: State, wrap: bool, a: nat, b: nat, u: int)
    requires Playable(st, wrap) && DistinctIds(st.snakes) && a < b < |st.snakes|
    requires Playable(Swapped(st, a, b), wrap) && u in Victims(Swapped(st, a, b), wrap, |st.snakes|, a)
    ensures Swap(|st.snakes|, a, b)[u] in Victims(st, wrap, |st.snakes|, b)
  {
    var st2, perm := Swapped(st, a, b), Swap(|st.snakes|, a, b);
    SwappedIsReordered(st, wrap, a, b);
    hide Dies, KillerOf, Leaves, HeadOn, HeadAfter, Swapped, Swap;
    ReorderedDies(st, st2, wrap, perm, perm, u);
    ReorderedWays(st, st2, wrap, perm, perm, u);
    DistinctAgain(st, a, b);
    KilledBy(st2, wrap, u, a);
    KilledBy(st, wrap, perm[u], b);
    SwapOwners(st, a, b, HeadAfter(st2, wrap, u));
  }

  /** ... and who is killed by the snake at a is killed by it in the swapped list at b. */
  lemma KeepsAll(st: State, wrap: bool, a: nat, b: nat, u: int)
    requires Playable(st, wrap) && DistinctIds(st.snakes) && a < b < |st.snakes|
    requires Playable(Swapped(st, a, b), wrap) && u in Victims(st, wrap, |st.snakes|, a)
    ensures Swap(|st.snakes|, a, b)[u] in Victims(Swapped(st, a, b), wrap, |st.snakes|, b)
  {
    var st2, perm := Swapped(st, a, b), Swap(|st.snakes|, a, b);
    SwappedIsReordered(st, wrap, a, b);
    Backwards(st, st2, perm, perm);
    hide Dies, KillerOf, Leaves, HeadOn, HeadAfter, Swapped, Swap;
    ReorderedDies(st2, st, wrap, perm, perm, u);
    ReorderedWays(st2, st, wrap, perm, perm, u);
    DistinctAgain(st, a, b);
    KilledBy(st, wrap, u, a);
    KilledBy(st2, wrap, perm[u], b);
    SwapOwners(st, a, b, HeadAfter(st, wrap, u));
  }

  /** Swapping the last two owners of a disputed cell changes what one of them is credited with. */
  lemma SwapChangesCredit(st: State, wrap: bool, v: int, a: nat, b: nat)
    requires Playable(st, wrap) && DistinctIds(st.snakes) && a < b < |st.snakes|
    requires Lives(st, v) && Dies(st, wrap, v) && !Leaves(st, wrap, v) && !HeadOn(st, wrap, v)
    requires LastTwo(st, HeadAfter(st, wrap, v), a, b) && Playable(Swapped(st, a, b), wrap)
    ensures var n, st2 := |st.snakes|, Swapped(st, a, b);
      if v == b then |Victims(st, wrap, n, a)| < |Victims(st2, wrap, n, b)|
      else |Victims(st2, wrap, n, a)| < |Victims(st, wrap, n, b)|
  {
    var n, st2, perm := |st.snakes|, Swapped(st, a, b), Swap(|st.snakes|, a, b);
    SwappedIsReordered(st, wrap, a, b);
    hide Dies, KillerOf, Leaves, HeadOn, HeadAfter, Swapped, Swap;
    SwapOwners(st, a, b, HeadAfter(st, wrap, v));
    Backwards(st, st2, perm, perm);
    ReorderedWays(st2, st, wrap, perm, perm, v);
    ReorderedDies(st2, st, wrap, perm, perm, v);
    DistinctAgain(st, a, b);
    KilledBy(st, wrap, v, b);
    KilledBy(st, wrap, v, a);
    KilledBy(st2, wrap, perm[v], b);
    KilledBy(st2, wrap, perm[v], a);
    assert perm[perm[v]] == v;
    if v == b {
      forall u | u in Victims(st, wrap, n, a)
        ensures 0 <= u < n && perm[u] in Victims(st2, wrap, n, b)
      {
        KeepsAll(st, wrap, a, b, u);
      }
      assert perm[v] in Victims(st2, wrap, n, b) && v !in Victims(st, wrap, n, a);
      MappedInto(perm, perm, Victims(st, wrap, n, a), Victims(st2, wrap, n, b));
    } else {
      forall u | u in Victims(st2, wrap, n, a)
        ensures 0 <= u < n && perm[u] in Victims(st, wrap, n, b)
      {
        LosesNoneElse(st, wrap, a, b, u);
      }
      assert v in Victims(st, wrap, n, b) && perm[v] !in Victims(st2, wrap, n, a);
      MappedInto(perm, perm, Victims(st2, wrap, n, a), Victims(st, wrap, n, b));
    }
  }

  lemma KillsAre(st: State, wrap: bool, j: int)
    requires Playable(st, wrap) && 0 <= j < |st.snakes|
    ensures Moved(st, wrap).snakes[j].kills == st.snakes[j].kills + |Victims(st, wrap, |st.snakes|, j)|
  {
    hide Victims, Doomed, Credits, Outcome;
    CreditsAreVictims(st, wrap, |st.snakes|, j);
  }

  lemma DisputeDependsOnOrder(st: State, wrap: bool, v: int) returns (a: nat, b: nat)
    requires Playable(st, wrap) && DistinctIds(st.snakes) && Disputed(st, wrap, v)
    ensures a < b < |st.snakes| && Playable(Swapped(st, a, b), wrap)
    ensures !KillsFollow(st, Swapped(st, a, b), wrap, Swap(|st.snakes|, a, b))
  {
    hide Leaves, HeadOn, HeadAfter, Moved, Victims;
    var p := HeadAfter(st, wrap, v);
    var x, y :| x < y && SolidFor(st, x, p) && SolidFor(st, y, p);
    b := LastSolid(st.snakes, p);
    a := TwoLast(st, p, x, b);
    SwappedIsReordered(st, wrap, a, b);
    SwapChangesCredit(st, wrap, v, a, b);
    KillsAre(st, wrap, a);
    KillsAre(st, wrap, b);
    KillsAre(Swapped(st, a, b), wrap, a);
    KillsAre(Swapped(st, a, b), wrap, b);
  }

  /** Exactly when the kills too go by snake and not by the order the snakes are listed in: when
      nobody runs into a cell that is solid for two. */
  lemma KillsFollowIff(st: State, wrap: bool)
    requires Playable(st, wrap) && DistinctIds(st.snakes)
    ensures (forall st2: State, perm: seq<int>, inv: seq<int> :: Reordered(st, st2, perm, inv) ==>
               Playable(st2, wrap) && KillsFollow(st, st2, wrap, perm))
      <==> (forall v :: !Disputed(st, wrap, v))
  {
    hide Disputed, KillsFollow, Swapped, Swap;
    if v :| Disputed(st, wrap, v) {
      var a, b := DisputeDependsOnOrder(st, wrap, v);
      SwappedIsReordered(st, wrap, a, b);
    } else {
      forall st2: State, perm: seq<int>, inv: seq<int> | Reordered(st, st2, perm, inv)
        ensures Playable(st2, wrap) && KillsFollow(st, st2, wrap, perm)
      {
        NoOrderingAdvantage(st, st2, wrap, perm, inv);
        UndisputedFollow(st, st2, wrap, perm, inv);
      }
    }
  }
}
