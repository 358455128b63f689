/**
 The order in which the dead of one move are booked, and the places that follow from it
 (`kill` and `assignPlacements` of internal/game/sim.go).
*/
module DeathOrder {
  import opened Types
  import opened Movement
  import opened World
  import opened Bookkeeping
  import opened KillCredit

  /** The move, before the match is closed. */
  ghost function Buried(cfg: Config, w: World, food: seq<Point>): World
    requires Playable(w.st, cfg.wrap)
  {
    World(Moved(w.st, cfg.wrap).(food := food),
          w.deathOrder + IdsOf(w.st.snakes, Doomed(w.st, cfg.wrap, |w.st.snakes|)), w.finished)
  }

  lemma DiedIsRankable(w: World, w': World, ds: seq<int>)
    requires Rankable(w) && Died(w, w', ds)
    ensures Rankable(w')
  {
    forall i | 0 <= i < |w.st.snakes| && !w'.st.snakes[i].alive
      ensures w'.st.snakes[i].id in w'.deathOrder
    {
      if w.st.snakes[i].alive {
        var k :| 0 <= k < |ds| && ds[k] == i;
        assert w'.deathOrder[|w.deathOrder| + k] == w.st.snakes[i].id;
      }
    }
  }

  lemma DiedIds(w: World, w': World, ds: seq<int>, i: int)
    requires Died(w, w', ds) && 0 <= i < |w.st.snakes|
    ensures |w'.st.snakes| == |w.st.snakes| && w'.st.snakes[i].id == w.st.snakes[i].id
    ensures w'.st.snakes[i].alive == (w.st.snakes[i].alive && i !in ds)
  {
  }

  lemma BuriedDied(cfg: Config, w: World, food: seq<Point>)
    requires Playable(w.st, cfg.wrap)
    ensures Died(w, Buried(cfg, w, food), Doomed(w.st, cfg.wrap, |w.st.snakes|))
    ensures AfterMove(cfg, w, food) == CheckedOver(Buried(cfg, w, food))
    ensures Buried(cfg, w, food).finished == w.finished
  {
    hide Moved, Dies, Died, CheckedOver, Doomed;
    MoveIsDeaths(w, Buried(cfg, w, food), cfg.wrap);
  }

  // ---- The later seat is booked later ----

  lemma AppendedIndex(order: seq<PlayerID>, snakes: seq<Snake>, ds: seq<int>, k: nat)
    requires DistinctIds(snakes) && k < |ds| && forall a :: 0 <= a < |ds| ==> 0 <= ds[a] < |snakes|
    requires forall a, b :: 0 <= a < b < |ds| ==> ds[a] < ds[b]
    ensures DeathIndex(order + IdsOf(snakes, ds), snakes[ds[k]].id) == |order| + k
  {
    hide DeathIndex, IdsOf;
    var n, all, id := |order|, order + IdsOf(snakes, ds), snakes[ds[k]].id;
    assert forall m :: k < m < |ds| ==> ds[m] != ds[k] && snakes[ds[m]].id != id;
    assert forall m :: 0 <= m < |ds| ==> all[n + m] == snakes[ds[m]].id;
    assert all[n + k] == id;
    var d := DeathIndex(all, id);
    assert n + k <= d < |all| && all[d] == id;
    assert all[n + (d - n)] == snakes[ds[d - n]].id;
  }

  lemma BookedAt(cfg: Config, w: World, food: seq<Point>, i: int) returns (k: nat)
    requires Playable(w.st, cfg.wrap) && Rankable(w) && Lives(w.st, i) && Dies(w.st, cfg.wrap, i)
    ensures var ds := Doomed(w.st, cfg.wrap, |w.st.snakes|);
      && k < |ds| && ds[k] == i
      && DeathIndex(Buried(cfg, w, food).deathOrder, w.st.snakes[i].id) == |w.deathOrder| + k
  {
    hide Moved, Dies, Playable, DeathIndex, IdsOf, Doomed;
    var ds := Doomed(w.st, cfg.wrap, |w.st.snakes|);
    DoomedAreTheDying(w.st, cfg.wrap, |w.st.snakes|, i);
    var j: nat :| j < |ds| && ds[j] == i;
    k := j;
    assert forall a, b :: 0 <= a < b < |ds| ==> ds[a] < ds[b] by { DoomedAscend(w.st, cfg.wrap); }
    AppendedIndex(w.deathOrder, w.st.snakes, ds, k);
  }

  lemma DoomedAscend(st: State, wrap: bool)
    requires Playable(st, wrap)
    ensures var ds := Doomed(st, wrap, |st.snakes|); forall a, b :: 0 <= a < b < |ds| ==> ds[a] < ds[b]
  {
    hide Playable, Doomed;
    var ds := Doomed(st, wrap, |st.snakes|);
    forall a, b | 0 <= a < b < |ds|
      ensures ds[a] < ds[b]
    {
      DoomedInSeatOrder(st, wrap, |st.snakes|, a, b);
    }
  }

  /** Of two snakes that die in the same move the one in the later seat is booked later. */
  lemma LaterSeatBookedLater(cfg: Config, w: World, food: seq<Point>, i: int, j: int)
    requires Playable(w.st, cfg.wrap) && Rankable(w) && i < j
    requires Lives(w.st, i) && Dies(w.st, cfg.wrap, i) && Lives(w.st, j) && Dies(w.st, cfg.wrap, j)
    ensures var order := Buried(cfg, w, food).deathOrder;
      DeathIndex(order, w.st.snakes[i].id) < DeathIndex(order, w.st.snakes[j].id)
  {
    hide Dies, Buried, Playable;
    var a := BookedAt(cfg, w, food, i);
    var b := BookedAt(cfg, w, food, j);
    if b < a {
      DoomedInSeatOrder(w.st, cfg.wrap, |w.st.snakes|, b, a);
    }
  }

  lemma ClosedIsPlaced(w: World, i: int)
    requires !w.finished && 0 <= i < |w.st.snakes|
    ensures |CheckedOver(w).st.snakes| == |w.st.snakes|
    ensures CheckedOver(w).finished ==> CheckedOver(w).st.snakes[i].placement == Rank(w.st.snakes, w.deathOrder, i)
  {
  }

  /** And if the match ends with that move, it is placed better: a head-on between two is won by
      the later seat, whoever was longer. */
  lemma LaterSeatPlacesBetter(cfg: Config, w: World, food: seq<Point>, i: int, j: int)
    requires Playable(w.st, cfg.wrap) && !w.finished && Rankable(w) && i < j
    requires Lives(w.st, i) && Dies(w.st, cfg.wrap, i) && Lives(w.st, j) && Dies(w.st, cfg.wrap, j)
    requires AfterMove(cfg, w, food).finished
    ensures |AfterMove(cfg, w, food).st.snakes| == |w.st.snakes|
    ensures AfterMove(cfg, w, food).st.snakes[j].placement < AfterMove(cfg, w, food).st.snakes[i].placement
  {
    hide Dies, Playable, Buried, AfterMove, CheckedOver, Rankable, Rank, Before, Died, Doomed;
    var w', ds := Buried(cfg, w, food), Doomed(w.st, cfg.wrap, |w.st.snakes|);
    BuriedDied(cfg, w, food);
    DiedIsRankable(w, w', ds);
    LaterSeatBookedLater(cfg, w, food, i, j);
    DoomedAreTheDying(w.st, cfg.wrap, |w.st.snakes|, i);
    DoomedAreTheDying(w.st, cfg.wrap, |w.st.snakes|, j);
    DiedIds(w, w', ds, i);
    DiedIds(w, w', ds, j);
    DeadByIndex(w', j, i);
    BeforeMeansSmallerRank(w', j, i);
    ClosedIsPlaced(w', i);
    ClosedIsPlaced(w', j);
  }

  // ---- The same ranking in another order ----

  /** The second world lists the snakes of the first in another order, and has the same dead. */
  ghost predicate SameRecords(w: World, w2: World, perm: seq<int>, inv: seq<int>) {
    && Permutation(perm, inv) && |perm| == |w.st.snakes| == |w2.st.snakes|
    && w2.deathOrder == w.deathOrder
    && forall k :: 0 <= k < |perm| ==> SameRecord(w2.st.snakes[k], w.st.snakes[perm[k]])
  }

  lemma RecordsBackwards(w: World, w2: World, perm: seq<int>, inv: seq<int>)
    requires SameRecords(w, w2, perm, inv)
    ensures SameRecords(w2, w, inv, perm)
  {
  }

  lemma NoWorseRank(w: World, w2: World, perm: seq<int>, inv: seq<int>, k: int)
    requires SameRecords(w, w2, perm, inv) && 0 <= k < |perm|
    ensures Rank(w2.st.snakes, w2.deathOrder, k) <= Rank(w.st.snakes, w.deathOrder, perm[k])
  {
    hide DeathIndex;
    MappedInto(perm, inv, Better(w2.st.snakes, w2.deathOrder, k), Better(w.st.snakes, w.deathOrder, perm[k]));
  }

  lemma SameRank(w: World, w2: World, perm: seq<int>, inv: seq<int>, k: int)
    requires SameRecords(w, w2, perm, inv) && 0 <= k < |perm|
    ensures Rank(w2.st.snakes, w2.deathOrder, k) == Rank(w.st.snakes, w.deathOrder, perm[k])
  {
    NoWorseRank(w, w2, perm, inv, k);
    RecordsBackwards(w, w2, perm, inv);
    NoWorseRank(w2, w, inv, perm, perm[k]);
  }

  ghost function Living(snakes: seq<Snake>): set<int> {
    set i | 0 <= i < |snakes| && snakes[i].alive
  }

  lemma {:induction false} AliveAreLiving(snakes: seq<Snake>)
    ensures AliveCount(snakes) == |Living(snakes)|
  {
    if |snakes| > 0 {
      var init, n := snakes[..|snakes|-1], |snakes| - 1;
      AliveAreLiving(init);
      if snakes[n].alive {
        assert Living(snakes) == Living(init) + {n};
      } else {
        assert Living(snakes) == Living(init);
      }
    }
  }

  lemma SameDecided(w: World, w2: World, perm: seq<int>, inv: seq<int>)
    requires SameRecords(w, w2, perm, inv)
    ensures Decided(w2.st.snakes) == Decided(w.st.snakes)
  {
    AliveAreLiving(w.st.snakes);
    AliveAreLiving(w2.st.snakes);
    MappedInto(perm, inv, Living(w2.st.snakes), Living(w.st.snakes));
    MappedInto(inv, perm, Living(w.st.snakes), Living(w2.st.snakes));
  }

  // ---- At most one death ----

  lemma ReorderedDoomed(st: State, st2: State, wrap: bool, perm: seq<int>, inv: seq<int>, k: int)
    requires Playable(st, wrap) && Playable(st2, wrap) && Reordered(st, st2, perm, inv) && 0 <= k < |perm|
    ensures k in Doomed(st2, wrap, |perm|) <==> perm[k] in Doomed(st, wrap, |perm|)
  {
    hide Dies, Doomed, Playable;
    DoomedAreTheDying(st, wrap, |perm|, perm[k]);
    DoomedAreTheDying(st2, wrap, |perm|, k);
    if Lives(st2, k) {
      ReorderedDies(st, st2, wrap, perm, inv, k);
    }
  }

  ghost function DeadOf(st: State, wrap: bool): seq<PlayerID>
    requires Playable(st, wrap)
  {
    IdsOf(st.snakes, Doomed(st, wrap, |st.snakes|))
  }

  lemma OnlyMember(es: seq<int>, x: int)
    requires x in es && forall e :: e in es ==> e == x
    requires forall a, b :: 0 <= a < b < |es| ==> es[a] < es[b]
    ensures es == [x]
  {
    assert es[0] in es && es[|es|-1] in es;
  }

  lemma DoomedImage(st: State, st2: State, wrap: bool, perm: seq<int>, inv: seq<int>, e: int)
    requires Playable(st, wrap) && Playable(st2, wrap) && Reordered(st, st2, perm, inv)
    ensures e in Doomed(st2, wrap, |perm|) ==>
      0 <= e < |perm| && perm[e] in Doomed(st, wrap, |perm|) && inv[perm[e]] == e
  {
    hide Playable;
    DoomedAreTheDying(st2, wrap, |perm|, e);
    hide Doomed, Dies;
    if e in Doomed(st2, wrap, |perm|) {
      ReorderedDoomed(st, st2, wrap, perm, inv, e);
    }
  }

  lemma FirstMember(es: seq<int>)
    ensures |es| > 0 ==> es[0] in es
  {
  }

  lemma NobodyOrOne(st: State, st2: State, wrap: bool, perm: seq<int>, inv: seq<int>)
    requires Playable(st, wrap) && Playable(st2, wrap) && Reordered(st, st2, perm, inv)
    requires |Doomed(st, wrap, |perm|)| <= 1
    ensures var ds := Doomed(st, wrap, |perm|);
      && (forall d :: d in ds ==> 0 <= d < |perm|)
      && Doomed(st2, wrap, |perm|) == if |ds| == 0 then [] else [inv[ds[0]]]
  {
    hide Playable, Doomed, Reordered, Dies;
    ReorderedSizes(st, st2, perm, inv);
    var ds, es := Doomed(st, wrap, |perm|), Doomed(st2, wrap, |perm|);
    forall e | e in es
      ensures 0 <= e < |perm| && perm[e] in ds && inv[perm[e]] == e
    {
      DoomedImage(st, st2, wrap, perm, inv, e);
    }
    if |ds| == 0 {
      FirstMember(es);
    } else {
      var d := ds[0];
      assert ds == [d] && d in ds;
      Backwards(st, st2, perm, inv);
      DoomedImage(st2, st, wrap, inv, perm, d);
      DoomedAscend(st2, wrap);
      OnlyMember(es, inv[d]);
    }
  }

  lemma ReorderedSizes(st: State, st2: State, perm: seq<int>, inv: seq<int>)
    requires Reordered(st, st2, perm, inv)
    ensures |perm| == |inv| == |st.snakes| == |st2.snakes|
    ensures forall k :: 0 <= k < |perm| ==> 0 <= inv[k] < |perm| && st2.snakes[inv[k]] == st.snakes[k]
  {
  }

  lemma OneDeathFollows(st: State, st2: State, wrap: bool, perm: seq<int>, inv: seq<int>)
    requires Playable(st, wrap) && Playable(st2, wrap) && Reordered(st, st2, perm, inv)
    requires |Doomed(st, wrap, |st.snakes|)| <= 1
    ensures DeadOf(st2, wrap) == DeadOf(st, wrap)
  {
    hide Playable, Doomed, Reordered;
    ReorderedSizes(st, st2, perm, inv);
    NobodyOrOne(st, st2, wrap, perm, inv);
  }

  // ---- Two deaths ----

  lemma SwappedRankable(w: World, a: nat, b: nat)
    requires Rankable(w) && a < b < |w.st.snakes|
    ensures Rankable(w.(st := Swapped(w.st, a, b)))
    ensures Swapped(w.st, a, b).snakes[a] == w.st.snakes[b] && Swapped(w.st, a, b).snakes[b] == w.st.snakes[a]
  {
  }

  lemma TwoDoomed(st: State, wrap: bool) returns (a: nat, b: nat)
    requires Playable(st, wrap) && |Doomed(st, wrap, |st.snakes|)| > 1
    ensures a < b < |st.snakes| && Lives(st, a) && Dies(st, wrap, a) && Lives(st, b) && Dies(st, wrap, b)
  {
    hide Playable, Doomed, Dies;
    var ds := Doomed(st, wrap, |st.snakes|);
    DoomedInSeatOrder(st, wrap, |st.snakes|, 0, 1);
    assert ds[0] in ds && ds[1] in ds;
    a, b := ds[0], ds[1];
    DoomedAreTheDying(st, wrap, |st.snakes|, a);
    DoomedAreTheDying(st, wrap, |st.snakes|, b);
  }

  /** Swapping two snakes that die in one move swaps the order they are booked in. */
  lemma SwapSwapsDeaths(cfg: Config, w: World, food: seq<Point>, a: nat, b: nat)
    requires Playable(w.st, cfg.wrap) && Rankable(w) && a < b < |w.st.snakes|
    requires Lives(w.st, a) && Dies(w.st, cfg.wrap, a) && Lives(w.st, b) && Dies(w.st, cfg.wrap, b)
    ensures var st2 := Swapped(w.st, a, b);
      && Playable(st2, cfg.wrap) && Rankable(w.(st := st2))
      && Lives(st2, a) && Dies(st2, cfg.wrap, a) && Lives(st2, b) && Dies(st2, cfg.wrap, b)
      && var x, y := w.st.snakes[a].id, w.st.snakes[b].id;
         var order, order2 := Buried(cfg, w, food).deathOrder, Buried(cfg, w.(st := st2), food).deathOrder;
         DeathIndex(order, x) < DeathIndex(order, y) && DeathIndex(order2, y) < DeathIndex(order2, x)
  {
    hide Dies, Buried, Playable, DeathIndex, Rankable, Swapped;
    var st2, perm := Swapped(w.st, a, b), Swap(|w.st.snakes|, a, b);
    SwappedIsReordered(w.st, cfg.wrap, a, b);
    SwappedRankable(w, a, b);
    ReorderedDies(w.st, st2, cfg.wrap, perm, perm, a);
    ReorderedDies(w.st, st2, cfg.wrap, perm, perm, b);
    LaterSeatBookedLater(cfg, w, food, a, b);
    LaterSeatBookedLater(cfg, w.(st := st2), food, a, b);
  }

  // ---- When the order of listing does not matter ----

  /** Exactly when a move books its dead in an order that goes by snake and not by the order the
      snakes are listed in: when at most one dies in it. */
  lemma DeathOrderFollowsIff(cfg: Config, w: World, food: seq<Point>)
    requires Playable(w.st, cfg.wrap) && Rankable(w)
    ensures (forall st2: State, perm: seq<int>, inv: seq<int> :: Reordered(w.st, st2, perm, inv) ==>
               && Playable(st2, cfg.wrap)
               && AfterMove(cfg, w.(st := st2), food).deathOrder == AfterMove(cfg, w, food).deathOrder)
      <==> |Doomed(w.st, cfg.wrap, |w.st.snakes|)| <= 1
  {
    hide Playable, Dies, Doomed, Buried, AfterMove, Rankable, DeathIndex, Reordered, Swapped, Swap;
    if |Doomed(w.st, cfg.wrap, |w.st.snakes|)| <= 1 {
      forall st2: State, perm: seq<int>, inv: seq<int> | Reordered(w.st, st2, perm, inv)
        ensures Playable(st2, cfg.wrap)
        ensures AfterMove(cfg, w.(st := st2), food).deathOrder == AfterMove(cfg, w, food).deathOrder
      {
        ReorderedPlayable(w.st, st2, cfg.wrap, perm, inv);
        OneDeathFollows(w.st, st2, cfg.wrap, perm, inv);
        BookedOrder(cfg, w, food);
        BookedOrder(cfg, w.(st := st2), food);
      }
    } else {
      var a, b := TwoDoomed(w.st, cfg.wrap);
      SwapSwapsDeaths(cfg, w, food, a, b);
      SwappedIsReordered(w.st, cfg.wrap, a, b);
      BookedOrder(cfg, w, food);
      BookedOrder(cfg, w.(st := Swapped(w.st, a, b)), food);
    }
  }

  lemma ReorderedPlayable(st: State, st2: State, wrap: bool, perm: seq<int>, inv: seq<int>)
    requires Playable(st, wrap) && Reordered(st, st2, perm, inv)
    ensures Playable(st2, wrap)
  {
  }

  lemma BookedOrder(cfg: Config, w: World, food: seq<Point>)
    requires Playable(w.st, cfg.wrap)
    ensures AfterMove(cfg, w, food).deathOrder == Buried(cfg, w, food).deathOrder
    ensures Buried(cfg, w, food).deathOrder == w.deathOrder + DeadOf(w.st, cfg.wrap)
  {
    hide Moved, Doomed, IdsOf, Playable;
  }

  ghost predicate PlacesFollow(cfg: Config, w: World, st2: State, perm: seq<int>, food: seq<Point>)
    requires Playable(w.st, cfg.wrap) && Playable(st2, cfg.wrap) && |perm| == |w.st.snakes| == |st2.snakes|
    requires forall k :: 0 <= k < |perm| ==> 0 <= perm[k] < |perm|
  {
    var end, end2 := AfterMove(cfg, w, food), AfterMove(cfg, w.(st := st2), food);
    && end2.finished == end.finished && |end2.st.snakes| == |end.st.snakes| == |perm|
    && forall k :: 0 <= k < |perm| ==> end2.st.snakes[k].placement == end.st.snakes[perm[k]].placement
  }

  lemma MovedRecords(cfg: Config, w: World, st2: State, perm: seq<int>, inv: seq<int>, food: seq<Point>)
    requires Playable(w.st, cfg.wrap) && Playable(st2, cfg.wrap) && Reordered(w.st, st2, perm, inv)
    requires |Doomed(w.st, cfg.wrap, |w.st.snakes|)| <= 1
    ensures SameRecords(Buried(cfg, w, food), Buried(cfg, w.(st := st2), food), perm, inv)
  {
    hide Playable, Doomed, Outcome, Credits, FoodLeft, IdsOf;
    NoOrderingAdvantage(w.st, st2, cfg.wrap, perm, inv);
    OneDeathFollows(w.st, st2, cfg.wrap, perm, inv);
    hide Moved;
    var s, t := Moved(w.st, cfg.wrap).snakes, Moved(st2, cfg.wrap).snakes;
    forall k | 0 <= k < |perm|
      ensures SameRecord(t[k], s[perm[k]])
    {
      assert t[k].(kills := 0) == s[perm[k]].(kills := 0);
      KillsAside(t[k], s[perm[k]]);
    }
  }

  lemma KillsAside(s: Snake, t: Snake)
    requires s.(kills := 0) == t.(kills := 0)
    ensures SameRecord(s, t)
  {
  }

  lemma PlacesFollowOneDeath(cfg: Config, w: World, st2: State, perm: seq<int>, inv: seq<int>, food: seq<Point>)
    requires Playable(w.st, cfg.wrap) && Playable(st2, cfg.wrap) && Reordered(w.st, st2, perm, inv)
    requires !w.finished && AfterMove(cfg, w, food).finished
    requires |Doomed(w.st, cfg.wrap, |w.st.snakes|)| <= 1
    ensures PlacesFollow(cfg, w, st2, perm, food)
  {
    hide Playable, Doomed, Moved, Buried, Rank, CheckedOver, Reordered;
    var b, b2 := Buried(cfg, w, food), Buried(cfg, w.(st := st2), food);
    ReorderedSizes(w.st, st2, perm, inv);
    MovedRecords(cfg, w, st2, perm, inv, food);
    BuriedDied(cfg, w, food);
    BuriedDied(cfg, w.(st := st2), food);
    hide AfterMove;
    SameDecided(b, b2, perm, inv);
    ClosedIff(b);
    ClosedIff(b2);
    forall k | 0 <= k < |perm|
      ensures CheckedOver(b2).st.snakes[k].placement == CheckedOver(b).st.snakes[perm[k]].placement
    {
      SameRank(b, b2, perm, inv, k);
      ClosedIsPlaced(b, perm[k]);
      ClosedIsPlaced(b2, k);
    }
  }

  lemma ClosedIff(w: World)
    requires !w.finished
    ensures CheckedOver(w).finished == Decided(w.st.snakes) && |CheckedOver(w).st.snakes| == |w.st.snakes|
  {
  }

  /** Exactly when the places a match ends with go by snake and not by the order of listing: when at
      most one snake dies in the last move. */
  lemma PlacesFollowIff(cfg: Config, w: World, food: seq<Point>)
    requires Playable(w.st, cfg.wrap) && Rankable(w) && !w.finished && AfterMove(cfg, w, food).finished
    ensures (forall st2: State, perm: seq<int>, inv: seq<int> :: Reordered(w.st, st2, perm, inv) ==>
               Playable(st2, cfg.wrap) && PlacesFollow(cfg, w, st2, perm, food))
      <==> |Doomed(w.st, cfg.wrap, |w.st.snakes|)| <= 1
  {
    hide Playable, Dies, Doomed, AfterMove, Rankable, Swapped;
    if |Doomed(w.st, cfg.wrap, |w.st.snakes|)| <= 1 {
      forall st2: State, perm: seq<int>, inv: seq<int> | Reordered(w.st, st2, perm, inv)
        ensures Playable(st2, cfg.wrap) && PlacesFollow(cfg, w, st2, perm, food)
      {
        ReorderedSizes(w.st, st2, perm, inv);
        ReorderedPlayable(w.st, st2, cfg.wrap, perm, inv);
        PlacesFollowOneDeath(cfg, w, st2, perm, inv, food);
      }
    } else {
      var a, b := TwoDoomed(w.st, cfg.wrap);
      SwappedIsReordered(w.st, cfg.wrap, a, b);
      SwapSwapsPlaces(cfg, w, food, a, b);
    }
  }

  lemma SwapSwapsPlaces(cfg: Config, w: World, food: seq<Point>, a: nat, b: nat)
    requires Playable(w.st, cfg.wrap) && Rankable(w) && !w.finished && a < b < |w.st.snakes|
    requires Lives(w.st, a) && Dies(w.st, cfg.wrap, a) && Lives(w.st, b) && Dies(w.st, cfg.wrap, b)
    requires AfterMove(cfg, w, food).finished && Playable(Swapped(w.st, a, b), cfg.wrap)
    ensures !PlacesFollow(cfg, w, Swapped(w.st, a, b), Swap(|w.st.snakes|, a, b), food)
  {
    hide Playable, Dies, Doomed, AfterMove, Rankable, Swapped, Buried, DeathIndex;
    SwapSwapsDeaths(cfg, w, food, a, b);
    LaterSeatPlacesBetter(cfg, w, food, a, b);
    if PlacesFollow(cfg, w, Swapped(w.st, a, b), Swap(|w.st.snakes|, a, b), food) {
      LaterSeatPlacesBetter(cfg, w.(st := Swapped(w.st, a, b)), food, a, b);
      assert false;
    }
  }
}
