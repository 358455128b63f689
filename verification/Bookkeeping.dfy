/** Deaths, by elimination and by moving, keep the books. */
module Bookkeeping {
  import opened Types
  import opened Movement
  import opened Soundness
  import opened World
  import Sorting

  // ---- Ranking is a strict total order ----

  lemma DeathIndexInjective(order: seq<PlayerID>, x: PlayerID, y: PlayerID)
    requires x in order && y in order && x != y
    ensures DeathIndex(order, x) != DeathIndex(order, y)
  {
  }

  /** Nobody listed twice, and whoever is dead is in the death order: all the ranking needs. */
  ghost predicate Rankable(w: World) {
    && DistinctIds(w.st.snakes)
    && forall i :: 0 <= i < |w.st.snakes| && !w.st.snakes[i].alive ==> w.st.snakes[i].id in w.deathOrder
  }

  lemma BookedIsRankable(w: World)
    requires SortedIds(w.st.snakes) && DeathsOk(w)
    ensures Rankable(w)
  {
  }

  lemma BeforeTrichotomy(w: World, i: int, j: int)
    requires Rankable(w)
    requires 0 <= i < |w.st.snakes| && 0 <= j < |w.st.snakes|
    ensures i == j ==> !Before(w.st.snakes, w.deathOrder, i, j)
    ensures i != j ==> (Before(w.st.snakes, w.deathOrder, i, j) <==> !Before(w.st.snakes, w.deathOrder, j, i))
  {
    if i != j && !w.st.snakes[i].alive && !w.st.snakes[j].alive {
      DeathIndexInjective(w.deathOrder, w.st.snakes[i].id, w.st.snakes[j].id);
    }
  }

  lemma BeforeTransitive(w: World, i: int, j: int, k: int)
    requires Rankable(w)
    requires 0 <= i < |w.st.snakes| && 0 <= j < |w.st.snakes| && 0 <= k < |w.st.snakes|
    requires Before(w.st.snakes, w.deathOrder, i, j) && Before(w.st.snakes, w.deathOrder, j, k)
    ensures Before(w.st.snakes, w.deathOrder, i, k)
  {
  }

  lemma BeforeMeansSmallerRank(w: World, i: int, j: int)
    requires Rankable(w)
    requires 0 <= i < |w.st.snakes| && 0 <= j < |w.st.snakes|
    requires Before(w.st.snakes, w.deathOrder, i, j)
    ensures Rank(w.st.snakes, w.deathOrder, i) < Rank(w.st.snakes, w.deathOrder, j)
  {
    var s, o := w.st.snakes, w.deathOrder;
    forall k | k in Better(s, o, i)
      ensures k in Better(s, o, j)
    {
      BeforeTransitive(w, k, i, j);
    }
    BeforeTrichotomy(w, i, i);
    assert i in Better(s, o, j) - Better(s, o, i);
    SmallerSubset(Better(s, o, i), Better(s, o, j), i);
  }

  lemma SmallerSubset(a: set<int>, b: set<int>, x: int)
    requires a <= b && x in b && x !in a
    ensures |a| < |b|
  {
    assert a <= b - {x};
    Sorting.SubsetSize(a, b - {x});
  }

  lemma RankInRange(w: World, i: int)
    requires Rankable(w) && 0 <= i < |w.st.snakes|
    ensures 1 <= Rank(w.st.snakes, w.deathOrder, i) <= |w.st.snakes|
  {
    var n := |w.st.snakes|;
    BeforeTrichotomy(w, i, i);
    SmallerSubset(Better(w.st.snakes, w.deathOrder, i), Sorting.Upto(n), i);
  }

  /** At the end of a match the places are a permutation of 1..n in which the survivor, if any,
      is first, and of two dead snakes the one booked later, by the clock or in the same move, is
      placed better, however long they were. */
  lemma PlacementsRankEverybody(w: World, i: int, j: int)
    requires Ledger(w) && w.finished && 0 <= i < |w.st.snakes| && 0 <= j < |w.st.snakes|
    ensures 1 <= w.st.snakes[i].placement <= |w.st.snakes|
    ensures i != j ==> w.st.snakes[i].placement != w.st.snakes[j].placement
    ensures w.st.snakes[i].alive ==> w.st.snakes[i].placement == 1
    ensures !w.st.snakes[i].alive && !w.st.snakes[j].alive ==>
      (w.st.snakes[i].placement < w.st.snakes[j].placement
       <==> DeathIndex(w.deathOrder, w.st.snakes[i].id) > DeathIndex(w.deathOrder, w.st.snakes[j].id))
    ensures !w.st.snakes[i].alive && !w.st.snakes[j].alive
            && w.st.snakes[i].diedAtTick > w.st.snakes[j].diedAtTick
            ==> w.st.snakes[i].placement < w.st.snakes[j].placement
  {
    var s, o := w.st.snakes, w.deathOrder;
    RankInRange(w, i);
    if i != j {
      BeforeTrichotomy(w, i, j);
      if Before(s, o, i, j) {
        BeforeMeansSmallerRank(w, i, j);
      } else {
        BeforeMeansSmallerRank(w, j, i);
      }
      DeadByIndex(w, i, j);
    }
    if s[i].alive {
      forall k | k in Better(s, o, i)
        ensures false
      {
        BeforeTrichotomy(w, i, k);
        OneAlive(w, i, k);
      }
      assert Better(s, o, i) == {};
    }
    if !s[i].alive && !s[j].alive && s[i].diedAtTick > s[j].diedAtTick {
      LaterDeathIsBefore(w, i, j);
      BeforeMeansSmallerRank(w, i, j);
    }
  }

  /** Between two dead snakes the position in the death order decides, and nothing after it. */
  lemma DeadByIndex(w: World, i: int, j: int)
    requires Rankable(w) && 0 <= i < |w.st.snakes| && 0 <= j < |w.st.snakes| && i != j
    ensures !w.st.snakes[i].alive && !w.st.snakes[j].alive ==>
      (Before(w.st.snakes, w.deathOrder, i, j)
       <==> DeathIndex(w.deathOrder, w.st.snakes[i].id) > DeathIndex(w.deathOrder, w.st.snakes[j].id))
  {
    if !w.st.snakes[i].alive && !w.st.snakes[j].alive {
      assert w.st.snakes[i].id != w.st.snakes[j].id;
      DeathIndexInjective(w.deathOrder, w.st.snakes[i].id, w.st.snakes[j].id);
    }
  }

  lemma DiedAtMember(w: World, i: int)
    requires SortedIds(w.st.snakes) && 0 <= i < |w.st.snakes| && !w.st.snakes[i].alive
    ensures DeadIn(w.st.snakes, w.st.snakes[i].id)
    ensures DiedAt(w.st.snakes, w.st.snakes[i].id) == w.st.snakes[i].diedAtTick
  {
    IndexOfMember(w.st.snakes, i);
  }

  lemma LaterDeathIsBefore(w: World, i: int, j: int)
    requires SortedIds(w.st.snakes) && DeathsOk(w)
    requires 0 <= i < |w.st.snakes| && 0 <= j < |w.st.snakes|
    requires !w.st.snakes[i].alive && !w.st.snakes[j].alive
    requires w.st.snakes[i].diedAtTick > w.st.snakes[j].diedAtTick
    ensures Before(w.st.snakes, w.deathOrder, i, j)
  {
    var a := DeathIndex(w.deathOrder, w.st.snakes[i].id);
    var b := DeathIndex(w.deathOrder, w.st.snakes[j].id);
    DiedAtMember(w, i);
    DiedAtMember(w, j);
    assert w.deathOrder[a] == w.st.snakes[i].id && w.deathOrder[b] == w.st.snakes[j].id;
  }

  lemma {:induction false} TwoAlive(s: seq<Snake>, i: int, j: int)
    requires 0 <= i < j < |s| && s[i].alive && s[j].alive
    ensures AliveCount(s) >= 2
  {
    if j < |s| - 1 {
      TwoAlive(s[..|s|-1], i, j);
    } else {
      SomeAlive(s[..|s|-1], i);
    }
  }

  lemma {:induction false} SomeAlive(s: seq<Snake>, i: int)
    requires 0 <= i < |s| && s[i].alive
    ensures AliveCount(s) >= 1
  {
    if i < |s| - 1 {
      SomeAlive(s[..|s|-1], i);
    }
  }

  /** Once a match is decided nobody is alive beside a survivor. */
  lemma OneAlive(w: World, i: int, k: int)
    requires Decided(w.st.snakes) && Lives(w.st, i) && 0 <= k < |w.st.snakes| && k != i
    ensures !w.st.snakes[k].alive
  {
    if w.st.snakes[k].alive {
      TwoAlive(w.st.snakes, if i < k then i else k, if i < k then k else i);
    }
  }

  // ---- A batch of deaths ----

  /** w' is w after the snakes listed in ds died at the current tick; whatever else changed
      leaves ids and the already dead alone. */
  ghost predicate Died(w: World, w': World, ds: seq<int>) {
    && |w'.st.snakes| == |w.st.snakes|
    && w'.st.tick == w.st.tick
    && (forall k :: 0 <= k < |ds| ==> Lives(w.st, ds[k]))
    && (forall a, b :: 0 <= a < b < |ds| ==> ds[a] < ds[b])
    && w'.deathOrder == w.deathOrder + IdsOf(w.st.snakes, ds)
    && (forall i :: 0 <= i < |w.st.snakes| ==>
          && w'.st.snakes[i].id == w.st.snakes[i].id
          && w'.st.snakes[i].alive == (w.st.snakes[i].alive && i !in ds)
          && w'.st.snakes[i].diedAtTick == if i in ds then w.st.tick else w.st.snakes[i].diedAtTick)
  }

  lemma DiedDead(w: World, w': World, ds: seq<int>, a: int)
    requires SortedIds(w.st.snakes) && DeathsOk(w) && ClockOk(w) && Died(w, w', ds)
    requires 0 <= a < |w'.deathOrder|
    ensures DeadIn(w'.st.snakes, w'.deathOrder[a])
    ensures a >= |w.deathOrder| ==> DiedAt(w'.st.snakes, w'.deathOrder[a]) == w.st.tick
    ensures a < |w.deathOrder| ==>
      && w'.deathOrder[a] == w.deathOrder[a]
      && DiedAt(w'.st.snakes, w'.deathOrder[a]) == DiedAt(w.st.snakes, w.deathOrder[a]) <= w.st.tick
  {
    SameIdsSameIndex(w.st.snakes, w'.st.snakes, w'.deathOrder[a]);
    if a < |w.deathOrder| {
      assert DeadIn(w.st.snakes, w.deathOrder[a]);
    } else {
      var d := ds[a - |w.deathOrder|];
      IndexOfMember(w.st.snakes, d);
    }
  }

  lemma DiedDistinct(w: World, w': World, ds: seq<int>, a: int, b: int)
    requires SortedIds(w.st.snakes) && DeathsOk(w) && ClockOk(w) && Died(w, w', ds)
    requires 0 <= a < b < |w'.deathOrder|
    ensures w'.deathOrder[a] != w'.deathOrder[b]
  {
    var n := |w.deathOrder|;
    if b >= n {
      var d := ds[b - n];
      assert w'.deathOrder[b] == w.st.snakes[d].id;
      if a < n {
        assert DeadIn(w.st.snakes, w.deathOrder[a]);
        IndexOfMember(w.st.snakes, d);
      } else {
        assert w'.deathOrder[a] == w.st.snakes[ds[a - n]].id;
      }
    }
  }

  lemma DiedKeepsDeaths(w: World, w': World, ds: seq<int>)
    requires SortedIds(w.st.snakes) && DeathsOk(w) && ClockOk(w) && Died(w, w', ds) && w.st.tick >= 0
    ensures DeathsOk(w') && ClockOk(w') && SortedIds(w'.st.snakes)
  {
    forall a | 0 <= a < |w'.deathOrder|
      ensures DeadIn(w'.st.snakes, w'.deathOrder[a])
    {
      DiedDead(w, w', ds, a);
    }
    forall a, b | 0 <= a < b < |w'.deathOrder|
      ensures w'.deathOrder[a] != w'.deathOrder[b]
      ensures DiedAt(w'.st.snakes, w'.deathOrder[a]) <= DiedAt(w'.st.snakes, w'.deathOrder[b])
    {
      DiedDistinct(w, w', ds, a, b);
      DiedDead(w, w', ds, a);
      DiedDead(w, w', ds, b);
    }
    forall i | 0 <= i < |w'.st.snakes| && !w'.st.snakes[i].alive
      ensures w'.st.snakes[i].id in w'.deathOrder
    {
      if w.st.snakes[i].alive {
        var k :| 0 <= k < |ds| && ds[k] == i;
        assert w'.deathOrder[|w.deathOrder| + k] == w.st.snakes[i].id;
      }
    }
  }

  // ---- Elimination ----

  lemma CheckingKeepsLedger(w: World)
    requires Books(w) && (w.finished ==> Decided(w.st.snakes))
    ensures Ledger(CheckedOver(w))
  {
    hide Books;
    if !w.finished && Decided(w.st.snakes) {
      PlacingKeepsLedger(w, CheckedOver(w), Placed(w.st.snakes, w.deathOrder));
    }
  }

  lemma PlacingKeepsLedger(w: World, w': World, t: seq<Snake>)
    requires Books(w) && !w.finished && Decided(w.st.snakes) && |t| == |w.st.snakes|
    requires forall i :: 0 <= i < |t| ==> t[i] == w.st.snakes[i].(placement := Rank(w.st.snakes, w.deathOrder, i))
    requires w' == World(w.st.(over := true, snakes := t), w.deathOrder, true)
    ensures Ledger(w')
  {
    hide DeathsOk, Died, Rank, GrowthLedger;
    var s := w.st.snakes;
    SameRecordsSameRanks(s, t, w.deathOrder);
    FewerAlive(s, t);
    FewerAlive(t, s);
    SameKills(s, t);
    NobodyDied(w, w');
    DiedKeepsDeaths(w, w', []);
    forall i | 0 <= i < |s|
      ensures GrowthLedger(t[i])
    {
      SamePlacedGrowth(s[i], t[i]);
    }
  }

  lemma NobodyDied(w: World, w': World)
    requires |w'.st.snakes| == |w.st.snakes| && w'.deathOrder == w.deathOrder && w'.st.tick == w.st.tick
    requires forall i :: 0 <= i < |w.st.snakes| ==>
      w'.st.snakes[i] == w.st.snakes[i].(placement := w'.st.snakes[i].placement)
    ensures Died(w, w', [])
  {
  }

  lemma SamePlacedGrowth(s: Snake, t: Snake)
    requires t == s.(placement := t.placement)
    ensures GrowthLedger(s) == GrowthLedger(t)
  {
  }

  /** The survivor of a finished match can still be eliminated, and is then the last to die:
      the ranking stays what it was. */
  lemma KillingTheSurvivor(w: World, k: int, i: int, j: int)
    requires Ledger(w) && w.finished && Lives(w.st, k)
    requires 0 <= i < |w.st.snakes| && 0 <= j < |w.st.snakes|
    ensures Before(Killed(w, k).st.snakes, Killed(w, k).deathOrder, i, j) == Before(w.st.snakes, w.deathOrder, i, j)
  {
    var w' := Killed(w, k);
    assert w'.deathOrder[..|w'.deathOrder| - 1] == w.deathOrder;
    if i != k { OneAlive(w, k, i); }
    if j != k { OneAlive(w, k, j); }
    assert i != k ==> DeathIndex(w'.deathOrder, w.st.snakes[i].id) == DeathIndex(w.deathOrder, w.st.snakes[i].id);
    assert j != k ==> DeathIndex(w'.deathOrder, w.st.snakes[j].id) == DeathIndex(w.deathOrder, w.st.snakes[j].id);
  }

  lemma KillKeepsPlacements(w: World, k: int)
    requires Ledger(w) && Lives(w.st, k)
    ensures PlacementsOk(Killed(w, k))
  {
    var w' := Killed(w, k);
    if w.finished {
      forall i | 0 <= i < |w.st.snakes|
        ensures Rank(w'.st.snakes, w'.deathOrder, i) == Rank(w.st.snakes, w.deathOrder, i)
      {
        forall j | 0 <= j < |w.st.snakes|
          ensures Before(w'.st.snakes, w'.deathOrder, j, i) == Before(w.st.snakes, w.deathOrder, j, i)
        {
          KillingTheSurvivor(w, k, j, i);
        }
        SameOrderSameRank(w'.st.snakes, w'.deathOrder, w.st.snakes, w.deathOrder, i);
      }
    }
  }

  lemma KillKeepsBooks(w: World, k: int)
    requires Ledger(w) && Lives(w.st, k)
    ensures Books(Killed(w, k)) && (w.finished ==> Decided(Killed(w, k).st.snakes))
  {
    hide DeathsOk, PlacementsOk;
    var w' := Killed(w, k);
    KillKeepsPlacements(w, k);
    SameKills(w.st.snakes, w'.st.snakes);
    FewerAlive(w.st.snakes, w'.st.snakes);
    DiedKeepsDeaths(w, w', [k]);
    assert forall i :: 0 <= i < |w.st.snakes| ==> GrowthLedger(w.st.snakes[i]) ==> GrowthLedger(w'.st.snakes[i]);
  }

  lemma EliminationKeepsLedger(w: World, id: PlayerID)
    requires Ledger(w)
    ensures Ledger(Eliminated(w, id))
  {
    var k := SnakeIndex(w.st.snakes, id);
    if k >= 0 && w.st.snakes[k].alive {
      KillKeepsBooks(w, k);
      CheckingKeepsLedger(Killed(w, k));
    }
  }

  // ---- A move ----

  ghost function SumCredits(st: State, wrap: bool, victims: seq<int>, n: nat): nat
    requires Playable(st, wrap) && forall k :: 0 <= k < |victims| ==> Lives(st, victims[k])
  {
    if n == 0 then 0 else SumCredits(st, wrap, victims, n - 1) + Credits(st, wrap, victims, n - 1)
  }

  /** One victim is one credit at most, whoever it goes to. */
  lemma {:induction false} OneMoreVictim(st: State, wrap: bool, victims: seq<int>, n: nat)
    requires Playable(st, wrap) && |victims| > 0 && forall k :: 0 <= k < |victims| ==> Lives(st, victims[k])
    ensures var k := KillerOf(st, wrap, victims[|victims|-1]);
      SumCredits(st, wrap, victims, n)
      == SumCredits(st, wrap, victims[..|victims|-1], n) + (if 0 <= k < n then 1 else 0)
  {
    if n > 0 {
      OneMoreVictim(st, wrap, victims, n - 1);
    }
  }

  lemma {:induction false} CreditsAtMostVictims(st: State, wrap: bool, victims: seq<int>, n: nat)
    requires Playable(st, wrap) && forall k :: 0 <= k < |victims| ==> Lives(st, victims[k])
    ensures SumCredits(st, wrap, victims, n) <= |victims|
  {
    if |victims| == 0 {
      NoVictims(st, wrap, n);
    } else {
      CreditsAtMostVictims(st, wrap, victims[..|victims|-1], n);
      OneMoreVictim(st, wrap, victims, n);
    }
  }

  lemma {:induction false} NoVictims(st: State, wrap: bool, n: nat)
    requires Playable(st, wrap)
    ensures SumCredits(st, wrap, [], n) == 0
  {
    if n > 0 {
      NoVictims(st, wrap, n - 1);
    }
  }

  lemma {:induction false} KillsAfterMove(
    st: State, wrap: bool, victims: seq<int>, s: seq<Snake>, t: seq<Snake>)
    requires Playable(st, wrap) && |s| == |t| && forall k :: 0 <= k < |victims| ==> Lives(st, victims[k])
    requires forall i :: 0 <= i < |s| ==> t[i].kills == s[i].kills + Credits(st, wrap, victims, i)
    ensures TotalKills(t) == TotalKills(s) + SumCredits(st, wrap, victims, |s|)
  {
    hide Playable, Credits;
    if |s| > 0 {
      KillsAfterMove(st, wrap, victims, s[..|s|-1], t[..|t|-1]);
    }
  }

  lemma MoveKeepsKills(st: State, wrap: bool)
    requires Playable(st, wrap)
    ensures TotalKills(Moved(st, wrap).snakes) <= TotalKills(st.snakes) + |Doomed(st, wrap, |st.snakes|)|
  {
    hide Moved, Outcome, Credits;
    var ds := Doomed(st, wrap, |st.snakes|);
    KillsAfterMove(st, wrap, ds, st.snakes, Moved(st, wrap).snakes);
    CreditsAtMostVictims(st, wrap, ds, |st.snakes|);
  }

  lemma OutcomeBooks(st: State, wrap: bool, i: int)
    requires Playable(st, wrap) && 0 <= i < |st.snakes|
    ensures var sn, sn', dies := st.snakes[i], Outcome(st, wrap, i), Lives(st, i) && Dies(st, wrap, i);
      && sn'.id == sn.id && sn'.alive == (sn.alive && !dies)
      && sn'.diedAtTick == (if dies then st.tick else sn.diedAtTick)
      && sn'.placement == sn.placement
      && (GrowthLedger(sn) ==> GrowthLedger(sn'))
  {
    hide Dies, HeadAfter;
  }

  lemma MoveIsDeaths(w: World, w': World, wrap: bool)
    requires Playable(w.st, wrap) && w'.st.tick == w.st.tick && w'.st.snakes == Moved(w.st, wrap).snakes
    requires w'.deathOrder == w.deathOrder + IdsOf(w.st.snakes, Doomed(w.st, wrap, |w.st.snakes|))
    ensures Died(w, w', Doomed(w.st, wrap, |w.st.snakes|))
  {
    hide Moved, Outcome, Credits, Dies;
    var ds := Doomed(w.st, wrap, |w.st.snakes|);
    forall a, b | 0 <= a < b < |ds|
      ensures ds[a] < ds[b]
    {
      DoomedInSeatOrder(w.st, wrap, |w.st.snakes|, a, b);
    }
    forall i | 0 <= i < |w.st.snakes|
      ensures w'.st.snakes[i].id == w.st.snakes[i].id
      ensures w'.st.snakes[i].alive == (w.st.snakes[i].alive && i !in ds)
      ensures w'.st.snakes[i].diedAtTick == if i in ds then w.st.tick else w.st.snakes[i].diedAtTick
    {
      OutcomeBooks(w.st, wrap, i);
      DoomedAreTheDying(w.st, wrap, |w.st.snakes|, i);
    }
  }

  lemma MoveKeepsBooks(w: World, w': World, wrap: bool)
    requires Ledger(w) && !w.finished && Playable(w.st, wrap)
    requires w'.st == Moved(w.st, wrap).(food := w'.st.food) && w'.finished == w.finished
    requires w'.deathOrder == w.deathOrder + IdsOf(w.st.snakes, Doomed(w.st, wrap, |w.st.snakes|))
    ensures Books(w')
  {
    hide Moved, Outcome, Credits, DeathsOk, Died, GrowthLedger;
    forall i | 0 <= i < |w.st.snakes|
      ensures GrowthLedger(w'.st.snakes[i]) && w'.st.snakes[i].placement == 0
    {
      OutcomeBooks(w.st, wrap, i);
      SameGrowth(Outcome(w.st, wrap, i), w'.st.snakes[i]);
    }
    MoveKeepsKills(w.st, wrap);
    MoveIsDeaths(w, w', wrap);
    DiedKeepsDeaths(w, w', Doomed(w.st, wrap, |w.st.snakes|));
  }

  lemma SameGrowth(s: Snake, t: Snake)
    requires t == s.(kills := t.kills)
    ensures GrowthLedger(s) == GrowthLedger(t)
  {
  }

  lemma MoveKeepsLedger(cfg: Config, w: World, food: seq<Point>)
    requires Ledger(w) && !w.finished && Playable(w.st, cfg.wrap)
    ensures Ledger(AfterMove(cfg, w, food))
  {
    hide Moved, Books, Dies;
    var ds := Doomed(w.st, cfg.wrap, |w.st.snakes|);
    var w' := World(Moved(w.st, cfg.wrap).(food := food), w.deathOrder + IdsOf(w.st.snakes, ds), w.finished);
    MoveKeepsBooks(w, w', cfg.wrap);
    CheckingKeepsLedger(w');
  }

  lemma TickKeepsLedger(w: World)
    requires Ledger(w)
    ensures Ledger(Ticked(w))
  {
    DiedKeepsDeaths(w, w, []);
    assert forall i :: 0 <= i < |w.st.snakes| ==> Ticked(w).st.snakes[i] == w.st.snakes[i];
  }
}
