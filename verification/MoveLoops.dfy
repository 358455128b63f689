/** What each loop of `Sim.advance` has achieved after any number of rounds. */
module MoveLoops {
  import opened Types
  import opened Movement
  import opened Soundness
  import opened World
  import opened Bookkeeping
  import Sorting

  // ---- The working data of one move ----

  datatype Move = Move(idx: int, head: Point, ok: bool)

  /** The moves of the first n snakes, in seat order. */
  ghost function Planned(st: State, wrap: bool, n: nat): (ms: seq<Move>)
    requires Playable(st, wrap) && n <= |st.snakes|
    ensures forall k :: 0 <= k < |ms| ==> 0 <= ms[k].idx < n
  {
    if n == 0 then []
    else if st.snakes[n - 1].alive then Planned(st, wrap, n - 1) + [MoveOf(st, wrap, n - 1)]
    else Planned(st, wrap, n - 1)
  }

  lemma {:induction false} PlannedElement(st: State, wrap: bool, n: nat, k: nat)
    requires Playable(st, wrap) && n <= |st.snakes| && k < |Planned(st, wrap, n)|
    ensures var m := Planned(st, wrap, n)[k];
      Lives(st, m.idx) && m == MoveOf(st, wrap, m.idx)
  {
    hide HeadAfter;
    if k < |Planned(st, wrap, n - 1)| {
      PlannedElement(st, wrap, n - 1, k);
    }
  }

  lemma {:induction false} PlannedInOrder(st: State, wrap: bool, n: nat, a: nat, b: nat)
    requires Playable(st, wrap) && n <= |st.snakes| && a < b < |Planned(st, wrap, n)|
    ensures Planned(st, wrap, n)[a].idx < Planned(st, wrap, n)[b].idx
  {
    hide HeadAfter;
    if b < |Planned(st, wrap, n - 1)| {
      PlannedInOrder(st, wrap, n - 1, a, b);
    }
  }

  lemma {:induction false} PlannedPosition(st: State, wrap: bool, n: nat, i: nat) returns (k: nat)
    requires Playable(st, wrap) && i < n <= |st.snakes| && Lives(st, i)
    ensures k < |Planned(st, wrap, n)| && Planned(st, wrap, n)[k] == MoveOf(st, wrap, i)
  {
    hide HeadAfter;
    if i < n - 1 {
      k := PlannedPosition(st, wrap, n - 1, i);
    } else {
      k := |Planned(st, wrap, n - 1)|;
    }
  }

  function MoveOf(st: State, wrap: bool, i: int): Move
    requires Playable(st, wrap) && Lives(st, i)
  {
    var h := HeadAfter(st, wrap, i);
    Move(i, h, st.arena.Contains(h))
  }

  /** How many moves stay in the arena and arrive at p. */
  function Arrivals(ms: seq<Move>, p: Point): nat {
    if |ms| == 0 then 0
    else
      Arrivals(ms[..|ms|-1], p) + (if ms[|ms|-1].ok && ms[|ms|-1].head == p then 1 else 0)
  }

  lemma {:induction false} SomeArrival(ms: seq<Move>, p: Point)
    ensures Arrivals(ms, p) > 0 <==> exists k :: 0 <= k < |ms| && ms[k].ok && ms[k].head == p
  {
    if |ms| > 0 {
      SomeArrival(ms[..|ms|-1], p);
      assert forall k :: 0 <= k < |ms| - 1 ==> ms[..|ms|-1][k] == ms[k];
    }
  }

  lemma {:induction false} TwoArrivals(ms: seq<Move>, p: Point)
    ensures Arrivals(ms, p) > 1 <==>
      exists j, k :: 0 <= j < k < |ms| && ms[j].ok && ms[j].head == p && ms[k].ok && ms[k].head == p
  {
    if |ms| > 0 {
      var init := ms[..|ms|-1];
      TwoArrivals(init, p);
      SomeArrival(init, p);
      assert forall k :: 0 <= k < |ms| - 1 ==> init[k] == ms[k];
    }
  }

  lemma TwoArrive(ms: seq<Move>, p: Point, a: int, b: int)
    requires 0 <= a < b < |ms| && ms[a].ok && ms[a].head == p && ms[b].ok && ms[b].head == p
    ensures Arrivals(ms, p) > 1
  {
    TwoArrivals(ms, p);
  }

  lemma HeadOnMeansArrivals(st: State, wrap: bool, i: int, j: int)
    requires Playable(st, wrap) && Lives(st, i) && Lives(st, j) && i < j
    requires HeadAfter(st, wrap, i) == HeadAfter(st, wrap, j) && !Leaves(st, wrap, i)
    ensures Arrivals(Planned(st, wrap, |st.snakes|), HeadAfter(st, wrap, i)) > 1
  {
    hide HeadAfter, Arrivals, Playable, Planned;
    var n := |st.snakes|;
    var a := PlannedPosition(st, wrap, n, i);
    var b := PlannedPosition(st, wrap, n, j);
    if b < a {
      PlannedInOrder(st, wrap, n, b, a);
    }
    TwoArrive(Planned(st, wrap, n), HeadAfter(st, wrap, i), a, b);
  }

  lemma ArrivalsMeanAnother(st: State, wrap: bool, i: int, p: Point) returns (j: int)
    requires Playable(st, wrap) && Arrivals(Planned(st, wrap, |st.snakes|), p) > 1
    ensures j != i && Lives(st, j) && HeadAfter(st, wrap, j) == p
  {
    hide HeadAfter, Planned;
    var ms := Planned(st, wrap, |st.snakes|);
    TwoArrivals(ms, p);
    var a, b :| 0 <= a < b < |ms| && ms[a].ok && ms[a].head == p && ms[b].ok && ms[b].head == p;
    PlannedElement(st, wrap, |st.snakes|, a);
    PlannedElement(st, wrap, |st.snakes|, b);
    PlannedInOrder(st, wrap, |st.snakes|, a, b);
    j := if ms[a].idx == i then ms[b].idx else ms[a].idx;
  }

  /** The count of arrivals tells a head-on collision. */
  lemma ArrivalsMeanHeadOn(st: State, wrap: bool, i: int)
    requires Playable(st, wrap) && Lives(st, i) && !Leaves(st, wrap, i)
    ensures Arrivals(Planned(st, wrap, |st.snakes|), HeadAfter(st, wrap, i)) > 1 <==> HeadOn(st, wrap, i)
  {
    hide HeadAfter, Planned, Arrivals;
    var p := HeadAfter(st, wrap, i);
    if HeadOn(st, wrap, i) {
      var j :| j != i && Lives(st, j) && HeadAfter(st, wrap, j) == p;
      HeadOnMeansArrivals(st, wrap, if i < j then i else j, if i < j then j else i);
    } else if Arrivals(Planned(st, wrap, |st.snakes|), p) > 1 {
      var j := ArrivalsMeanAnother(st, wrap, i, p);
      assert false;
    }
  }

  /** Snakes between two consecutive movers are out of play and doom nobody. */
  lemma {:induction false} DoomedSkipsTheDead(st: State, wrap: bool, a: nat, b: nat)
    requires Playable(st, wrap) && a <= b <= |st.snakes|
    requires forall i :: a <= i < b ==> !Lives(st, i)
    ensures Doomed(st, wrap, b) == Doomed(st, wrap, a)
  {
    hide Dies, Playable;
    if a < b {
      assert !Lives(st, b - 1);
      DoomedSkipsTheDead(st, wrap, a, b - 1);
    }
  }

  lemma LastSolidMeansHits(st: State, wrap: bool, i: int)
    requires Playable(st, wrap) && Lives(st, i)
    ensures Hits(st, wrap, i) <==> LastSolid(st.snakes, HeadAfter(st, wrap, i)) >= 0
  {
  }

  /** The map of solid cells names the last snake solid at each. */
  ghost predicate IsSolidMap(snakes: seq<Snake>, solid: map<Point, PlayerID>) {
    && (forall p :: p in solid <==> LastSolid(snakes, p) >= 0)
    && (forall p :: p in solid ==> solid[p] == snakes[LastSolid(snakes, p)].id)
  }

  ghost predicate IsArrivalMap(moves: seq<Move>, heads: map<Point, int>) {
    forall p :: (if p in heads then heads[p] else 0) == Arrivals(moves, p)
  }

  /** The snakes after everybody has taken up a queued heading and nobody has moved. */
  ghost predicate AllTurned(was: State, st: State) {
    TurnedUpTo(was, st, |was.snakes|)
  }

  ghost predicate TurnedUpTo(was: State, st: State, n: nat) {
    && |st.snakes| == |was.snakes| && st == was.(snakes := st.snakes)
    && forall i :: 0 <= i < |was.snakes| ==>
         st.snakes[i] == if i < n && was.snakes[i].alive then Turned(was.snakes[i]) else was.snakes[i]
  }

  lemma NothingPlanned(was: State, wrap: bool)
    requires Playable(was, wrap)
    ensures TurnedUpTo(was, was, 0) && Planned(was, wrap, 0) == [] && IsArrivalMap([], map[])
  {
  }

  /** One round of the loop that plans the moves. */
  lemma PlanStep(was: State, wrap: bool, st: State, i: nat)
    requires Playable(was, wrap) && i < |was.snakes| && |st.snakes| == |was.snakes| && TurnedUpTo(was, st, i)
    ensures st.snakes[i] == was.snakes[i] && st.arena == was.arena
    ensures !was.snakes[i].alive ==>
      TurnedUpTo(was, st, i + 1) && Planned(was, wrap, i + 1) == Planned(was, wrap, i)
    ensures was.snakes[i].alive ==>
      && |was.snakes[i].body| > 0 && (wrap ==> was.arena.Width() > 0 && was.arena.Height() > 0)
      && TurnedUpTo(was, st.(snakes := st.snakes[i := Turned(was.snakes[i])]), i + 1)
      && var h := Ahead(was.arena, wrap, was.snakes[i].body[0], Turned(was.snakes[i]).dir);
         Planned(was, wrap, i + 1) == Planned(was, wrap, i) + [Move(i, h, was.arena.Contains(h))]
  {
    hide Ahead;
  }

  ghost predicate AreKillers(was: State, wrap: bool, n: nat, killers: map<int, PlayerID>)
    requires Playable(was, wrap)
  {
    && (forall i :: i in killers <==> 0 <= i < n && Lives(was, i) && Dies(was, wrap, i) && KillerOf(was, wrap, i) >= 0)
    && (forall i :: i in killers ==> killers[i] == was.snakes[KillerOf(was, wrap, i)].id)
  }

  /** Progress of the loop over survivors: the first n seats have moved. */
  ghost predicate MovedUpTo(was: State, wrap: bool, st: State, n: nat)
    requires Playable(was, wrap) && n <= |was.snakes|
  {
    && |st.snakes| == |was.snakes|
    && st == was.(snakes := st.snakes, food := FoodLeft(was, wrap, n, was.food))
    && forall i :: 0 <= i < |was.snakes| ==>
         st.snakes[i] ==
           if !was.snakes[i].alive then was.snakes[i]
           else if i < n && Survives(was, wrap, i) then Outcome(was, wrap, i)
           else Turned(was.snakes[i])
  }

  lemma NobodyMoved(was: State, wrap: bool, st: State)
    requires Playable(was, wrap) && AllTurned(was, st)
    ensures MovedUpTo(was, wrap, st, 0)
  {
    NothingEaten(was, wrap, was.food);
  }

  lemma {:induction false} NothingEaten(was: State, wrap: bool, food: seq<Point>)
    requires Playable(was, wrap)
    ensures FoodLeft(was, wrap, 0, food) == food
  {
    if |food| > 0 {
      NothingEaten(was, wrap, food[..|food|-1]);
    }
  }

  /** The dead and the doomed eat nothing. */
  lemma {:induction false} SameFoodLeft(was: State, wrap: bool, a: nat, b: nat, food: seq<Point>)
    requires Playable(was, wrap) && a <= b
    requires forall i :: a <= i < b ==> !Survives(was, wrap, i)
    ensures FoodLeft(was, wrap, a, food) == FoodLeft(was, wrap, b, food)
  {
    hide Survives, HeadAfter;
    if |food| > 0 {
      SameFoodLeft(was, wrap, a, b, food[..|food|-1]);
    }
  }

  /** The loop of `eatAt`: the food without its first pellet at p. */
  function WithoutFirst(food: seq<Point>, p: Point): (rest: seq<Point>)
    ensures p !in food ==> rest == food
  {
    if |food| == 0 then []
    else if food[0] == p then food[1..]
    else [food[0]] + WithoutFirst(food[1..], p)
  }

  lemma {:induction false} WithoutFirstAt(food: seq<Point>, i: nat, p: Point)
    requires i < |food| && food[i] == p && p !in food[..i]
    ensures WithoutFirst(food, p) == food[..i] + food[i + 1..]
  {
    if i > 0 {
      assert food[0] == food[..i][0] && food[1..][..i - 1] == food[..i][1..];
      WithoutFirstAt(food[1..], i - 1, p);
    }
  }

  lemma {:induction false} WithoutFirstOfPrefix(food: seq<Point>, x: Point, p: Point)
    requires DistinctCells(food + [x])
    ensures WithoutFirst(food + [x], p) == if x == p then food else WithoutFirst(food, p) + [x]
  {
    if |food| == 0 {
      assert food + [x] == [x];
    } else {
      assert (food + [x])[0] == food[0] && (food + [x])[1..] == food[1..] + [x];
      assert DistinctCells(food[1..] + [x]) by {
        forall a, b | 0 <= a < b < |food[1..] + [x]|
          ensures (food[1..] + [x])[a] != (food[1..] + [x])[b]
        {
          assert (food[1..] + [x])[a] == (food + [x])[a + 1] && (food[1..] + [x])[b] == (food + [x])[b + 1];
        }
      }
      WithoutFirstOfPrefix(food[1..], x, p);
      if x == p {
        assert (food + [x])[0] != (food + [x])[|food|];
      }
    }
  }

  /** One survivor's bite: the pellet at its head is what the next step of the rule removes. */
  lemma {:induction false} OneBite(was: State, wrap: bool, i: nat, food: seq<Point>)
    requires Playable(was, wrap) && Survives(was, wrap, i) && DistinctCells(food)
    ensures FoodLeft(was, wrap, i + 1, food) == WithoutFirst(FoodLeft(was, wrap, i, food), HeadAfter(was, wrap, i))
  {
    hide Dies, HeadAfter;
    if |food| > 0 {
      var p, x, init := HeadAfter(was, wrap, i), food[|food|-1], food[..|food|-1];
      OneBite(was, wrap, i, init);
      FoodLeftDistinct(was, wrap, i, food);
      var rest := FoodLeft(was, wrap, i, init);
      assert Eaten(was, wrap, i + 1, x) <==> Eaten(was, wrap, i, x) || x == p;
      if !Eaten(was, wrap, i, x) {
        WithoutFirstOfPrefix(rest, x, p);
        if x == p {
          assert p !in init && p !in rest;
        }
      }
    }
  }

  lemma SurvivorHeadsDiffer(was: State, wrap: bool, i: int, j: int)
    requires Playable(was, wrap) && Survives(was, wrap, i) && Survives(was, wrap, j) && i != j
    ensures HeadAfter(was, wrap, i) != HeadAfter(was, wrap, j)
  {
  }

  lemma BiteIsFresh(was: State, wrap: bool, i: nat)
    requires Playable(was, wrap) && Survives(was, wrap, i)
    ensures HeadAfter(was, wrap, i) in FoodLeft(was, wrap, i, was.food) <==> HeadAfter(was, wrap, i) in was.food
  {
    hide HeadAfter, FoodLeft, Dies;
    forall j | j < i && Survives(was, wrap, j)
      ensures HeadAfter(was, wrap, j) != HeadAfter(was, wrap, i)
    {
      SurvivorHeadsDiffer(was, wrap, i, j);
    }
  }

  lemma SkipTheDead(was: State, wrap: bool, st: State, a: nat, b: nat)
    requires Playable(was, wrap) && a <= b <= |was.snakes| && MovedUpTo(was, wrap, st, a)
    requires forall i :: a <= i < b ==> !Survives(was, wrap, i)
    ensures MovedUpTo(was, wrap, st, b)
  {
    hide Survives, Outcome;
    SameFoodLeft(was, wrap, a, b, was.food);
  }

  /** One round of the loop over survivors. */
  lemma MoveStep(was: State, wrap: bool, st: State, i: nat)
    requires Playable(was, wrap) && DistinctCells(was.food)
    requires Survives(was, wrap, i) && MovedUpTo(was, wrap, st, i)
    ensures |st.snakes| == |was.snakes| && |st.snakes[i].body| > 0
    ensures var h := HeadAfter(was, wrap, i);
      var sn := Grown(st.snakes[i], h, h in st.food);
      MovedUpTo(was, wrap, st.(snakes := st.snakes[i := sn], food := WithoutFirst(st.food, h)), i + 1)
  {
    hide HeadAfter, Dies, Grown, WithoutFirst, FoodLeft;
    BiteIsFresh(was, wrap, i);
    OneBite(was, wrap, i, was.food);
  }

  /** Snake i once the first k of the doomed are dead and their killers credited. */
  ghost function Buried(was: State, wrap: bool, ds: seq<int>, k: nat, i: int): Snake
    requires Playable(was, wrap) && ds == Doomed(was, wrap, |was.snakes|) && k <= |ds| && 0 <= i < |was.snakes|
  {
    (if i in ds && i !in ds[..k] then Turned(was.snakes[i]) else Outcome(was, wrap, i)).(
      kills := was.snakes[i].kills + Credits(was, wrap, ds[..k], i))
  }

  ghost predicate BuriedUpTo(was: State, wrap: bool, st: State, ds: seq<int>, k: nat)
    requires Playable(was, wrap) && ds == Doomed(was, wrap, |was.snakes|) && k <= |ds|
  {
    && |st.snakes| == |was.snakes|
    && st == was.(snakes := st.snakes, food := FoodLeft(was, wrap, |was.snakes|, was.food))
    && forall i :: 0 <= i < |was.snakes| ==> st.snakes[i] == Buried(was, wrap, ds, k, i)
  }

  lemma NobodyBuried(was: State, wrap: bool, st: State, ds: seq<int>)
    requires Playable(was, wrap) && ds == Doomed(was, wrap, |was.snakes|) && MovedUpTo(was, wrap, st, |was.snakes|)
    ensures BuriedUpTo(was, wrap, st, ds, 0)
  {
    hide Dies, HeadAfter, Doomed, FoodLeft;
    forall i | 0 <= i < |was.snakes|
      ensures st.snakes[i] == Buried(was, wrap, ds, 0, i)
    {
      DoomedAreTheDying(was, wrap, |was.snakes|, i);
    }
  }

  lemma AllBuried(was: State, wrap: bool, st: State, ds: seq<int>)
    requires Playable(was, wrap) && ds == Doomed(was, wrap, |was.snakes|) && BuriedUpTo(was, wrap, st, ds, |ds|)
    ensures st == Moved(was, wrap)
  {
    hide Dies, Outcome, Credits, Doomed, FoodLeft;
    assert ds[..|ds|] == ds;
    assert st.snakes == Moved(was, wrap).snakes;
  }

  /** What the loop does to the snakes for the killer of one victim. */
  function Credited(snakes: seq<Snake>, k: int): (r: seq<Snake>)
    ensures |r| == |snakes|
  {
    if 0 <= k < |snakes| then snakes[k := snakes[k].(kills := snakes[k].kills + 1)] else snakes
  }

  lemma CreditsStep(was: State, wrap: bool, ds: seq<int>, k: nat, i: int)
    requires Playable(was, wrap) && ds == Doomed(was, wrap, |was.snakes|) && k < |ds|
    ensures Credits(was, wrap, ds[..k + 1], i)
      == Credits(was, wrap, ds[..k], i) + (if KillerOf(was, wrap, ds[k]) == i then 1 else 0)
  {
    hide KillerOf, Doomed;
    assert ds[..k + 1][..k] == ds[..k];
  }

  lemma VictimNotYetBuried(was: State, wrap: bool, ds: seq<int>, k: nat)
    requires Playable(was, wrap) && ds == Doomed(was, wrap, |was.snakes|) && k < |ds|
    ensures ds[k] in ds && ds[k] !in ds[..k] && ds[..k + 1] == ds[..k] + [ds[k]]
    ensures Lives(was, ds[k]) && Dies(was, wrap, ds[k])
  {
    hide Dies, Doomed;
    DoomedAreTheDying(was, wrap, |was.snakes|, ds[k]);
    forall a | 0 <= a < k
      ensures ds[a] != ds[k]
    {
      DoomedInSeatOrder(was, wrap, |was.snakes|, a, k);
    }
  }

  lemma BuryOne(was: State, wrap: bool, ds: seq<int>, k: nat, i: int)
    requires Playable(was, wrap) && ds == Doomed(was, wrap, |was.snakes|) && k < |ds| && 0 <= i < |was.snakes|
    ensures var sn := Buried(was, wrap, ds, k, i);
      var credit := if KillerOf(was, wrap, ds[k]) == i then 1 else 0;
      Buried(was, wrap, ds, k + 1, i) ==
        if i == ds[k] then sn.(alive := false, diedAtTick := was.tick, kills := sn.kills + credit)
        else sn.(kills := sn.kills + credit)
  {
    VictimNotYetBuried(was, wrap, ds, k);
    CreditsStep(was, wrap, ds, k, i);
    hide KillerOf, Credits, HeadAfter, Doomed, Dies, Grown;
  }

  lemma BuriedId(was: State, wrap: bool, ds: seq<int>, k: nat, i: int)
    requires Playable(was, wrap) && ds == Doomed(was, wrap, |was.snakes|) && k <= |ds| && 0 <= i < |was.snakes|
    ensures Buried(was, wrap, ds, k, i).id == was.snakes[i].id
  {
    OutcomeBooks(was, wrap, i);
  }

  lemma KillerIsAnother(was: State, wrap: bool, v: int)
    requires Playable(was, wrap) && Lives(was, v)
    ensures KillerOf(was, wrap, v) != v
  {
  }

  /** One round of the loop over the doomed: the effect. */
  lemma BuryStep(was: State, wrap: bool, st: State, ds: seq<int>, k: nat)
    requires Playable(was, wrap) && ds == Doomed(was, wrap, |was.snakes|) && k < |ds|
    requires BuriedUpTo(was, wrap, st, ds, k)
    ensures st.tick == was.tick && |st.snakes| == |was.snakes| && st.snakes[ds[k]].alive
    ensures var snakes := Credited(st.snakes, KillerOf(was, wrap, ds[k]));
      BuriedUpTo(was, wrap,
        st.(snakes := snakes[ds[k] := snakes[ds[k]].(alive := false, diedAtTick := was.tick)]), ds, k + 1)
  {
    hide Dies, KillerOf, Credits, HeadAfter, FoodLeft, Doomed, Outcome, Buried;
    VictimNotYetBuried(was, wrap, ds, k);
    VictimStillAlive(was, wrap, ds, k);
    KillerIsAnother(was, wrap, ds[k]);
    forall i | 0 <= i < |was.snakes|
      ensures var sn, credit := st.snakes[i], if KillerOf(was, wrap, ds[k]) == i then 1 else 0;
        Buried(was, wrap, ds, k + 1, i) ==
          if i == ds[k] then sn.(alive := false, diedAtTick := was.tick, kills := sn.kills + credit)
          else sn.(kills := sn.kills + credit)
    {
      BuryOne(was, wrap, ds, k, i);
    }
  }

  lemma VictimStillAlive(was: State, wrap: bool, ds: seq<int>, k: nat)
    requires Playable(was, wrap) && ds == Doomed(was, wrap, |was.snakes|) && k < |ds|
    ensures Buried(was, wrap, ds, k, ds[k]).alive
  {
    hide Dies, Credits, Doomed, Outcome;
    VictimNotYetBuried(was, wrap, ds, k);
  }

  /** One round of the loop over the doomed: whom the map of killers leads to. */
  lemma KillerLookup(was: State, wrap: bool, st: State, ds: seq<int>, k: nat, killers: map<int, PlayerID>)
    requires Playable(was, wrap) && SortedIds(was.snakes)
    requires ds == Doomed(was, wrap, |was.snakes|) && k < |ds|
    requires BuriedUpTo(was, wrap, st, ds, k) && AreKillers(was, wrap, |was.snakes|, killers)
    ensures st.snakes[ds[k]].id == was.snakes[ds[k]].id
    ensures KillerOf(was, wrap, ds[k]) ==
      if ds[k] in killers then SnakeIndex(st.snakes, killers[ds[k]]) else -1
  {
    hide Dies, KillerOf, Credits, HeadAfter, FoodLeft, Doomed, Buried;
    var v := ds[k];
    VictimNotYetBuried(was, wrap, ds, k);
    forall i | 0 <= i < |was.snakes|
      ensures st.snakes[i].id == was.snakes[i].id
    {
      BuriedId(was, wrap, ds, k, i);
    }
    if v in killers {
      SameIdsSameIndex(was.snakes, st.snakes, killers[v]);
      IndexOfMember(was.snakes, KillerOf(was, wrap, v));
    }
  }

  lemma DoomedAreAll(was: State, wrap: bool)
    requires Playable(was, wrap)
    ensures forall i :: i in Doomed(was, wrap, |was.snakes|) <==> Lives(was, i) && Dies(was, wrap, i)
  {
    forall i
      ensures i in Doomed(was, wrap, |was.snakes|) <==> Lives(was, i) && Dies(was, wrap, i)
    {
      DoomedAreTheDying(was, wrap, |was.snakes|, i);
    }
  }

  function RankLess(snakes: seq<Snake>, order: seq<PlayerID>): (int, int) -> bool {
    (i, j) => 0 <= i < |snakes| && 0 <= j < |snakes| && Before(snakes, order, i, j)
  }

  ghost predicate IsRanking(w: World, order: seq<int>) {
    && |order| == |w.st.snakes|
    && (forall k :: 0 <= k < |order| ==> 0 <= order[k] < |w.st.snakes|)
    && Sorting.NoRepeats(order)
    && (forall i :: 0 <= i < |w.st.snakes| ==> i in order)
    && (forall a, b :: 0 <= a < b < |order| ==> Before(w.st.snakes, w.deathOrder, order[a], order[b]))
  }

  lemma RankLessIsOrder(w: World, indices: seq<int>)
    requires Rankable(w)
    requires forall i :: i in indices ==> 0 <= i < |w.st.snakes|
    ensures var less := RankLess(w.st.snakes, w.deathOrder);
      && Sorting.WeakOrder(less, indices)
      && forall x, y :: x in indices && y in indices && x != y ==> less(x, y) || less(y, x)
  {
    hide Rankable, Before;
    var less := RankLess(w.st.snakes, w.deathOrder);
    forall x, y | x in indices && y in indices
      ensures less(x, y) <==> x != y && !less(y, x)
    {
      BeforeTrichotomy(w, x, y);
    }
    forall x, y, z | x in indices && y in indices && z in indices && !less(y, x) && !less(z, y)
      ensures !less(z, x)
    {
      if x != y && y != z {
        BeforeTransitive(w, x, y, z);
      }
    }
  }

  lemma AllIndices(indices: seq<int>, order: seq<int>)
    requires multiset(order) == multiset(indices) && |order| == |indices|
    requires forall i :: 0 <= i < |indices| ==> indices[i] == i
    ensures forall i :: 0 <= i < |order| ==> 0 <= order[i] < |indices| && i in order
  {
    Sorting.SameMembers(order, indices);
    forall i | 0 <= i < |order|
      ensures 0 <= order[i] < |indices| && i in order
    {
      assert indices[i] in order && order[i] in indices;
    }
  }

  lemma RankingOrder(w: World, indices: seq<int>, order: seq<int>)
    requires Rankable(w)
    requires |indices| == |w.st.snakes| && forall i :: 0 <= i < |indices| ==> indices[i] == i
    requires order == Sorting.SortBy(RankLess(w.st.snakes, w.deathOrder), indices)
    ensures IsRanking(w, order)
  {
    hide Rankable, Before, Sorting.SortBy, Sorting.WeakOrder, RankLess, Sorting.Ordered, Sorting.NoRepeats;
    var less := RankLess(w.st.snakes, w.deathOrder);
    AllIndices(indices, indices);
    RankLessIsOrder(w, indices);
    Sorting.SortOrdered(less, indices);
    assert Sorting.NoRepeats(indices) by { DifferentEntries(indices); }
    Sorting.SortNoRepeats(less, indices);
    AllIndices(indices, order);
    OrderedIsRanking(w, order);
  }

  lemma DifferentEntries(indices: seq<int>)
    requires forall i :: 0 <= i < |indices| ==> indices[i] == i
    ensures Sorting.NoRepeats(indices)
  {
  }

  lemma OrderedIsRanking(w: World, order: seq<int>)
    requires Rankable(w) && |order| == |w.st.snakes|
    requires Sorting.Ordered(RankLess(w.st.snakes, w.deathOrder), order) && Sorting.NoRepeats(order)
    requires forall k :: 0 <= k < |order| ==> 0 <= order[k] < |w.st.snakes| && k in order
    ensures IsRanking(w, order)
  {
    hide Rankable, Before;
    forall a, b | 0 <= a < b < |order|
      ensures Before(w.st.snakes, w.deathOrder, order[a], order[b])
    {
      assert !RankLess(w.st.snakes, w.deathOrder)(order[b], order[a]);
      BeforeTrichotomy(w, order[a], order[b]);
    }
  }

  lemma PositionOf(order: seq<int>, i: int) returns (a: int)
    requires i in order
    ensures 0 <= a < |order| && order[a] == i
  {
    a :| 0 <= a < |order| && order[a] == i;
  }

  lemma EarlierIsBefore(w: World, order: seq<int>, k: int, i: int)
    requires Rankable(w) && IsRanking(w, order) && 0 <= k < |order|
    requires 0 <= i < |w.st.snakes|
    ensures i in order[..k] <==> Before(w.st.snakes, w.deathOrder, i, order[k])
  {
    hide Rankable, Before;
    var a := PositionOf(order, i);
    BeforeTrichotomy(w, i, order[k]);
    if a < k {
      assert order[..k][a] == i;
    } else {
      assert forall b :: 0 <= b < k ==> order[..k][b] == order[b] != i;
    }
  }

  lemma RankOfPosition(w: World, order: seq<int>, k: int)
    requires Rankable(w) && IsRanking(w, order) && 0 <= k < |order|
    ensures Rank(w.st.snakes, w.deathOrder, order[k]) == k + 1
  {
    var ahead := Sorting.Elements(order[..k]);
    assert Sorting.NoRepeats(order[..k]);
    forall i
      ensures i in ahead <==> i in Better(w.st.snakes, w.deathOrder, order[k])
    {
      if 0 <= i < |w.st.snakes| {
        EarlierIsBefore(w, order, k, i);
      }
    }
    assert ahead == Better(w.st.snakes, w.deathOrder, order[k]);
  }

  /** Numbering every position of a ranking numbers every snake by its rank. */
  lemma NumberedIsPlaced(w: World, order: seq<int>, snakes: seq<Snake>)
    requires IsRanking(w, order) && |snakes| == |w.st.snakes|
    requires forall k :: 0 <= k < |order| ==>
      snakes[order[k]] == w.st.snakes[order[k]].(placement := Rank(w.st.snakes, w.deathOrder, order[k]))
    ensures snakes == Placed(w.st.snakes, w.deathOrder)
  {
    hide Rank, Before;
    forall i | 0 <= i < |snakes|
      ensures snakes[i] == Placed(w.st.snakes, w.deathOrder)[i]
    {
      var k := PositionOf(order, i);
    }
  }

  lemma OccupiedByOneMore(snakes: seq<Snake>, i: int)
    requires 0 <= i < |snakes|
    ensures forall p :: Occupied(snakes[..i + 1], p) <==>
      Occupied(snakes[..i], p) || (snakes[i].alive && p in snakes[i].body)
  {
    var s, t := snakes[..i], snakes[..i + 1];
    assert t[i] == snakes[i] && forall j :: 0 <= j < i ==> t[j] == s[j];
  }

  /** The seats dealt with before the k-th move: up to that mover, or all of them. */
  ghost function Seat(was: State, moves: seq<Move>, k: nat): nat
    requires k <= |moves| && forall j :: 0 <= j < |moves| ==> 0 <= moves[j].idx < |was.snakes|
  {
    if k < |moves| then moves[k].idx else |was.snakes|
  }

  lemma MoversInOrder(was: State, wrap: bool, moves: seq<Move>, k: nat, i: int)
    requires Playable(was, wrap) && moves == Planned(was, wrap, |was.snakes|) && k <= |moves|
    requires Lives(was, i)
    ensures i >= Seat(was, moves, k) || (k > 0 && i <= moves[k - 1].idx)
  {
    hide HeadAfter, Planned, Playable;
    var a := PlannedPosition(was, wrap, |was.snakes|, i);
    if a < k - 1 {
      PlannedInOrder(was, wrap, |was.snakes|, a, k - 1);
    }
    if k < a {
      PlannedInOrder(was, wrap, |was.snakes|, k, a);
    }
  }

  lemma DoomedStep(was: State, wrap: bool, i: nat)
    requires Playable(was, wrap) && Lives(was, i)
    ensures Doomed(was, wrap, i + 1) == Doomed(was, wrap, i) + (if Dies(was, wrap, i) then [i] else [])
  {
    hide Dies, Playable;
  }

  lemma NobodyUntil(was: State, wrap: bool, moves: seq<Move>, k: nat)
    requires Playable(was, wrap) && moves == Planned(was, wrap, |was.snakes|) && k <= |moves|
    ensures forall i :: (k > 0 ==> moves[k - 1].idx < i) && 0 <= i < Seat(was, moves, k) ==> !Lives(was, i)
  {
    forall i | (k > 0 ==> moves[k - 1].idx < i) && 0 <= i < Seat(was, moves, k) && Lives(was, i)
      ensures false
    {
      MoversInOrder(was, wrap, moves, k, i);
    }
  }

  /** One move decides one seat; the seats up to the next mover decide nothing. */
  lemma NextSeat(was: State, wrap: bool, moves: seq<Move>, k: nat)
    requires Playable(was, wrap) && moves == Planned(was, wrap, |was.snakes|) && k < |moves|
    ensures moves[k].idx == Seat(was, moves, k) < Seat(was, moves, k + 1)
    ensures Lives(was, moves[k].idx) && moves[k] == MoveOf(was, wrap, moves[k].idx)
    ensures forall i :: moves[k].idx < i < Seat(was, moves, k + 1) ==> !Lives(was, i)
    ensures Doomed(was, wrap, Seat(was, moves, k + 1))
      == Doomed(was, wrap, Seat(was, moves, k)) + (if Dies(was, wrap, moves[k].idx) then [moves[k].idx] else [])
  {
    hide Dies, HeadAfter, MoveOf, Playable, Planned, Doomed;
    PlannedElement(was, wrap, |was.snakes|, k);
    if k + 1 < |moves| {
      PlannedInOrder(was, wrap, |was.snakes|, k, k + 1);
    }
    NobodyUntil(was, wrap, moves, k + 1);
    DoomedStep(was, wrap, moves[k].idx);
    DoomedSkipsTheDead(was, wrap, moves[k].idx + 1, Seat(was, moves, k + 1));
  }

  lemma FirstSeat(was: State, wrap: bool, moves: seq<Move>)
    requires Playable(was, wrap) && moves == Planned(was, wrap, |was.snakes|)
    ensures forall i :: 0 <= i < Seat(was, moves, 0) ==> !Lives(was, i)
    ensures Doomed(was, wrap, Seat(was, moves, 0)) == []
  {
    hide Dies, HeadAfter, MoveOf, Playable;
    NobodyUntil(was, wrap, moves, 0);
    DoomedSkipsTheDead(was, wrap, 0, Seat(was, moves, 0));
  }

  lemma NoKillersYet(was: State, wrap: bool, n: nat)
    requires Playable(was, wrap) && forall i :: 0 <= i < n ==> !Lives(was, i)
    ensures AreKillers(was, wrap, n, map[])
  {
  }

  lemma KillersStep(was: State, wrap: bool, i: nat, n: nat, killers: map<int, PlayerID>, killers': map<int, PlayerID>)
    requires Playable(was, wrap) && Lives(was, i) && i < n && AreKillers(was, wrap, i, killers)
    requires forall j :: i < j < n ==> !Lives(was, j)
    requires killers' ==
      if Dies(was, wrap, i) && KillerOf(was, wrap, i) >= 0
      then killers[i := was.snakes[KillerOf(was, wrap, i)].id] else killers
    ensures AreKillers(was, wrap, n, killers')
  {
    hide Dies, KillerOf, Playable;
  }

  lemma ArrivalStep(moves: seq<Move>, heads: map<Point, int>, m: Move)
    requires IsArrivalMap(moves, heads)
    ensures IsArrivalMap(moves + [m],
              if m.ok then heads[m.head := (if m.head in heads then heads[m.head] else 0) + 1] else heads)
  {
    assert (moves + [m])[..|moves|] == moves;
  }

  /** What the two maps say about one mover is what the rule says. */
  lemma MoveDecision(
    was: State, wrap: bool, moves: seq<Move>, i: int, solid: map<Point, PlayerID>, heads: map<Point, int>)
    requires Playable(was, wrap) && moves == Planned(was, wrap, |was.snakes|)
    requires IsSolidMap(was.snakes, solid) && IsArrivalMap(moves, heads)
    requires Lives(was, i)
    ensures var m := MoveOf(was, wrap, i);
      && (m.ok ==> m.head in heads)
      && (Dies(was, wrap, i) <==> !m.ok || heads[m.head] > 1 || m.head in solid)
      && (KillerOf(was, wrap, i) >= 0 <==>
            m.ok && heads[m.head] <= 1 && m.head in solid && solid[m.head] != was.snakes[i].id)
      && (KillerOf(was, wrap, i) >= 0 ==> solid[m.head] == was.snakes[KillerOf(was, wrap, i)].id)
  {
    var m := MoveOf(was, wrap, i);
    if m.ok {
      ArrivalsMeanHeadOn(was, wrap, i);
      LastSolidMeansHits(was, wrap, i);
      SomeArrival(moves, m.head);
      var k := PlannedPosition(was, wrap, |was.snakes|, i);
    }
  }
}
