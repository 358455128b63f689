/** A head-on between two snakes, one of them longer, and who is placed first (internal/game/sim.go). */
module HeadToHead {
  import opened Types
  import opened Movement
  import opened Soundness
  import opened World
  import opened Bookkeeping
  import opened KillCredit
  import opened DeathOrder
  import opened Samples
  import Runs

  const TWO := FRIENDLY.(ticksPerMove := 1)

  /** Ann is about to eat, and Ben comes the other way in her row. */
  const ANN := Snake(0, [Point(9, 5), Point(8, 5), Point(7, 5)], RIGHT, true, false, 0, 0, 0, 3, -1, 0, UP, false)
  const BEN := Snake(1, [Point(13, 5), Point(14, 5), Point(15, 5)], LEFT, true, false, 0, 0, 0, 3, -1, 0, UP, false)
  const START := World(State(0, [ANN, BEN], [Point(10, 5)], TWO.Arena(), false), [], false)

  lemma BothSpawned(i: int)
    requires 0 <= i < 2
    ensures Runs.Spawned(START.st.arena, START.st.snakes[i])
  {
  }

  lemma BodiesApart(i: int, j: int)
    requires 0 <= i < 2 && 0 <= j < 2 && i != j
    ensures Disjoint(START.st.snakes[i].body, START.st.snakes[j].body)
  {
  }

  lemma NeitherOn(snakes: seq<Snake>, p: Point)
    requires |snakes| == 2 && p !in snakes[0].body && p !in snakes[1].body
    ensures !Occupied(snakes, p)
  {
  }

  lemma StartIsStarted()
    ensures Runs.Started(TWO, START)
  {
    hide Runs.Spawned, Disjoint, Occupied;
    BothSpawned(0);
    BothSpawned(1);
    BodiesApart(0, 1);
    BodiesApart(1, 0);
    NeitherOn(START.st.snakes, Point(10, 5));
    assert Free(START.st.(food := []), START.st.food[0]);
  }

  // ---- The first move: Ann eats ----

  ghost const FIRST := Ticked(START).st

  lemma FirstHeads()
    ensures Playable(FIRST, true)
    ensures HeadAfter(FIRST, true, 0) == Point(10, 5) && HeadAfter(FIRST, true, 1) == Point(12, 5)
  {
  }

  lemma FirstSolid(i: int)
    requires 0 <= i < 2
    ensures Point(10, 5) !in SolidCells(FIRST.snakes[i]) && Point(12, 5) !in SolidCells(FIRST.snakes[i])
  {
  }

  lemma BothSurvive(i: int)
    requires Playable(FIRST, true) && 0 <= i < 2
    ensures Survives(FIRST, true, i)
  {
    FirstHeads();
    hide HeadAfter, SolidCells;
    FirstSolid(0);
    FirstSolid(1);
  }

  lemma AllEaten()
    requires Playable(FIRST, true)
    ensures FoodLeft(FIRST, true, 2, FIRST.food) == []
  {
    FirstHeads();
    BothSurvive(0);
    hide HeadAfter, Survives;
    assert FIRST.food[..0] == [];
    assert FoodLeft(FIRST, true, 2, []) == [];
    assert Eaten(FIRST, true, 2, Point(10, 5));
  }

  lemma AfterFirst()
    ensures Playable(FIRST, true)
    ensures var snakes := Moved(FIRST, true).snakes;
      && Moved(FIRST, true).food == [] && |snakes| == 2
      && snakes[0].body == [Point(10, 5), Point(9, 5), Point(8, 5), Point(7, 5)] && snakes[0].maxLength == 4
      && snakes[1].body == [Point(12, 5), Point(13, 5), Point(14, 5)] && snakes[1].maxLength == 3
      && forall i :: 0 <= i < 2 ==>
           && snakes[i].alive && snakes[i].dir == FIRST.snakes[i].dir && !snakes[i].hasPending
           && snakes[i].id == FIRST.snakes[i].id
  {
    FirstHeads();
    AllEaten();
    BothSurvive(0);
    BothSurvive(1);
    hide HeadAfter, Dies, Credits, Doomed, FoodLeft;
  }

  ghost const NEXT := AfterMove(TWO, Ticked(START), [Point(20, 20)])

  lemma NobodyDoomed()
    requires Playable(FIRST, true)
    ensures Doomed(FIRST, true, 2) == []
  {
    hide Dies, Playable;
    BothSurvive(0);
    BothSurvive(1);
    assert Doomed(FIRST, true, 0) == [] && Doomed(FIRST, true, 1) == [];
  }

  lemma NextIs()
    requires Playable(FIRST, true)
    ensures NEXT == World(Moved(FIRST, true).(food := [Point(20, 20)]), [], false)
  {
    AfterFirst();
    NobodyDoomed();
    hide Moved, Doomed, Playable;
    var snakes := Moved(FIRST, true).snakes;
    assert AliveCount(snakes) == 2 by {
      assert AliveCount(snakes[..0]) == 0;
      assert snakes[..1][..0] == snakes[..0];
      assert AliveCount(snakes[..1]) == 1;
    }
  }

  lemma NewFood()
    requires Playable(FIRST, true)
    ensures Replenished(Moved(FIRST, true), TWO.foodCount, [Point(20, 20)])
  {
    AfterFirst();
    hide Moved, Playable;
    NeitherOn(Moved(FIRST, true).snakes, Point(20, 20));
    assert Free(Moved(FIRST, true), Point(20, 20));
  }

  lemma NextIsStepped()
    ensures Playable(FIRST, true) && Stepped(TWO, START, NEXT)
  {
    FirstHeads();
    NextIs();
    NewFood();
    hide Moved, Doomed, Replenished;
    assert NEXT.st.food == [Point(20, 20)];
  }

  // ---- The second move: they meet ----

  ghost const MET := Ticked(NEXT)

  lemma TheyMeet()
    ensures Playable(MET.st, true) && |MET.st.snakes| == 2 && Rankable(MET) && !MET.finished && !NEXT.st.over
    ensures MET.st.tick == 2 && MET.st.food == [Point(20, 20)]
    ensures MET.st.snakes[0].id == 0 && MET.st.snakes[0].maxLength == 4
    ensures MET.st.snakes[1].id == 1 && MET.st.snakes[1].maxLength == 3
    ensures Lives(MET.st, 0) && Lives(MET.st, 1)
    ensures HeadAfter(MET.st, true, 0) == HeadAfter(MET.st, true, 1) == Point(11, 5)
    ensures Dies(MET.st, true, 0) && Dies(MET.st, true, 1)
  {
    AfterFirst();
    NextIs();
    hide Moved, Doomed;
    assert HeadAfter(MET.st, true, 0) == Point(11, 5) && HeadAfter(MET.st, true, 1) == Point(11, 5);
    hide HeadAfter;
    assert HeadOn(MET.st, true, 0) && HeadOn(MET.st, true, 1);
  }

  ghost const LAST := AfterMove(TWO, MET, [Point(20, 20)])

  lemma NothingEaten()
    requires Playable(MET.st, true)
    ensures FoodLeft(MET.st, true, 2, [Point(20, 20)]) == [Point(20, 20)]
  {
    TheyMeet();
    hide HeadAfter, Dies, Playable;
    var food := [Point(20, 20)];
    assert food[..0] == [];
    assert FoodLeft(MET.st, true, 2, []) == [];
    assert !Eaten(MET.st, true, 2, Point(20, 20));
  }

  lemma NobodyIsLeftOf(w: World, food: seq<Point>)
    requires Playable(w.st, true) && |w.st.snakes| == 2 && !w.finished
    requires Lives(w.st, 0) && Dies(w.st, true, 0) && Lives(w.st, 1) && Dies(w.st, true, 1)
    ensures AfterMove(TWO, w, food).finished
  {
    BuriedDied(TWO, w, food);
    DoomedAreTheDying(w.st, true, 2, 0);
    DoomedAreTheDying(w.st, true, 2, 1);
    hide AfterMove, Buried, Dies, Playable, Doomed, CheckedOver, Died;
    var w' := Buried(TWO, w, food);
    DiedIds(w, w', Doomed(w.st, true, 2), 0);
    DiedIds(w, w', Doomed(w.st, true, 2), 1);
    NoneAlive(w'.st.snakes);
    ClosedIff(w');
  }

  lemma NobodyIsLeft(food: seq<Point>)
    requires Playable(MET.st, true)
    ensures AfterMove(TWO, MET, food).finished
  {
    hide AfterMove, Dies, Playable, HeadAfter;
    TheyMeet();
    NobodyIsLeftOf(MET, food);
  }

  lemma NoneAlive(snakes: seq<Snake>)
    requires |snakes| == 2 && !snakes[0].alive && !snakes[1].alive
    ensures Decided(snakes)
  {
    assert AliveCount(snakes[..0]) == 0;
    assert snakes[..1][..0] == snakes[..0];
    assert AliveCount(snakes[..1]) == 0;
  }

  lemma LastIsStepped()
    ensures Playable(MET.st, true) && Stepped(TWO, NEXT, LAST)
  {
    TheyMeet();
    NothingEaten();
    hide HeadAfter, Dies, Playable, Doomed, FoodLeft, NEXT;
    assert Moved(MET.st, true).food == [Point(20, 20)];
    assert LAST.st.food == [Point(20, 20)];
  }

  // ---- Who wins ----

  lemma TheDeadKeep(cfg: Config, w: World, food: seq<Point>, i: int)
    requires Playable(w.st, cfg.wrap) && Lives(w.st, i) && Dies(w.st, cfg.wrap, i)
    ensures var end := AfterMove(cfg, w, food);
      && |end.st.snakes| == |w.st.snakes| && end.st.snakes[i].id == w.st.snakes[i].id
      && end.st.snakes[i].maxLength == w.st.snakes[i].maxLength && !end.st.snakes[i].alive
  {
    hide Dies, Doomed, Credits, HeadAfter, Rank;
  }

  /** It does happen, in the second move of a match of two: they meet head to head, and the longer
      of them is placed second because it has the lower seat. */
  lemma LongerLosesHeadOn()
    ensures Runs.Started(TWO, START) && Stepped(TWO, START, NEXT) && Stepped(TWO, NEXT, LAST)
    ensures Playable(MET.st, true) && |MET.st.snakes| == 2
      && Lives(MET.st, 0) && Lives(MET.st, 1) && HeadAfter(MET.st, true, 0) == HeadAfter(MET.st, true, 1)
    ensures LAST.finished && |LAST.st.snakes| == 2
      && LAST.st.snakes[0].maxLength == 4 && LAST.st.snakes[0].placement == 2
      && LAST.st.snakes[1].maxLength == 3 && LAST.st.snakes[1].placement == 1
  {
    hide Moved, Doomed, Replenished, Inv, AfterMove, Runs.Started, Stepped, Dies, HeadAfter, Playable, Rankable;
    hide NEXT, FIRST;
    StartIsStarted();
    NextIsStepped();
    LastIsStepped();
    TheyMeet();
    var food := [Point(20, 20)];
    NobodyIsLeft(food);
    Runs.StartedIsInv(TWO, START);
    Runs.NextKeepsInv(TWO, START, Stepping, NEXT);
    Runs.NextKeepsInv(TWO, NEXT, Stepping, LAST);
    TheDeadKeep(TWO, MET, food, 0);
    TheDeadKeep(TWO, MET, food, 1);
    LaterSeatPlacesBetter(TWO, MET, food, 0, 1);
    BothPlaced(LAST);
  }

  lemma BothPlaced(w: World)
    requires Inv(TWO, w) && w.finished && |w.st.snakes| == 2
    ensures 1 <= w.st.snakes[0].placement <= 2 && 1 <= w.st.snakes[1].placement <= 2
  {
    PlacementsRankEverybody(w, 0, 1);
    PlacementsRankEverybody(w, 1, 0);
  }

  /** Had the two been listed the other way round, the other would have won. */
  lemma SwapSwapsWinner(food: seq<Point>)
    ensures Playable(MET.st, true) && |MET.st.snakes| == 2 && Playable(Swapped(MET.st, 0, 1), true)
    ensures var end := AfterMove(TWO, MET.(st := Swapped(MET.st, 0, 1)), food);
      && end.finished && |end.st.snakes| == 2 && end.st.snakes[1].id == 0 && end.st.snakes[0].id == 1
      && end.st.snakes[1].placement < end.st.snakes[0].placement
  {
    hide AfterMove, Dies, HeadAfter, Playable, Rankable, NEXT, Doomed, Moved, Buried, DeathIndex;
    TheyMeet();
    SwapSwapsDeaths(TWO, MET, food, 0, 1);
    SwappedRankable(MET, 0, 1);
    var w := MET.(st := Swapped(MET.st, 0, 1));
    NobodyIsLeftOf(w, food);
    TheDeadKeep(TWO, w, food, 0);
    TheDeadKeep(TWO, w, food, 1);
    LaterSeatPlacesBetter(TWO, w, food, 0, 1);
  }
}
