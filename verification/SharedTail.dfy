/** How two living snakes come to share a cell, and a third then dies on it (internal/game/sim.go). */
module SharedTail {
  import opened Types
  import opened Movement
  import opened Soundness
  import opened World
  import opened KillCredit
  import opened Samples
  import Runs

  const THREE := FRIENDLY.(maxPlayers := 3, ticksPerMove := 1)

  /** Ann is about to eat; Ben, coming from below, to step onto the cell her tail is on; and Cy
      follows her in her row. */
  const ANN := Snake(0, [Point(10, 5), Point(9, 5), Point(8, 5)], RIGHT, true, false, 0, 0, 0, 3, -1, 0, UP, false)
  const BEN := Snake(1, [Point(8, 6), Point(8, 7), Point(8, 8)], UP, true, false, 0, 0, 0, 3, -1, 0, UP, false)
  const CY := Snake(2, [Point(6, 5), Point(5, 5), Point(4, 5)], RIGHT, true, false, 0, 0, 0, 3, -1, 0, UP, false)
  const START := World(State(0, [ANN, BEN, CY], [Point(11, 5)], THREE.Arena(), false), [], false)

  lemma SnakesSpawned(i: int)
    requires 0 <= i < 3
    ensures Runs.Spawned(START.st.arena, START.st.snakes[i])
  {
  }

  lemma BodiesDisjoint(i: int, j: int)
    requires 0 <= i < 3 && 0 <= j < 3 && i != j
    ensures Disjoint(START.st.snakes[i].body, START.st.snakes[j].body)
  {
  }

  lemma NobodyOn(snakes: seq<Snake>, p: Point)
    requires |snakes| == 3 && p !in snakes[0].body && p !in snakes[1].body && p !in snakes[2].body
    ensures !Occupied(snakes, p)
  {
  }

  lemma StartIsStarted()
    ensures Runs.Started(THREE, START)
  {
    hide Runs.Spawned, Disjoint, Occupied;
    forall i | 0 <= i < 3
      ensures Runs.Spawned(START.st.arena, START.st.snakes[i])
    {
      SnakesSpawned(i);
    }
    forall i, j | 0 <= i < 3 && 0 <= j < 3 && i != j
      ensures Disjoint(START.st.snakes[i].body, START.st.snakes[j].body)
    {
      BodiesDisjoint(i, j);
    }
    NobodyOn(START.st.snakes, Point(11, 5));
    assert Free(START.st.(food := []), START.st.food[0]);
  }

  // ---- The first move ----

  ghost const FIRST := Ticked(START).st

  lemma FirstHeads()
    ensures Playable(FIRST, true)
    ensures HeadAfter(FIRST, true, 0) == Point(11, 5) && HeadAfter(FIRST, true, 1) == Point(8, 5)
    ensures HeadAfter(FIRST, true, 2) == Point(7, 5)
  {
  }

  lemma FirstSolid(i: int)
    requires 0 <= i < 3
    ensures Point(11, 5) !in SolidCells(FIRST.snakes[i]) && Point(8, 5) !in SolidCells(FIRST.snakes[i])
    ensures Point(7, 5) !in SolidCells(FIRST.snakes[i])
  {
  }

  lemma AllSurvive(i: int)
    requires Playable(FIRST, true) && 0 <= i < 3
    ensures Survives(FIRST, true, i)
  {
    FirstHeads();
    hide HeadAfter, SolidCells;
    FirstSolid(0);
    FirstSolid(1);
    FirstSolid(2);
  }

  lemma AllEaten()
    requires Playable(FIRST, true)
    ensures FoodLeft(FIRST, true, 3, FIRST.food) == []
  {
    FirstHeads();
    AllSurvive(0);
    hide HeadAfter, Survives;
    assert FIRST.food[..0] == [];
    assert FoodLeft(FIRST, true, 3, []) == [];
    assert Eaten(FIRST, true, 3, Point(11, 5));
  }

  /** Ann has grown without leaving the cell Ben's head is on now. */
  lemma AfterFirst()
    ensures Playable(FIRST, true)
    ensures var snakes := Moved(FIRST, true).snakes;
      && Moved(FIRST, true).food == [] && |snakes| == 3
      && snakes[0].body == [Point(11, 5), Point(10, 5), Point(9, 5), Point(8, 5)] && snakes[0].grow == 1
      && snakes[1].body == [Point(8, 5), Point(8, 6), Point(8, 7)]
      && snakes[2].body == [Point(7, 5), Point(6, 5), Point(5, 5)]
      && forall i :: 0 <= i < 3 ==>
           && snakes[i].alive && snakes[i].dir == FIRST.snakes[i].dir && !snakes[i].hasPending
           && snakes[i].id == FIRST.snakes[i].id
  {
    FirstHeads();
    AllEaten();
    AllSurvive(0);
    AllSurvive(1);
    AllSurvive(2);
    hide HeadAfter, Dies, Credits, Doomed, FoodLeft;
  }

  ghost const NEXT := AfterMove(THREE, Ticked(START), [Point(20, 20)])

  lemma NobodyDoomed()
    requires Playable(FIRST, true)
    ensures Doomed(FIRST, true, 3) == []
  {
    hide Dies, Playable;
    AllSurvive(0);
    AllSurvive(1);
    AllSurvive(2);
    assert Doomed(FIRST, true, 0) == [] && Doomed(FIRST, true, 1) == [] && Doomed(FIRST, true, 2) == [];
  }

  lemma NextIs()
    requires Playable(FIRST, true)
    ensures NEXT == World(Moved(FIRST, true).(food := [Point(20, 20)]), [], false)
  {
    AfterFirst();
    NobodyDoomed();
    hide Moved, Doomed, Playable;
    var snakes := Moved(FIRST, true).snakes;
    assert AliveCount(snakes) == 3 by {
      assert AliveCount(snakes[..0]) == 0;
      assert snakes[..1][..0] == snakes[..0] && snakes[..2][..1] == snakes[..1];
      assert AliveCount(snakes[..1]) == 1;
      assert AliveCount(snakes[..2]) == 2;
    }
  }

  lemma NewFood()
    requires Playable(FIRST, true)
    ensures Replenished(Moved(FIRST, true), THREE.foodCount, [Point(20, 20)])
  {
    AfterFirst();
    hide Moved, Playable;
    NobodyOn(Moved(FIRST, true).snakes, Point(20, 20));
    assert Free(Moved(FIRST, true), Point(20, 20));
  }

  /** Two living snakes have p in their bodies. */
  ghost predicate Shared(st: State, p: Point) {
    exists i, j :: i < j && InBoth(st, i, j, p)
  }

  ghost predicate InBoth(st: State, i: int, j: int, p: Point) {
    Lives(st, i) && Lives(st, j) && p in st.snakes[i].body && p in st.snakes[j].body
  }

  lemma NothingShared(p: Point)
    ensures !Shared(START.st, p)
  {
    if i, j :| i < j && InBoth(START.st, i, j, p) {
      BodiesDisjoint(i, j);
      assert false;
    }
  }

  lemma TailShared()
    requires Playable(FIRST, true)
    ensures Shared(NEXT.st, Point(8, 5))
  {
    AfterFirst();
    NextIs();
    hide Moved, Doomed, AfterMove;
    var snakes := NEXT.st.snakes;
    assert snakes[0].body[3] == Point(8, 5) && snakes[1].body[0] == Point(8, 5);
    assert InBoth(NEXT.st, 0, 1, Point(8, 5));
  }

  /** It does happen, in the first move of a match: no two snakes shared a cell, and now two living
      snakes do. */
  lemma TwoCanShareACell()
    ensures Runs.Started(THREE, START) && Stepped(THREE, START, NEXT) && Inv(THREE, NEXT)
    ensures (forall p :: !Shared(START.st, p)) && Shared(NEXT.st, Point(8, 5))
  {
    hide Moved, Doomed, Replenished, Inv, AfterMove, Runs.Started, Shared, Stepped;
    StartIsStarted();
    FirstHeads();
    NextIs();
    NewFood();
    NextIsStepped();
    Runs.StartedIsInv(THREE, START);
    Runs.NextKeepsInv(THREE, START, Stepping, NEXT);
    TailShared();
    forall p
      ensures !Shared(START.st, p)
    {
      NothingShared(p);
    }
  }

  lemma NextIsStepped()
    requires Playable(FIRST, true) && Replenished(Moved(FIRST, true), THREE.foodCount, [Point(20, 20)])
    requires NEXT == World(Moved(FIRST, true).(food := [Point(20, 20)]), [], false)
    ensures Stepped(THREE, START, NEXT)
  {
    hide Moved, Doomed, Replenished;
    assert NEXT.st.food == [Point(20, 20)];
  }

  // ---- The second move ----

  ghost const SECOND := Ticked(NEXT).st

  /** And then it depends on the order the snakes are listed in whose kill the next death is: Cy
      runs onto the shared cell. */
  lemma CreditCanDependOnOrder()
    ensures Inv(THREE, NEXT) && Playable(SECOND, true) && Disputed(SECOND, true, 2)
    ensures !forall st2: State, perm: seq<int>, inv: seq<int> :: Reordered(SECOND, st2, perm, inv) ==>
      Playable(st2, true) && KillsFollow(SECOND, st2, true, perm)
  {
    TwoCanShareACell();
    CyRunsIntoBoth();
    KillsFollowIff(SECOND, true);
  }

  lemma CyRunsIntoBoth()
    ensures Playable(SECOND, true) && DistinctIds(SECOND.snakes) && Disputed(SECOND, true, 2)
  {
    AfterFirst();
    NextIs();
    hide Moved, Doomed;
    var snakes := SECOND.snakes;
    assert HeadAfter(SECOND, true, 0) == Point(12, 5) && HeadAfter(SECOND, true, 1) == Point(8, 4);
    assert HeadAfter(SECOND, true, 2) == Point(8, 5);
    assert snakes[0].body[3] == Point(8, 5) && snakes[1].body[..2][0] == Point(8, 5);
    assert SolidFor(SECOND, 0, Point(8, 5)) && SolidFor(SECOND, 1, Point(8, 5));
  }
}
