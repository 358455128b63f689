/**
 The simulation as the source runs it: one object updated in place by a sequence of loops.
 Each method is proved against the transition it stands for in `World`.
 */
module Simulation {
  import opened Types
  import opened Movement
  import opened Soundness
  import opened World
  import opened Bookkeeping
  import opened MoveLoops
  import opened Runs
  import Sorting
  import Spawn

  method CountAlive(snakes: seq<Snake>) returns (n: nat)
    ensures n == AliveCount(snakes)
  {
    n := 0;
    for i := 0 to |snakes|
      invariant n == AliveCount(snakes[..i])
    {
      assert snakes[..i + 1][..i] == snakes[..i];
      if snakes[i].alive {
        n := n + 1;
      }
    }
    assert snakes[..|snakes|] == snakes;
  }

  method SolidMap(snakes: seq<Snake>) returns (solid: map<Point, PlayerID>)
    ensures IsSolidMap(snakes, solid)
  {
    solid := map[];
    for i := 0 to |snakes|
      invariant IsSolidMap(snakes[..i], solid)
    {
      var sn := snakes[i];
      assert snakes[..i + 1][..i] == snakes[..i];
      if sn.alive {
        var last := |sn.body| - 1;
        ghost var before := solid;
        ghost var limit := if sn.grow == 0 && |sn.body| > 0 then last else |sn.body|;
        for j := 0 to |sn.body|
          invariant forall p :: p in solid <==> p in before || p in sn.body[..if j < limit then j else limit]
          invariant forall p :: p in solid ==>
            solid[p] == if p in sn.body[..if j < limit then j else limit] then sn.id else before[p]
        {
          if !(j == last && sn.grow == 0) {
            assert sn.body[..j + 1] == sn.body[..j] + [sn.body[j]];
            solid := solid[sn.body[j] := sn.id];
          }
        }
        assert SolidCells(sn) == sn.body[..limit];
      }
    }
    assert snakes[..|snakes|] == snakes;
  }

  /** A tick on which nobody moves, and the clock at the start of one on which they do. */
  lemma StepKeepsValid(cfg: Config, w: World)
    requires Inv(cfg, w)
    ensures cfg.Valid() && Inv(cfg, Ticked(w))
    ensures !MovesNow(cfg, w) ==> Stepped(cfg, w, Ticked(w))
  {
    hide Ledger, Sound;
    TickKeepsLedger(w);
    TickedIsSound(cfg, w);
    assert cfg.Valid() by { SoundMeansValid(cfg, w.st); }
  }

  lemma SoundMeansValid(cfg: Config, st: State)
    requires Sound(cfg, st)
    ensures cfg.Valid()
  {
  }

  /** A move followed by `checkOver` is a tick on which the snakes move. */
  lemma MoveIsStep(cfg: Config, w: World, mid: World)
    requires Inv(cfg, w) && cfg.Valid() && MovesNow(cfg, w) && Playable(Ticked(w).st, cfg.wrap)
    requires mid.st == Moved(Ticked(w).st, cfg.wrap).(food := mid.st.food)
    requires Replenished(Moved(Ticked(w).st, cfg.wrap), cfg.foodCount, mid.st.food)
    requires mid.finished == w.finished
    requires mid.deathOrder
      == w.deathOrder + IdsOf(w.st.snakes, Doomed(Ticked(w).st, cfg.wrap, |w.st.snakes|))
    ensures SortedIds(mid.st.snakes) && DeathsOk(mid)
    ensures Stepped(cfg, w, CheckedOver(mid)) && Inv(cfg, CheckedOver(mid))
  {
    hide Moved, Replenished, Playable, Doomed, Books, Sound, DeathsOk;
    TickKeepsLedger(w);
    OverIsFinished(w);
    MoveKeepsBooks(Ticked(w), mid, cfg.wrap);
    BooksInclude(mid);
    assert mid == World(Moved(Ticked(w).st, cfg.wrap).(food := mid.st.food), mid.deathOrder, w.finished);
    NextKeepsInv(cfg, w, Stepping, CheckedOver(mid));
  }

  lemma BooksInclude(w: World)
    requires Books(w)
    ensures SortedIds(w.st.snakes) && DeathsOk(w)
  {
  }

  function Clamp(v: int, lo: int, hi: int): int {
    if v < lo then lo else if v > hi then hi else v
  }

  ghost predicate PairwiseDisjoint(snakes: seq<Snake>) {
    forall i, j :: 0 <= i < |snakes| && 0 <= j < |snakes| && i != j ==> Disjoint(snakes[i].body, snakes[j].body)
  }

  lemma NothingOverlaps()
    ensures PairwiseDisjoint([])
  {
  }

  lemma AppendDisjoint(snakes: seq<Snake>, sn: Snake)
    requires PairwiseDisjoint(snakes) && !Spawn.Overlaps(snakes, sn.body)
    ensures PairwiseDisjoint(snakes + [sn])
  {
    forall i, a, b | 0 <= i < |snakes| && 0 <= a < |snakes[i].body| && 0 <= b < |sn.body|
      ensures snakes[i].body[a] != sn.body[b]
    {
      assert sn.body[b] in sn.body && (sn.body[b] in snakes[i].body ==> Spawn.Overlaps(snakes, sn.body));
    }
  }

  lemma NewIsStarted(cfg: Config, spawned: State, w: World)
    requires cfg.Valid() && |spawned.snakes| > 0 && SortedIds(spawned.snakes) && PairwiseDisjoint(spawned.snakes)
    requires forall k :: 0 <= k < |spawned.snakes| ==> Spawned(cfg.Arena(), spawned.snakes[k])
    requires spawned == State(0, spawned.snakes, [], cfg.Arena(), false)
    requires w == World(spawned.(food := w.st.food), [], false) && Replenished(spawned, cfg.foodCount, w.st.food)
    ensures Started(cfg, w) && Inv(cfg, w)
  {
    hide Spawned, Inv, Replenished;
    StartedIsInv(cfg, w);
  }

  lemma SpawnedLength(arena: Rect, sn: Snake)
    requires Spawned(arena, sn)
    ensures |sn.body| == START_LENGTH
  {
  }

  /** Flipping a heading whose trail would leave the arena always helps. */
  lemma RingFits(cfg: Config, head: Point, heading: Direction, dir: Direction)
    requires cfg.Valid() && heading <= LEFT && Spawn.Interior(cfg.Arena(), head)
    requires dir == if cfg.Arena().Contains(Spawn.Trail(head, heading)[2]) then heading else Opposite(heading)
    ensures Spawn.Trail(head, dir) == [
      head, Point(head.x + Delta(Opposite(dir)).x, head.y + Delta(Opposite(dir)).y),
      Point(head.x + 2 * Delta(Opposite(dir)).x, head.y + 2 * Delta(Opposite(dir)).y)]
    ensures forall k :: 0 <= k < START_LENGTH ==> cfg.Arena().Contains(Spawn.Trail(head, dir)[k])
  {
    TrailIs(head, heading);
    TrailIs(head, dir);
    hide Spawn.Trail;
    var a, v, back := cfg.Arena(), Delta(Opposite(heading)), Delta(Opposite(dir));
    assert a.Contains(head) && a.Contains(Point(head.x + back.x, head.y + back.y));
    assert dir != heading ==> back.x == -v.x && back.y == -v.y;
    assert a.Contains(Point(head.x + 2 * back.x, head.y + 2 * back.y));
  }

  lemma TrailIs(head: Point, dir: Direction)
    ensures var back := Delta(Opposite(dir));
      Spawn.Trail(head, dir)
      == [head, Point(head.x + back.x, head.y + back.y), Point(head.x + 2 * back.x, head.y + 2 * back.y)]
  {
  }

  lemma TrailIsSpawned(cfg: Config, id: PlayerID, head: Point, dir: Direction)
    requires cfg.Valid() && dir <= LEFT
    requires forall k :: 0 <= k < START_LENGTH ==> cfg.Arena().Contains(Spawn.Trail(head, dir)[k])
    ensures Spawned(cfg.Arena(),
      Snake(id, Spawn.Trail(head, dir), dir, true, false, 0, 0, 0, START_LENGTH, -1, 0, UP, false))
  {
  }

  ghost predicate RoomToSpawn(snakes: seq<Snake>) {
    |snakes| < MAX_PLAYERS && forall i :: 0 <= i < |snakes| ==> |snakes[i].body| == START_LENGTH
  }

  lemma RoomForAnother(cfg: Config, snakes: seq<Snake>, dir: Direction)
    requires cfg.Valid() && dir <= LEFT
    requires forall p :: Spawn.Interior(cfg.Arena(), p) ==> !Spawn.Clear(cfg.Arena(), snakes, p, dir)
    ensures !RoomToSpawn(snakes)
  {
    if RoomToSpawn(snakes) {
      Spawn.ClearRunExists(cfg, snakes, dir);
    }
  }

  lemma SeatsSeated(seats: seq<PlayerID>, ordered: seq<PlayerID>, snakes: seq<Snake>)
    requires ordered == Sorting.SortBy((i: PlayerID, j: PlayerID) => i < j, seats)
    requires |snakes| == |ordered| && forall k :: 0 <= k < |snakes| ==> snakes[k].id == ordered[k]
    ensures Sorting.NoRepeats(seats) ==> SortedIds(snakes)
    ensures forall id :: id in seats <==> SnakeIndex(snakes, id) >= 0
  {
    var less := (i: PlayerID, j: PlayerID) => i < j;
    Sorting.SortOrdered(less, seats);
    Sorting.SameMembers(seats, ordered);
    if Sorting.NoRepeats(seats) {
      Sorting.SortNoRepeats(less, seats);
      forall i, j | 0 <= i < j < |snakes|
        ensures snakes[i].id < snakes[j].id
      {
        assert !less(ordered[j], ordered[i]) && ordered[i] != ordered[j];
      }
    }
    forall id
      ensures id in seats <==> SnakeIndex(snakes, id) >= 0
    {
      if id in seats {
        var k :| 0 <= k < |ordered| && ordered[k] == id;
        assert snakes[k].id == id;
      }
    }
  }

  class Sim {
    const cfg: Config
    var state: State
    /** Order of elimination, earliest first. */
    var deathOrder: seq<PlayerID>
    var finished: bool

    ghost function View(): World
      reads this
    {
      World(state, deathOrder, finished)
    }

    ghost predicate Valid()
      reads this
    {
      Inv(cfg, View())
    }

    constructor Empty(cfg: Config)
      ensures this.cfg == cfg && View() == World(State(0, [], [], cfg.Arena(), false), [], false)
    {
      this.cfg := cfg;
      state := State(0, [], [], cfg.Arena(), false);
      deathOrder := [];
      finished := false;
    }

    // ---- Input ----

    method SetDirection(id: PlayerID, d: Direction)
      modifies this`state
      ensures View() == Steer(old(View()), id, d)
      ensures old(Valid()) ==> Valid()
    {
      hide Inv;
      if Valid() {
        SteerKeepsInv(cfg, View(), id, d);
      }
      var k := FindSnake(state.snakes, id);
      assert k >= 0 ==> state.snakes[k := state.snakes[k]] == state.snakes;
      if k < 0 || !state.snakes[k].alive || state.snakes[k].coasting {
        return;
      }
      var sn := state.snakes[k];
      if d > LEFT {
        return;
      }
      if |sn.body| > 1 && d == Opposite(sn.dir) {
        return;
      }
      state := state.(snakes := state.snakes[k := sn.(pending := d, hasPending := true)]);
    }

    method SetCoasting(id: PlayerID, coasting: bool)
      modifies this`state
      ensures View() == Coast(old(View()), id, coasting)
      ensures old(Valid()) ==> Valid()
    {
      hide Inv;
      if Valid() {
        CoastKeepsInv(cfg, View(), id, coasting);
      }
      var k := FindSnake(state.snakes, id);
      assert k >= 0 ==> state.snakes[k := state.snakes[k]] == state.snakes;
      if k >= 0 {
        var sn := state.snakes[k].(coasting := coasting);
        if coasting {
          sn := sn.(hasPending := false);
        }
        state := state.(snakes := state.snakes[k := sn]);
      }
    }

    /** `kill`. */
    method Kill(k: int)
      requires 0 <= k < |state.snakes|
      modifies this`state, this`deathOrder
      ensures View() == if old(state.snakes[k].alive) then Killed(old(View()), k) else old(View())
    {
      var sn := state.snakes[k];
      if !sn.alive {
        return;
      }
      state := state.(snakes := state.snakes[k := sn.(alive := false, diedAtTick := state.tick)]);
      deathOrder := deathOrder + [sn.id];
    }

    method Eliminate(id: PlayerID)
      requires Valid()
      modifies this`state, this`deathOrder, this`finished
      ensures View() == Eliminated(old(View()), id)
      ensures Valid()
    {
      EliminationKeepsInv(cfg, View(), id);
      var k := FindSnake(state.snakes, id);
      if k < 0 || !state.snakes[k].alive {
        return;
      }
      KillKeepsBooks(View(), k);
      Kill(k);
      CheckOver();
    }

    // ---- The end of a match ----

    method CheckOver()
      requires SortedIds(state.snakes) && DeathsOk(View())
      modifies this`state, this`finished
      ensures View() == CheckedOver(old(View()))
    {
      if finished {
        return;
      }
      var alive := CountAlive(state.snakes);
      var total := |state.snakes|;
      if (total > 1 && alive > 1) || (total == 1 && alive > 0) {
        return;
      }
      finished := true;
      state := state.(over := true);
      AssignPlacements();
    }

    method AssignPlacements()
      requires SortedIds(state.snakes) && DeathsOk(View())
      modifies this`state
      ensures state == old(state).(snakes := Placed(old(state.snakes), deathOrder))
    {
      hide DeathsOk, Rank, Before, Rankable;
      ghost var was := View();
      BookedIsRankable(was);
      var snakes, n := state.snakes, |state.snakes|;
      var indices := seq(n, i => i);
      var order := Sorting.SortBy(RankLess(snakes, deathOrder), indices);
      RankingOrder(was, indices, order);
      for place := 0 to n
        invariant state == old(state) && |snakes| == n
        invariant forall k :: 0 <= k < place ==>
          snakes[order[k]] == was.st.snakes[order[k]].(placement := Rank(was.st.snakes, deathOrder, order[k]))
        invariant forall k :: place <= k < n ==> snakes[order[k]] == was.st.snakes[order[k]]
      {
        RankOfPosition(was, order, place);
        snakes := snakes[order[place] := snakes[order[place]].(placement := place + 1)];
      }
      NumberedIsPlaced(was, order, snakes);
      state := state.(snakes := snakes);
    }

    // ---- Food ----

    /** Removes the first pellet at p. */
    method EatAt(p: Point) returns (ate: bool)
      modifies this`state
      ensures ate == (p in old(state).food)
      ensures state == old(state).(food := WithoutFirst(old(state).food, p))
    {
      var food := state.food;
      for i := 0 to |food|
        invariant state == old(state)
        invariant p !in food[..i]
      {
        if food[i] == p {
          WithoutFirstAt(food, i, p);
          state := state.(food := food[..i] + food[i + 1..]);
          return true;
        }
      }
      return false;
    }

    /** A random unoccupied cell, found by sampling or, failing that, by scanning: no cell is
        reported only when there is none. The generator is any choice at all. */
    method FreeCell() returns (p: Point, ok: bool)
      requires state.arena.Width() > 0 && state.arena.Height() > 0
      ensures ok ==> Free(state, p)
      ensures !ok ==> forall q :: !Free(state, q)
    {
      var a := state.arena;
      var occupied := OccupiedCells();
      for attempt := 0 to 64 {
        var x: int :| a.x0 <= x <= a.x1;
        var y: int :| a.y0 <= y <= a.y1;
        p := Point(x, y);
        if p !in occupied {
          return p, true;
        }
      }
      var free: seq<Point> := [];
      for y := a.y0 to a.y1 + 1
        invariant forall q :: q in free ==> Free(state, q)
        invariant forall q :: Free(state, q) && q.y < y ==> q in free
      {
        for x := a.x0 to a.x1 + 1
          invariant forall q :: q in free ==> Free(state, q)
          invariant forall q :: Free(state, q) && (q.y < y || (q.y == y && q.x < x)) ==> q in free
        {
          if Point(x, y) !in occupied {
            free := free + [Point(x, y)];
          }
        }
      }
      if |free| == 0 {
        return Point(0, 0), false;
      }
      var i: int :| 0 <= i < |free|;
      return free[i], true;
    }

    method OccupiedCells() returns (cells: set<Point>)
      ensures forall p :: p in cells <==> Occupied(state.snakes, p) || p in state.food
    {
      cells := {};
      for i := 0 to |state.snakes|
        invariant forall p :: p in cells <==> Occupied(state.snakes[..i], p)
      {
        ghost var before := cells;
        if state.snakes[i].alive {
          var body := state.snakes[i].body;
          for j := 0 to |body|
            invariant forall p :: p in cells <==> p in before || p in body[..j]
          {
            cells := cells + {body[j]};
          }
        }
        OccupiedByOneMore(state.snakes, i);
      }
      assert state.snakes[..|state.snakes|] == state.snakes;
      ghost var bodies := cells;
      for i := 0 to |state.food|
        invariant forall p :: p in cells <==> p in bodies || p in state.food[..i]
      {
        cells := cells + {state.food[i]};
      }
    }

    /** Tops the arena up to the configured count, or as far as there is room. */
    method ReplenishFood()
      requires state.arena.Width() > 0 && state.arena.Height() > 0
      modifies this`state
      ensures state == old(state).(food := state.food)
      ensures Replenished(old(state), cfg.foodCount, state.food)
    {
      ghost var was := state;
      while |state.food| < cfg.foodCount
        invariant state == was.(food := state.food)
        invariant |was.food| <= |state.food| && state.food[..|was.food|] == was.food
        invariant |state.food| > |was.food| ==> |state.food| <= cfg.foodCount
        invariant forall k :: |was.food| <= k < |state.food| ==>
          Free(was, state.food[k]) && state.food[k] !in state.food[..k]
        decreases cfg.foodCount - |state.food|
      {
        var p, ok := FreeCell();
        if !ok {
          assert forall q :: Free(was, q) && q !in state.food ==> Free(state, q);
          return;
        }
        assert forall q :: q in was.food ==> q in state.food[..|was.food|];
        state := state.(food := state.food + [p]);
      }
    }

    // ---- One move ----

    /** The cell a snake is heading for, and whether it lies in the arena. */
    method HeadingFor(sn: Snake) returns (h: Point, ok: bool)
      requires |sn.body| > 0 && (cfg.wrap ==> state.arena.Width() > 0 && state.arena.Height() > 0)
      ensures h == Ahead(state.arena, cfg.wrap, sn.body[0], sn.dir) && ok == state.arena.Contains(h)
    {
      var d := Delta(sn.dir);
      h, ok := Point(sn.body[0].x + d.x, sn.body[0].y + d.y), true;
      if !state.arena.Contains(h) {
        if cfg.wrap {
          h := WrapInto(h, state.arena);
        } else {
          ok := false;
        }
      }
    }

    /** Every living snake takes up its queued heading and announces where it will be. */
    method PlanMoves() returns (moves: seq<Move>, heads: map<Point, int>)
      requires Playable(state, cfg.wrap)
      modifies this`state
      ensures AllTurned(old(state), state)
      ensures moves == Planned(old(state), cfg.wrap, |old(state).snakes|)
      ensures IsArrivalMap(moves, heads)
    {
      hide Ahead, IsArrivalMap, Playable, Planned, TurnedUpTo;
      ghost var was := state;
      NothingPlanned(was, cfg.wrap);
      moves, heads := [], map[];
      for i := 0 to |state.snakes|
        invariant |state.snakes| == |was.snakes| && TurnedUpTo(was, state, i)
        invariant moves == Planned(was, cfg.wrap, i)
        invariant IsArrivalMap(moves, heads)
      {
        var sn := state.snakes[i];
        PlanStep(was, cfg.wrap, state, i);
        if sn.alive {
          if sn.hasPending {
            sn := sn.(dir := sn.pending, hasPending := false);
          }
          state := state.(snakes := state.snakes[i := sn]);
          var h, ok := HeadingFor(sn);
          ArrivalStep(moves, heads, Move(i, h, ok));
          moves := moves + [Move(i, h, ok)];
          if ok {
            heads := heads[h := (if h in heads then heads[h] else 0) + 1];
          }
        }
      }
    }

    /** Decides every death against the pre-move world. */
    method ResolveDeaths(ghost was: State, moves: seq<Move>, solid: map<Point, PlayerID>, heads: map<Point, int>)
      returns (doomed: seq<int>, killers: map<int, PlayerID>)
      requires Playable(was, cfg.wrap) && AllTurned(was, state)
      requires moves == Planned(was, cfg.wrap, |was.snakes|)
      requires IsSolidMap(was.snakes, solid) && IsArrivalMap(moves, heads)
      ensures doomed == Doomed(was, cfg.wrap, |was.snakes|)
      ensures AreKillers(was, cfg.wrap, |was.snakes|, killers)
    {
      hide Dies, KillerOf, IsSolidMap, IsArrivalMap, AreKillers;
      doomed, killers := [], map[];
      FirstSeat(was, cfg.wrap, moves);
      NoKillersYet(was, cfg.wrap, Seat(was, moves, 0));
      for k := 0 to |moves|
        invariant doomed == Doomed(was, cfg.wrap, Seat(was, moves, k))
        invariant AreKillers(was, cfg.wrap, Seat(was, moves, k), killers)
      {
        var m := moves[k];
        ghost var before := killers;
        NextSeat(was, cfg.wrap, moves, k);
        MoveDecision(was, cfg.wrap, moves, m.idx, solid, heads);
        if !m.ok {
          doomed := doomed + [m.idx];
        } else if heads[m.head] > 1 {
          doomed := doomed + [m.idx];
        } else if m.head in solid {
          var owner := solid[m.head];
          doomed := doomed + [m.idx];
          if owner != state.snakes[m.idx].id {
            killers := killers[m.idx := owner];
          }
        }
        KillersStep(was, cfg.wrap, m.idx, Seat(was, moves, k + 1), before, killers);
      }
    }

    /** Survivors move and eat, in seat order. */
    method MoveSurvivors(ghost was: State, moves: seq<Move>, dead: set<int>)
      requires Playable(was, cfg.wrap) && AllTurned(was, state) && DistinctCells(was.food)
      requires moves == Planned(was, cfg.wrap, |was.snakes|)
      requires forall i :: i in dead <==> Lives(was, i) && Dies(was, cfg.wrap, i)
      modifies this`state
      ensures MovedUpTo(was, cfg.wrap, state, |was.snakes|)
    {
      hide Dies, Grown, Outcome, AllTurned, MovedUpTo, WithoutFirst, Playable, DistinctCells, HeadAfter, Planned;
      NobodyMoved(was, cfg.wrap, state);
      FirstSeat(was, cfg.wrap, moves);
      SkipTheDead(was, cfg.wrap, state, 0, Seat(was, moves, 0));
      for k := 0 to |moves|
        invariant MovedUpTo(was, cfg.wrap, state, Seat(was, moves, k))
      {
        var m := moves[k];
        NextSeat(was, cfg.wrap, moves, k);
        if m.idx !in dead {
          MoveOne(was, m);
          SkipTheDead(was, cfg.wrap, state, m.idx + 1, Seat(was, moves, k + 1));
        } else {
          SkipTheDead(was, cfg.wrap, state, m.idx, Seat(was, moves, k + 1));
        }
      }
    }

    method MoveOne(ghost was: State, m: Move)
      requires Playable(was, cfg.wrap) && DistinctCells(was.food)
      requires Survives(was, cfg.wrap, m.idx) && m.head == HeadAfter(was, cfg.wrap, m.idx)
      requires MovedUpTo(was, cfg.wrap, state, m.idx)
      modifies this`state
      ensures MovedUpTo(was, cfg.wrap, state, m.idx + 1)
    {
      hide Dies, Grown, Outcome, MovedUpTo, WithoutFirst, Playable, DistinctCells, HeadAfter;
      MoveStep(was, cfg.wrap, state, m.idx);
      var ate := EatAt(m.head);
      var sn := Advanced(state.snakes[m.idx], m.head, ate);
      state := state.(snakes := state.snakes[m.idx := sn]);
    }

    /** The body of the loop over survivors, on one snake. */
    static method Advanced(was: Snake, head: Point, ate: bool) returns (sn: Snake)
      requires |was.body| > 0
      ensures sn == Grown(was, head, ate)
    {
      sn := was.(body := [head] + was.body);
      if ate {
        sn := sn.(grow := sn.grow + 2, score := sn.score + 1);
      }
      if sn.grow > 0 {
        sn := sn.(grow := sn.grow - 1);
      } else {
        sn := sn.(body := sn.body[..|sn.body| - 1]);
        assert sn.body == [head] + was.body[..|was.body| - 1];
      }
      if |sn.body| > sn.maxLength {
        sn := sn.(maxLength := |sn.body|);
      }
    }

    /** The doomed die in seat order, and whoever they ran into is credited. */
    method BuryDoomed(ghost was: State, doomed: seq<int>, killers: map<int, PlayerID>)
      requires Playable(was, cfg.wrap) && SortedIds(was.snakes)
      requires MovedUpTo(was, cfg.wrap, state, |was.snakes|)
      requires doomed == Doomed(was, cfg.wrap, |was.snakes|)
      requires AreKillers(was, cfg.wrap, |was.snakes|, killers)
      modifies this`state, this`deathOrder
      ensures state == Moved(was, cfg.wrap)
      ensures deathOrder == old(deathOrder) + IdsOf(was.snakes, doomed)
    {
      hide Dies, Outcome, BuriedUpTo, AreKillers, KillerOf, MovedUpTo, Moved, Playable, Doomed, SortedIds;
      NobodyBuried(was, cfg.wrap, state, doomed);
      for k := 0 to |doomed|
        invariant BuriedUpTo(was, cfg.wrap, state, doomed, k)
        invariant deathOrder == old(deathOrder) + IdsOf(was.snakes, doomed)[..k]
      {
        Bury(was, doomed, k, killers);
      }
      AllBuried(was, cfg.wrap, state, doomed);
    }

    method Bury(ghost was: State, doomed: seq<int>, k: nat, killers: map<int, PlayerID>)
      requires Playable(was, cfg.wrap) && SortedIds(was.snakes)
      requires doomed == Doomed(was, cfg.wrap, |was.snakes|) && k < |doomed|
      requires AreKillers(was, cfg.wrap, |was.snakes|, killers)
      requires BuriedUpTo(was, cfg.wrap, state, doomed, k)
      modifies this`state, this`deathOrder
      ensures BuriedUpTo(was, cfg.wrap, state, doomed, k + 1)
      ensures deathOrder == old(deathOrder) + [was.snakes[doomed[k]].id]
    {
      hide Dies, Outcome, BuriedUpTo, AreKillers, KillerOf, Playable, Doomed, SortedIds;
      BuryStep(was, cfg.wrap, state, doomed, k);
      KillerLookup(was, cfg.wrap, state, doomed, k, killers);
      var v := doomed[k];
      if v in killers {
        var ks := FindSnake(state.snakes, killers[v]);
        if ks >= 0 {
          state := state.(snakes := state.snakes[ks := state.snakes[ks].(kills := state.snakes[ks].kills + 1)]);
        }
      }
      Kill(v);
    }

    /** One movement step for every living snake, all collisions decided simultaneously. */
    method Advance()
      requires Valid()
      modifies this`state, this`deathOrder
      ensures Playable(old(state), cfg.wrap)
      ensures state == Moved(old(state), cfg.wrap).(food := state.food)
      ensures Replenished(Moved(old(state), cfg.wrap), cfg.foodCount, state.food)
      ensures deathOrder
        == old(deathOrder) + IdsOf(old(state).snakes, Doomed(old(state), cfg.wrap, |old(state).snakes|))
    {
      ghost var was := state;
      SoundIsPlayable(cfg, was);
      DoomedAreAll(was, cfg.wrap);
      hide Moved, AllTurned, MovedUpTo, AreKillers, IsSolidMap, IsArrivalMap, Playable, BodyOk, HeadingOk, Apart,
        Replenished, DeathsOk, PlacementsOk, Dies, Planned, Doomed;
      var solid := SolidMap(state.snakes);
      var moves, heads := PlanMoves();
      var doomed, killers := ResolveDeaths(was, moves, solid, heads);
      var dead := SetOf(doomed);
      MoveSurvivors(was, moves, dead);
      BuryDoomed(was, doomed, killers);
      ReplenishFood();
    }

    static method SetOf(indices: seq<int>) returns (s: set<int>)
      ensures forall i :: i in s <==> i in indices
    {
      s := {};
      for k := 0 to |indices|
        invariant forall i :: i in s <==> i in indices[..k]
      {
        s := s + {indices[k]};
      }
    }

    /** One tick. */
    method Step() returns (st: State)
      requires Valid()
      modifies this`state, this`deathOrder, this`finished
      ensures Stepped(cfg, old(View()), View())
      ensures old(state).over || (old(state).tick + 1) % cfg.ticksPerMove != 0 ==>
        View() == old(View()).(st := old(state).(tick := old(state).tick + 1))
      ensures Valid() && st == state
    {
      ghost var was := View();
      StepKeepsValid(cfg, was);
      hide Inv, Stepped, CheckedOver, Moved, Doomed, DeathsOk, SortedIds, Playable, Replenished;
      state := state.(tick := state.tick + 1);
      if state.over {
        return state;
      }
      if state.tick % cfg.ticksPerMove != 0 {
        return state;
      }
      Advance();
      MoveIsStep(cfg, was, View());
      CheckOver();
      return state;
    }

    // ---- Starting a match ----

    method OverlapsExisting(body: seq<Point>) returns (hit: bool)
      ensures hit <==> Spawn.Overlaps(state.snakes, body)
    {
      for i := 0 to |state.snakes|
        invariant !Spawn.Overlaps(state.snakes[..i], body)
      {
        var cells := state.snakes[i].body;
        for j := 0 to |cells|
          invariant forall p :: p in body ==> p !in cells[..j]
        {
          for k := 0 to |body|
            invariant cells[j] !in body[..k]
          {
            if body[k] == cells[j] {
              assert body[k] in body && body[k] in state.snakes[i].body;
              return true;
            }
          }
        }
        assert cells[..|cells|] == cells;
        assert forall a :: 0 <= a < i ==> state.snakes[..i + 1][a] == state.snakes[..i][a];
      }
      assert state.snakes[..|state.snakes|] == state.snakes;
      return false;
    }

    /** The first straight clear run in reading order, if there is one at all. */
    method FindClearRun(dir: Direction) returns (run: seq<Point>, ok: bool)
      ensures ok ==> exists p :: Spawn.Interior(state.arena, p) && run == Spawn.Trail(p, dir)
                                 && Spawn.Clear(state.arena, state.snakes, p, dir)
      ensures !ok ==> forall p :: Spawn.Interior(state.arena, p) ==> !Spawn.Clear(state.arena, state.snakes, p, dir)
    {
      var a := state.arena;
      var y := a.y0 + 1;
      while y <= a.y1 - 1
        invariant forall p :: Spawn.Interior(a, p) && p.y < y ==> !Spawn.Clear(a, state.snakes, p, dir)
      {
        var x := a.x0 + 1;
        while x <= a.x1 - 1
          invariant forall p :: Spawn.Interior(a, p) && (p.y < y || (p.y == y && p.x < x)) ==>
            !Spawn.Clear(a, state.snakes, p, dir)
        {
          run, ok := RunAt(Point(x, y), dir);
          if ok {
            var hit := OverlapsExisting(run);
            if !hit {
              return run, true;
            }
          }
          x := x + 1;
        }
        y := y + 1;
      }
      return [], false;
    }

    method RunAt(head: Point, dir: Direction) returns (run: seq<Point>, ok: bool)
      ensures ok ==> run == Spawn.Trail(head, dir)
      ensures ok <==> forall k :: 0 <= k < START_LENGTH ==> state.arena.Contains(Spawn.Trail(head, dir)[k])
    {
      var back := Delta(Opposite(dir));
      run := [];
      for j := 0 to START_LENGTH
        invariant run == Spawn.Trail(head, dir)[..j]
        invariant forall k :: 0 <= k < j ==> state.arena.Contains(Spawn.Trail(head, dir)[k])
      {
        var p := Point(head.x + back.x * j, head.y + back.y * j);
        assert p == Spawn.Trail(head, dir)[j];
        if !state.arena.Contains(p) {
          return run, false;
        }
        run := run + [p];
      }
      return run, true;
    }

    /** The proposed heading, or the opposite if the arena's edge is in the way of the trail. */
    method Facing(head: Point, heading: Direction) returns (dir: Direction)
      requires heading <= LEFT
      ensures dir == if state.arena.Contains(Spawn.Trail(head, heading)[2]) then heading else Opposite(heading)
    {
      var back := Delta(Opposite(heading));
      if state.arena.Contains(Point(head.x + back.x * (START_LENGTH - 1), head.y + back.y * (START_LENGTH - 1))) {
        return heading;
      }
      return Opposite(heading);
    }

    /** One seat, from the head and heading the ring layout proposes for it. */
    method SpawnSnake(id: PlayerID, proposed: Point, heading: Direction) returns (sn: Snake)
      requires cfg.Valid() && state.arena == cfg.Arena() && heading <= LEFT
      ensures Spawned(state.arena, sn) && sn.id == id
      ensures RoomToSpawn(state.snakes) ==> !Spawn.Overlaps(state.snakes, sn.body)
      ensures Spawn.AsProposed(state.arena, state.snakes, proposed, heading, sn)
    {
      hide Spawn.Trail, Spawn.Overlaps, Spawned;
      var a := state.arena;
      var head := Point(Clamp(proposed.x, a.x0 + 1, a.x1 - 1), Clamp(proposed.y, a.y0 + 1, a.y1 - 1));
      var dir := Facing(head, heading);
      var back := Delta(Opposite(dir));
      RingFits(cfg, head, heading, dir);
      var body: seq<Point> := [];
      for j := 0 to START_LENGTH
        invariant body == Spawn.Trail(head, dir)[..j]
      {
        var p := Point(head.x + back.x * j, head.y + back.y * j);
        assert j == 0 || j == 1 || j == 2;
        assert p == Spawn.Trail(head, dir)[j];
        assert a.Contains(p);  // so the source's folding of p back into the arena never applies
        body := body + [p];
      }
      TrailIsSpawned(cfg, id, head, dir);
      assert body == Spawn.Trail(head, dir);
      var hit := OverlapsExisting(body);
      if hit {
        var free, ok := FindClearRun(dir);
        if ok {
          ghost var p :| Spawn.Interior(a, p) && free == Spawn.Trail(p, dir) && Spawn.Clear(a, state.snakes, p, dir);
          TrailIsSpawned(cfg, id, p, dir);
          body := free;
        } else {
          RoomForAnother(cfg, state.snakes, dir);
        }
      }
      sn := Snake(id, body, dir, true, false, 0, 0, 0, START_LENGTH, -1, 0, UP, false);
      Spawn.PlacedAsProposed(a, state.snakes, proposed, head, heading, sn);
    }

    /** `New`, with the ring layout's proposals for each seat as a parameter. The two errors
        are an invalid configuration and an empty seat list. */
    static method New(cfg: Config, seats: seq<PlayerID>, ring: nat -> (Point, Direction)) returns (s: Sim?)
      requires forall i: nat :: ring(i).1 <= LEFT
      ensures s == null <==> !cfg.Valid() || |seats| == 0
      ensures s != null ==> fresh(s) && s.cfg == cfg && |s.state.snakes| == |seats|
      ensures s != null && |seats| <= MAX_PLAYERS && Sorting.NoRepeats(seats) ==> Started(cfg, s.View()) && s.Valid()
      ensures s != null ==> forall id :: id in seats <==> SnakeIndex(s.state.snakes, id) >= 0
      ensures s != null ==> forall k: nat :: k < |seats| ==>
        Spawn.AsProposed(cfg.Arena(), s.state.snakes[..k], ring(k).0, ring(k).1, s.state.snakes[k])
    {
      hide Spawn.AsProposed, Spawned, PairwiseDisjoint, Replenished, Started, Inv, SortedIds, Sorting.NoRepeats;
      if !cfg.Valid() || |seats| == 0 {
        return null;
      }
      var sim := new Sim.Empty(cfg);
      var ordered := Sorting.SortBy((i: PlayerID, j: PlayerID) => i < j, seats);
      sim.SpawnAll(ordered, ring);
      SeatsSeated(seats, ordered, sim.state.snakes);
      ghost var spawned := sim.state;
      sim.FirstFood();
      if |seats| <= MAX_PLAYERS && Sorting.NoRepeats(seats) {
        NewIsStarted(cfg, spawned, sim.View());
      }
      return sim;
    }

    method SpawnAll(ordered: seq<PlayerID>, ring: nat -> (Point, Direction))
      requires cfg.Valid() && state == State(0, [], [], cfg.Arena(), false)
      requires forall i: nat :: ring(i).1 <= LEFT
      modifies this`state
      ensures state == old(state).(snakes := state.snakes) && |state.snakes| == |ordered|
      ensures forall k :: 0 <= k < |ordered| ==>
        Spawned(state.arena, state.snakes[k]) && state.snakes[k].id == ordered[k]
      ensures forall k: nat :: k < |ordered| ==>
        Spawn.AsProposed(state.arena, state.snakes[..k], ring(k).0, ring(k).1, state.snakes[k])
      ensures |ordered| <= MAX_PLAYERS ==> PairwiseDisjoint(state.snakes)
    {
      hide Spawn.Overlaps, PairwiseDisjoint, Spawned, Spawn.AsProposed;
      NothingOverlaps();
      for i := 0 to |ordered|
        invariant state == old(state).(snakes := state.snakes) && |state.snakes| == i
        invariant forall k :: 0 <= k < i ==> Spawned(state.arena, state.snakes[k]) && state.snakes[k].id == ordered[k]
        invariant forall k: nat :: k < i ==>
          Spawn.AsProposed(state.arena, state.snakes[..k], ring(k).0, ring(k).1, state.snakes[k])
        invariant forall k :: 0 <= k < i ==> |state.snakes[k].body| == START_LENGTH
        invariant |ordered| <= MAX_PLAYERS ==> PairwiseDisjoint(state.snakes)
      {
        var sn := SpawnSnake(ordered[i], ring(i).0, ring(i).1);
        SpawnedLength(state.arena, sn);
        if |ordered| <= MAX_PLAYERS {
          AppendDisjoint(state.snakes, sn);
        }
        assert state.snakes[..i] == state.snakes;
        assert forall k: nat :: k < i ==> (state.snakes + [sn])[..k] == state.snakes[..k];
        state := state.(snakes := state.snakes + [sn]);
      }
    }

    /** The opening pellets. */
    method FirstFood()
      requires cfg.Valid() && state.arena == cfg.Arena() && state.food == []
      modifies this`state
      ensures state == old(state).(food := state.food)
      ensures Replenished(old(state), cfg.foodCount, state.food)
    {
      ghost var was := state;
      for i := 0 to cfg.foodCount
        invariant state == was.(food := state.food) && |state.food| <= i
        invariant forall k :: 0 <= k < |state.food| ==> Free(was, state.food[k]) && state.food[k] !in state.food[..k]
        invariant |state.food| < i ==> forall p :: Free(was, p) ==> p in state.food
      {
        var p, ok := FreeCell();
        if ok {
          state := state.(food := state.food + [p]);
        } else {
          assert forall q :: Free(was, q) && q !in state.food ==> Free(state, q);
        }
      }
    }
  }
}
