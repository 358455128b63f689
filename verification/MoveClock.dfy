/** Which ticks of a match are moves, and what a move does (`Step` of internal/game/sim.go). */
module MoveClock {
  import opened Types
  import opened Movement
  import opened Soundness
  import opened World
  import opened Bookkeeping
  import opened Runs
  import Walled

  /** Nothing happened but that the clock advanced. */
  ghost predicate OnlyClock(w: World, w': World) {
    w' == w.(st := w.st.(tick := w.st.tick + 1))
  }

  /** A match that is over, or a tick that TicksPerMove does not divide: the clock and nothing else. */
  lemma BetweenMoves(cfg: Config, w: World, w': World)
    requires cfg.Valid() && Stepped(cfg, w, w') && (w.st.over || (w.st.tick + 1) % cfg.ticksPerMove != 0)
    ensures OnlyClock(w, w')
  {
  }

  function NextHeading(sn: Snake): Direction { if sn.hasPending then sn.pending else sn.dir }

  /** On every other tick each survivor's head is one cell on, in the direction last asked for. */
  lemma OnTheMove(cfg: Config, w: World, w': World, i: nat)
    requires Inv(cfg, w) && Stepped(cfg, w, w') && !w.st.over && (w.st.tick + 1) % cfg.ticksPerMove == 0
    requires i < |w'.st.snakes| && w'.st.snakes[i].alive
    ensures w'.st.tick == w.st.tick + 1 && |w'.st.snakes| == |w.st.snakes| && w.st.snakes[i].alive
    ensures var was, now := w.st.snakes[i].body, w'.st.snakes[i].body;
      |was| > 0 && |now| > 0 && now[0] == Ahead(w.st.arena, cfg.wrap, was[0], NextHeading(w.st.snakes[i]))
  {
    hide Doomed, Credits, Dies, FoodLeft, Rank, Replenished, BodyOk, HeadingOk, Ahead;
    var t := Ticked(w);
    assert BodyOk(w.st.arena, cfg.wrap, w.st.snakes[i].body) by { hide Stepped; }
    BodyHasCells(w.st.arena, cfg.wrap, w.st.snakes[i].body);
  }

  lemma BodyHasCells(arena: Rect, wrap: bool, body: seq<Point>)
    requires arena.Width() > 0 && arena.Height() > 0 && BodyOk(arena, wrap, body)
    ensures |body| > 0 && arena.Contains(body[0])
  {
  }

  lemma AheadIsElsewhere(arena: Rect, wrap: bool, p: Point, d: Direction)
    requires arena.Width() >= 2 && arena.Height() >= 2 && arena.Contains(p)
    ensures Ahead(arena, wrap, p, d) != p
  {
    AheadAxis(arena, wrap, p, d);
  }

  lemma {:induction false} SomebodyLives(snakes: seq<Snake>) returns (i: nat)
    requires AliveCount(snakes) > 0
    ensures i < |snakes| && snakes[i].alive
  {
    i := |snakes| - 1;
    if !snakes[i].alive {
      i := SomebodyLives(snakes[..i]);
    }
  }

  /** Such a tick never passes for the clock alone: somebody has moved or died. */
  lemma MovesShow(cfg: Config, w: World, w': World)
    requires Inv(cfg, w) && Stepped(cfg, w, w') && !w.st.over && (w.st.tick + 1) % cfg.ticksPerMove == 0
    ensures !OnlyClock(w, w')
  {
    OverIsFinished(w);
    var i := SomebodyLives(w.st.snakes);
    if OnlyClock(w, w') {
      hide Stepped, AfterMove, BodyOk, HeadingOk;
      OnTheMove(cfg, w, w', i);
      BodyHasCells(w.st.arena, cfg.wrap, w.st.snakes[i].body);
      AheadIsElsewhere(w.st.arena, cfg.wrap, w.st.snakes[i].body[0], NextHeading(w.st.snakes[i]));
      assert false;
    }
  }

  // ---- Steering ----

  /** A turn asked for waits in place of any asked for before, if the snake lives, is not coasting, and
      the byte is one of the four headings but not the reverse of the present one. Nothing else changes. */
  lemma SteerTakesEffect(cfg: Config, w: World, k: nat, d: Direction)
    requires Inv(cfg, w) && k < |w.st.snakes|
    ensures var sn := w.st.snakes[k]; var w' := Steer(w, sn.id, d);
      && |w'.st.snakes| == |w.st.snakes| && w' == w.(st := w.st.(snakes := w'.st.snakes))
      && (forall i :: 0 <= i < |w.st.snakes| && i != k ==> w'.st.snakes[i] == w.st.snakes[i])
      && w'.st.snakes[k]
         == if sn.alive && !sn.coasting && d <= 3 && !(|sn.body| > 1 && Reverse(d, sn.dir))
            then sn.(pending := d, hasPending := true) else sn
  {
    DistinctBooks(cfg, w);
    hide Inv;
    IndexOfMember(w.st.snakes, k);
    if d <= LEFT {
      ReverseIff(d, w.st.snakes[k].dir);
    }
  }

  predicate Reverse(d: Direction, e: Direction) {
    || (d == 0 && e % 4 == 2) || (d == 2 && e % 4 == 0) || (d == 1 && e % 4 == 3) || (d == 3 && e % 4 == 1)
  }

  lemma ReverseIff(d: Direction, e: Direction)
    requires d <= 3
    ensures d == Opposite(e) <==> Reverse(d, e)
  {
  }

  // ---- What a move does ----

  /** Cell p is held by a living snake, and not by the tail of one that is not growing. */
  ghost predicate Held(st: State, p: Point) {
    exists j, c :: HeldBy(st, p, j, c)
  }

  ghost predicate HeldBy(st: State, p: Point, j: int, c: int) {
    && 0 <= j < |st.snakes| && st.snakes[j].alive && 0 <= c < |st.snakes[j].body| && st.snakes[j].body[c] == p
    && (c < |st.snakes[j].body| - 1 || st.snakes[j].grow > 0)
  }

  /** Another living snake moves onto p as well. */
  ghost predicate Contended(st: State, wrap: bool, i: int, p: Point)
    requires wrap ==> st.arena.Width() > 0 && st.arena.Height() > 0
    requires forall j :: 0 <= j < |st.snakes| && st.snakes[j].alive ==> |st.snakes[j].body| > 0
  {
    exists j :: j != i && Reaches(st, wrap, j, p)
  }

  ghost predicate Reaches(st: State, wrap: bool, j: int, p: Point)
    requires wrap ==> st.arena.Width() > 0 && st.arena.Height() > 0
    requires forall j :: 0 <= j < |st.snakes| && st.snakes[j].alive ==> |st.snakes[j].body| > 0
  {
    && 0 <= j < |st.snakes| && st.snakes[j].alive
    && Ahead(st.arena, wrap, st.snakes[j].body[0], NextHeading(st.snakes[j])) == p
  }

  lemma SolidMeans(sn: Snake, p: Point, c: int)
    requires sn.alive && |sn.body| > 0 && sn.grow >= 0
    requires 0 <= c < |sn.body| && sn.body[c] == p && (c < |sn.body| - 1 || sn.grow > 0)
    ensures p in SolidCells(sn)
  {
    assert sn.grow == 0 ==> sn.body[..|sn.body|-1][c] == p;
  }

  lemma SolidAt(sn: Snake, p: Point) returns (c: int)
    requires sn.alive && |sn.body| > 0 && sn.grow >= 0 && p in SolidCells(sn)
    ensures 0 <= c < |sn.body| && sn.body[c] == p && (c < |sn.body| - 1 || sn.grow > 0)
  {
    c :| 0 <= c < |SolidCells(sn)| && SolidCells(sn)[c] == p;
  }

  /** The rule of death against the board alone: a new head that leaves the arena, that meets another, or
      that runs into what is still held. */
  lemma DiesIff(cfg: Config, st: State, i: nat)
    requires Playable(st, cfg.wrap) && Lives(st, i) && forall j :: Lives(st, j) ==> st.snakes[j].grow >= 0
    ensures var head := Ahead(st.arena, cfg.wrap, st.snakes[i].body[0], NextHeading(st.snakes[i]));
      Dies(st, cfg.wrap, i) <==> !st.arena.Contains(head) || Contended(st, cfg.wrap, i, head) || Held(st, head)
  {
    hide Ahead, SolidCells;
    var head := Ahead(st.arena, cfg.wrap, st.snakes[i].body[0], NextHeading(st.snakes[i]));
    assert HeadAfter(st, cfg.wrap, i) == head;
    if j :| Lives(st, j) && head in SolidCells(st.snakes[j]) {
      var c := SolidAt(st.snakes[j], head);
      assert HeldBy(st, head, j, c);
    }
    if j, c :| HeldBy(st, head, j, c) {
      SolidMeans(st.snakes[j], head, c);
      assert Lives(st, j) && head in SolidCells(st.snakes[j]);
    }
    if j :| j != i && Lives(st, j) && HeadAfter(st, cfg.wrap, j) == head {
      assert Reaches(st, cfg.wrap, j, head);
    }
    if j :| j != i && Reaches(st, cfg.wrap, j, head) {
      assert Lives(st, j) && HeadAfter(st, cfg.wrap, j) == head;
    }
  }

  /** A survivor's body: the new cell in front, and the last one gone unless growth was due or it ate. */
  function NextBody(sn: Snake, head: Point, ate: bool): seq<Point>
    requires |sn.body| > 0
  {
    [head] + (if sn.grow > 0 || ate then sn.body else sn.body[..|sn.body|-1])
  }

  /** A move, snake by snake: who is dead stays so; of the others exactly those die, at this tick, that
      the rule is against; and the rest are one cell on, with a point and two cells to grow for food. */
  ghost predicate Fate(cfg: Config, st: State, i: nat, sn': Snake)
    requires Playable(st, cfg.wrap) && i < |st.snakes|
  {
    var sn := st.snakes[i];
    if !Lives(st, i) then !sn'.alive && sn'.diedAtTick == sn.diedAtTick && sn'.body == sn.body
    else
      var head := Ahead(st.arena, cfg.wrap, sn.body[0], NextHeading(sn)); var ate := head in st.food;
      if !st.arena.Contains(head) || Contended(st, cfg.wrap, i, head) || Held(st, head) then
        !sn'.alive && sn'.diedAtTick == st.tick && sn'.body == sn.body && sn'.score == sn.score
      else
        && sn'.alive && sn'.diedAtTick == sn.diedAtTick && sn'.dir == NextHeading(sn)
        && sn'.body == NextBody(sn, head, ate) && sn'.score == sn.score + (if ate then 1 else 0)
        && !sn'.hasPending && sn'.coasting == sn.coasting
  }

  lemma MoveDecides(cfg: Config, w: World, w': World, i: nat)
    requires Inv(cfg, w) && Stepped(cfg, w, w') && !w.st.over && (w.st.tick + 1) % cfg.ticksPerMove == 0
    requires i < |w.st.snakes|
    ensures Playable(w.st.(tick := w.st.tick + 1), cfg.wrap) && |w'.st.snakes| == |w.st.snakes|
    ensures Fate(cfg, w.st.(tick := w.st.tick + 1), i, w'.st.snakes[i])
  {
    hide Inv, Stepped, Fate, Outcome;
    GrowthIsDue(cfg, w);
    SnakesAfter(cfg, w, w', i);
    FateOf(cfg, Ticked(w).st, i, w'.st.snakes[i]);
  }

  lemma SnakesAfter(cfg: Config, w: World, w': World, i: nat)
    requires cfg.Valid() && Stepped(cfg, w, w') && !w.st.over && (w.st.tick + 1) % cfg.ticksPerMove == 0
    requires i < |w.st.snakes|
    ensures Playable(Ticked(w).st, cfg.wrap) && |w'.st.snakes| == |w.st.snakes|
    ensures var sn := Outcome(Ticked(w).st, cfg.wrap, i);
      w'.st.snakes[i] == sn.(kills := w'.st.snakes[i].kills, placement := w'.st.snakes[i].placement)
  {
    hide Doomed, Credits, Outcome, FoodLeft, Rank, Replenished, Decided;
  }

  lemma FateOf(cfg: Config, st: State, i: nat, sn': Snake)
    requires Playable(st, cfg.wrap) && i < |st.snakes| && forall j :: Lives(st, j) ==> st.snakes[j].grow >= 0
    requires var sn := Outcome(st, cfg.wrap, i); sn' == sn.(kills := sn'.kills, placement := sn'.placement)
    ensures Fate(cfg, st, i, sn')
  {
    hide Dies, Ahead, Contended, Held;
    if Lives(st, i) {
      DiesIff(cfg, st, i);
    }
  }

  lemma GrowthIsDue(cfg: Config, w: World)
    requires Inv(cfg, w)
    ensures Playable(Ticked(w).st, cfg.wrap)
    ensures cfg.Valid() && forall j :: Lives(Ticked(w).st, j) ==> Ticked(w).st.snakes[j].grow >= 0
  {
    forall j | Lives(w.st, j)
      ensures |w.st.snakes[j].body| > 0 && w.st.snakes[j].grow >= 0
    {
      assert BodyOk(w.st.arena, cfg.wrap, w.st.snakes[j].body) && GrowthLedger(w.st.snakes[j]);
      BodyHasCells(w.st.arena, cfg.wrap, w.st.snakes[j].body);
    }
  }

  // ---- Kills ----

  /** The death of i is k's doing: i stayed inside and met no head, k is another, and of all who hold
      the cell i ran into k is in the last seat. */
  ghost predicate KilledBy(cfg: Config, st: State, i: int, k: int)
    requires Playable(st, cfg.wrap)
  {
    && Lives(st, i) && k != i
    && var head := Ahead(st.arena, cfg.wrap, st.snakes[i].body[0], NextHeading(st.snakes[i]));
      && st.arena.Contains(head) && !Contended(st, cfg.wrap, i, head)
      && (exists c :: HeldBy(st, head, k, c)) && forall j, c :: HeldBy(st, head, j, c) ==> j <= k
  }

  ghost function KillsOf(cfg: Config, st: State, k: int): set<int>
    requires Playable(st, cfg.wrap)
  {
    set i | 0 <= i < |st.snakes| && KilledBy(cfg, st, i, k)
  }

  lemma KillerIff(cfg: Config, st: State, i: int, k: nat)
    requires Playable(st, cfg.wrap) && Lives(st, i) && forall j :: Lives(st, j) ==> st.snakes[j].grow >= 0
    requires DistinctIds(st.snakes)
    ensures KillerOf(st, cfg.wrap, i) == k <==> KilledBy(cfg, st, i, k)
  {
    var head := HeadAfter(st, cfg.wrap, i);
    ContendedIff(cfg, st, i, head);
    forall j
      ensures (exists c :: HeldBy(st, head, j, c)) <==> Lives(st, j) && head in SolidCells(st.snakes[j])
    {
      HoldsIff(st, head, j);
    }
    hide Ahead, HeldBy;
    var last := LastSolid(st.snakes, head);
    if last >= 0 && last != i {
      assert st.snakes[last].id != st.snakes[i].id;
    }
    assert forall j :: 0 <= j < |st.snakes| && head in SolidCells(st.snakes[j]) ==> Lives(st, j);
  }

  lemma ContendedIff(cfg: Config, st: State, i: int, head: Point)
    requires Playable(st, cfg.wrap) && Lives(st, i) && head == HeadAfter(st, cfg.wrap, i)
    ensures Contended(st, cfg.wrap, i, head) <==> HeadOn(st, cfg.wrap, i)
  {
    hide Ahead;
    if j :| j != i && Lives(st, j) && HeadAfter(st, cfg.wrap, j) == head {
      assert Reaches(st, cfg.wrap, j, head);
    }
    if j :| j != i && Reaches(st, cfg.wrap, j, head) {
      assert Lives(st, j) && HeadAfter(st, cfg.wrap, j) == head;
    }
  }

  lemma HoldsIff(st: State, p: Point, j: int)
    requires forall i :: Lives(st, i) ==> |st.snakes[i].body| > 0 && st.snakes[i].grow >= 0
    ensures (exists c :: HeldBy(st, p, j, c)) <==> Lives(st, j) && p in SolidCells(st.snakes[j])
  {
    if c :| HeldBy(st, p, j, c) {
      SolidMeans(st.snakes[j], p, c);
    }
    if Lives(st, j) && p in SolidCells(st.snakes[j]) {
      var c := SolidAt(st.snakes[j], p);
      assert HeldBy(st, p, j, c);
    }
  }

  /** A move credits each snake with the deaths that are its doing, once each. */
  lemma KillsAreCounted(cfg: Config, w: World, w': World, k: nat)
    requires Inv(cfg, w) && Stepped(cfg, w, w') && !w.st.over && (w.st.tick + 1) % cfg.ticksPerMove == 0
    requires k < |w.st.snakes|
    ensures Playable(w.st.(tick := w.st.tick + 1), cfg.wrap) && |w'.st.snakes| == |w.st.snakes|
    ensures w'.st.snakes[k].kills == w.st.snakes[k].kills + |KillsOf(cfg, w.st.(tick := w.st.tick + 1), k)|
  {
    hide Inv, Stepped, KilledBy, IsVictim, Credits, Doomed, Playable, DistinctIds, KillsOf, Victims;
    var t := Ticked(w).st;
    GrowthIsDue(cfg, w);
    DistinctBooks(cfg, w);
    KillsAfter(cfg, w, w', k);
    CreditsAreVictims(t, cfg.wrap, |t.snakes|, k);
    VictimsAreKills(cfg, t, k);
  }

  lemma DistinctBooks(cfg: Config, w: World)
    requires Inv(cfg, w)
    ensures DistinctIds(Ticked(w).st.snakes)
  {
    assert SortedIds(w.st.snakes) by { hide Sound; }
  }

  lemma KillsAfter(cfg: Config, w: World, w': World, k: nat)
    requires cfg.Valid() && Stepped(cfg, w, w') && !w.st.over && (w.st.tick + 1) % cfg.ticksPerMove == 0
    requires k < |w.st.snakes|
    ensures Playable(Ticked(w).st, cfg.wrap) && |w'.st.snakes| == |w.st.snakes|
    ensures w'.st.snakes[k].kills
      == w.st.snakes[k].kills + Credits(Ticked(w).st, cfg.wrap, Doomed(Ticked(w).st, cfg.wrap, |w.st.snakes|), k)
  {
    hide Doomed, Credits, Outcome, FoodLeft, Rank, Replenished, Decided;
  }

  lemma VictimsAreKills(cfg: Config, st: State, k: nat)
    requires Playable(st, cfg.wrap) && forall j :: Lives(st, j) ==> st.snakes[j].grow >= 0
    requires DistinctIds(st.snakes)
    ensures Victims(st, cfg.wrap, |st.snakes|, k) == KillsOf(cfg, st, k)
  {
    hide KilledBy, IsVictim, DistinctIds, Playable;
    forall i | 0 <= i < |st.snakes|
      ensures IsVictim(st, cfg.wrap, i, k) == KilledBy(cfg, st, i, k)
    {
      VictimIff(cfg, st, i, k);
    }
  }

  lemma VictimIff(cfg: Config, st: State, i: int, k: nat)
    requires Playable(st, cfg.wrap) && forall j :: Lives(st, j) ==> st.snakes[j].grow >= 0
    requires DistinctIds(st.snakes)
    ensures IsVictim(st, cfg.wrap, i, k) == KilledBy(cfg, st, i, k)
  {
    if Lives(st, i) {
      KillerIff(cfg, st, i, k);
      hide KilledBy, HeadAfter, SolidCells;
      if KillerOf(st, cfg.wrap, i) == k {
        assert Lives(st, k) by { HoldsIff(st, HeadAfter(st, cfg.wrap, i), k); }
        assert Hits(st, cfg.wrap, i);
      }
    }
  }

  ghost predicate IsVictim(st: State, wrap: bool, i: int, k: int)
    requires Playable(st, wrap)
  {
    Lives(st, i) && Dies(st, wrap, i) && KillerOf(st, wrap, i) == k
  }

  ghost function Victims(st: State, wrap: bool, n: nat, k: int): set<int>
    requires Playable(st, wrap) && n <= |st.snakes|
  {
    set i | 0 <= i < n && IsVictim(st, wrap, i, k)
  }

  lemma {:induction false} CreditsAreVictims(st: State, wrap: bool, n: nat, k: int)
    requires Playable(st, wrap) && n <= |st.snakes|
    ensures Credits(st, wrap, Doomed(st, wrap, n), k) == |Victims(st, wrap, n, k)|
  {
    hide Playable, IsVictim, Credits, Doomed;
    if n == 0 {
      NoCredits(st, wrap, k);
      assert Victims(st, wrap, n, k) == {};
    } else {
      CreditsAreVictims(st, wrap, n - 1, k);
      OneMoreVictim(st, wrap, n, k);
      if IsVictim(st, wrap, n - 1, k) {
        assert Victims(st, wrap, n, k) == Victims(st, wrap, n - 1, k) + {n - 1};
      } else {
        assert Victims(st, wrap, n, k) == Victims(st, wrap, n - 1, k);
      }
    }
  }

  lemma NoCredits(st: State, wrap: bool, k: int)
    requires Playable(st, wrap)
    ensures Credits(st, wrap, Doomed(st, wrap, 0), k) == 0
  {
  }

  lemma OneMoreVictim(st: State, wrap: bool, n: nat, k: int)
    requires Playable(st, wrap) && 0 < n <= |st.snakes|
    ensures Credits(st, wrap, Doomed(st, wrap, n), k)
      == Credits(st, wrap, Doomed(st, wrap, n - 1), k) + (if IsVictim(st, wrap, n - 1, k) then 1 else 0)
  {
    hide Dies, KillerOf, Playable;
    var more, fewer := Doomed(st, wrap, n), Doomed(st, wrap, n - 1);
    if st.snakes[n - 1].alive && Dies(st, wrap, n - 1) {
      assert more[..|more|-1] == fewer;
    }
  }

  // ---- Food ----

  ghost predicate HeadAt(st: State, p: Point) {
    exists i :: 0 <= i < |st.snakes| && st.snakes[i].alive && |st.snakes[i].body| > 0 && st.snakes[i].body[0] == p
  }

  ghost predicate Covered(st: State, p: Point) {
    exists i :: 0 <= i < |st.snakes| && st.snakes[i].alive && p in st.snakes[i].body
  }

  /** A pellet goes exactly if somebody living has arrived on it; and then there are as many as
      configured again, never more than that for new ones, unless every cell of the arena is taken. */
  lemma FoodAfter(cfg: Config, w: World, w': World)
    requires Inv(cfg, w) && Stepped(cfg, w, w') && !w.st.over && (w.st.tick + 1) % cfg.ticksPerMove == 0
    ensures forall p :: p in w.st.food ==> (p in w'.st.food <==> !HeadAt(w'.st, p))
    ensures |w'.st.food| <= Max(|w.st.food|, cfg.foodCount)
    ensures |w'.st.food| >= cfg.foodCount
      || forall p :: w.st.arena.Contains(p) && !Covered(w'.st, p) ==> p in w'.st.food
  {
    hide Inv, Stepped, Outcome, Survives, HeadAfter, Occupied, Covered, HeadAt;
    GrowthIsDue(cfg, w);
    var t := Ticked(w).st;
    FoodPutBack(cfg, w, w');
    LeftAtMost(t, cfg.wrap, |t.snakes|, t.food);
    forall i: nat | i < |w.st.snakes|
      ensures i < |w'.st.snakes| && LikeOutcome(t, cfg.wrap, i, w'.st.snakes[i])
    {
      SnakesAfter(cfg, w, w', i);
    }
    forall p
      ensures HeadAt(w'.st, p) <==> Eaten(t, cfg.wrap, |t.snakes|, p)
      ensures Covered(w'.st, p) <==> Occupied(Moved(t, cfg.wrap).snakes, p)
    {
      HeadsAreArrivals(cfg, t, w'.st, p);
      CoverIsOccupation(cfg, t, w'.st, p);
    }
    forall p | HeadAt(w'.st, p)
      ensures p !in w'.st.food
    {
      NoPelletUnderHead(cfg, t, w'.st, p);
    }
  }

  ghost predicate LikeOutcome(st: State, wrap: bool, i: nat, sn': Snake)
    requires Playable(st, wrap) && i < |st.snakes|
  {
    var sn := Outcome(st, wrap, i);
    sn' == sn.(kills := sn'.kills, placement := sn'.placement)
  }

  lemma FoodPutBack(cfg: Config, w: World, w': World)
    requires cfg.Valid() && Stepped(cfg, w, w') && !w.st.over && (w.st.tick + 1) % cfg.ticksPerMove == 0
    ensures Playable(Ticked(w).st, cfg.wrap) && |w'.st.snakes| == |w.st.snakes|
    ensures Replenished(Moved(Ticked(w).st, cfg.wrap), cfg.foodCount, w'.st.food)
  {
    hide Doomed, Credits, Outcome, FoodLeft, Rank, Replenished, Decided;
  }

  lemma {:induction false} LeftAtMost(st: State, wrap: bool, n: nat, food: seq<Point>)
    requires Playable(st, wrap)
    ensures |FoodLeft(st, wrap, n, food)| <= |food|
  {
    if |food| > 0 {
      LeftAtMost(st, wrap, n, food[..|food|-1]);
    }
  }

  lemma HeadsAreArrivals(cfg: Config, st: State, st': State, p: Point)
    requires Playable(st, cfg.wrap) && |st'.snakes| == |st.snakes|
    requires forall i: nat :: i < |st.snakes| ==> LikeOutcome(st, cfg.wrap, i, st'.snakes[i])
    ensures HeadAt(st', p) <==> Eaten(st, cfg.wrap, |st.snakes|, p)
  {
    hide Dies, HeadAfter;
    if i: nat :| i < |st.snakes| && Survives(st, cfg.wrap, i) && HeadAfter(st, cfg.wrap, i) == p {
      assert LikeOutcome(st, cfg.wrap, i, st'.snakes[i]);
      assert st'.snakes[i].alive && st'.snakes[i].body[0] == p;
    }
    if i :| 0 <= i < |st'.snakes| && st'.snakes[i].alive && |st'.snakes[i].body| > 0 && st'.snakes[i].body[0] == p {
      assert LikeOutcome(st, cfg.wrap, i, st'.snakes[i]);
      assert Survives(st, cfg.wrap, i) && HeadAfter(st, cfg.wrap, i) == p;
    }
  }

  lemma CoverIsOccupation(cfg: Config, st: State, st': State, p: Point)
    requires Playable(st, cfg.wrap) && |st'.snakes| == |st.snakes|
    requires forall i: nat :: i < |st.snakes| ==> LikeOutcome(st, cfg.wrap, i, st'.snakes[i])
    ensures Covered(st', p) <==> Occupied(Moved(st, cfg.wrap).snakes, p)
  {
    hide Outcome, FoodLeft, Credits, Doomed;
    forall i: nat | i < |st.snakes|
      ensures st'.snakes[i].alive == Moved(st, cfg.wrap).snakes[i].alive
      ensures st'.snakes[i].body == Moved(st, cfg.wrap).snakes[i].body
    {
      assert LikeOutcome(st, cfg.wrap, i, st'.snakes[i]);
    }
  }

  /** New pellets are put down on free cells only, so none is under a head. */
  lemma NoPelletUnderHead(cfg: Config, st: State, st': State, p: Point)
    requires Playable(st, cfg.wrap) && |st'.snakes| == |st.snakes|
    requires forall i: nat :: i < |st.snakes| ==> LikeOutcome(st, cfg.wrap, i, st'.snakes[i])
    requires Replenished(Moved(st, cfg.wrap), cfg.foodCount, st'.food) && HeadAt(st', p)
    ensures p !in st'.food
  {
    HeadsAreArrivals(cfg, st, st', p);
    CoverIsOccupation(cfg, st, st', p);
    hide Moved, LikeOutcome, Occupied;
    var m := Moved(st, cfg.wrap);
    assert Covered(st', p);
    assert p !in m.food by { LeftMeans(st, cfg.wrap, p); }
    forall k | 0 <= k < |st'.food|
      ensures st'.food[k] != p
    {
      if k < |m.food| {
        assert st'.food[..|m.food|][k] == st'.food[k];
      }
    }
  }

  lemma LeftMeans(st: State, wrap: bool, p: Point)
    requires Playable(st, wrap)
    ensures p in Moved(st, wrap).food <==> p in st.food && !Eaten(st, wrap, |st.snakes|, p)
  {
  }

  // ---- The end ----

  /** A match is over exactly when no two snakes live, or, played alone, when that one is dead. */
  lemma OverIff(cfg: Config, w: World)
    requires Inv(cfg, w)
    ensures w.st.over <==>
      if |w.st.snakes| == 1 then !w.st.snakes[0].alive
      else forall i, j :: 0 <= i < j < |w.st.snakes| ==> !w.st.snakes[i].alive || !w.st.snakes[j].alive
  {
    var snakes := w.st.snakes;
    OverIsFinished(w);
    LivingCounted(snakes);
  }

  /** What the count of the living says. */
  lemma {:induction false} LivingCounted(snakes: seq<Snake>)
    ensures AliveCount(snakes) == 0 <==> forall i :: 0 <= i < |snakes| ==> !snakes[i].alive
    ensures AliveCount(snakes) <= 1 <==>
      forall i, j :: 0 <= i < j < |snakes| ==> !snakes[i].alive || !snakes[j].alive
  {
    if |snakes| > 0 {
      LivingCounted(snakes[..|snakes|-1]);
    }
  }

  // ---- Runs ----

  ghost function TicksIn(actions: seq<Action>): nat {
    if |actions| == 0 then 0
    else TicksIn(actions[..|actions|-1]) + (if actions[|actions|-1].Stepping? then 1 else 0)
  }

  /** The ticks of a run on which anything but the clock changed. */
  ghost function MovesIn(ws: seq<World>, actions: seq<Action>): nat
    requires |ws| == |actions| + 1
  {
    if |actions| == 0 then 0
    else
      var n := |actions| - 1;
      MovesIn(ws[..n + 1], actions[..n]) + (if actions[n].Stepping? && !OnlyClock(ws[n], ws[n + 1]) then 1 else 0)
  }

  lemma OtherActionsKeepClock(cfg: Config, w: World, a: Action, w': World)
    requires cfg.Valid() && Next(cfg, w, a, w') && !a.Stepping?
    ensures w'.st.tick == w.st.tick
  {
  }

  lemma TickAdvances(cfg: Config, w: World, w': World)
    requires cfg.Valid() && Stepped(cfg, w, w')
    ensures w'.st.tick == w.st.tick + 1
  {
    hide Moved, Doomed, Replenished;
  }

  lemma RunPrefix(cfg: Config, ws: seq<World>, actions: seq<Action>)
    requires cfg.Valid() && Run(cfg, ws, actions) && |actions| > 0
    ensures Run(cfg, ws[..|actions|], actions[..|actions|-1])
    ensures Next(cfg, ws[|actions|-1], actions[|actions|-1], ws[|actions|])
  {
    hide Next;
  }

  /** In every run of a match not yet over, whatever else is sent to it, the number of moves is that of
      the ticks that TicksPerMove divides. */
  lemma {:induction false} MovesAreCounted(cfg: Config, ws: seq<World>, actions: seq<Action>)
    requires cfg.Valid() && Run(cfg, ws, actions) && Inv(cfg, ws[0])
    requires forall k :: 0 <= k < |actions| ==> !ws[k].st.over
    ensures var t, n := ws[0].st.tick, TicksIn(actions);
      && ws[|actions|].st.tick == t + n
      && MovesIn(ws, actions) == (t + n) / cfg.ticksPerMove - t / cfg.ticksPerMove
  {
    hide Next, Inv, Stepped;
    if |actions| > 0 {
      var n := |actions| - 1;
      RunPrefix(cfg, ws, actions);
      MovesAreCounted(cfg, ws[..n + 1], actions[..n]);
      RunKeepsInv(cfg, ws, actions, n);
      if actions[n].Stepping? {
        OneStep(cfg, ws[n], ws[n + 1]);
        Walled.QuotientStep(ws[n].st.tick, cfg.ticksPerMove);
      } else {
        OtherActionsKeepClock(cfg, ws[n], actions[n], ws[n + 1]);
      }
    }
  }

  lemma OneStep(cfg: Config, w: World, w': World)
    requires cfg.Valid() && Inv(cfg, w) && Next(cfg, w, Stepping, w') && !w.st.over
    ensures w'.st.tick == w.st.tick + 1
    ensures OnlyClock(w, w') <==> (w.st.tick + 1) % cfg.ticksPerMove != 0
  {
    hide Inv, Stepped;
    TickAdvances(cfg, w, w');
    if (w.st.tick + 1) % cfg.ticksPerMove != 0 {
      BetweenMoves(cfg, w, w');
    } else {
      MovesShow(cfg, w, w');
    }
  }
}
