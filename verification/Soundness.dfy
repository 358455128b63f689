/** The geometry every reachable state of the simulation keeps. */
module Soundness {
  import opened Types
  import opened Movement

  predicate Unit(arena: Rect, wrap: bool, from: Point, to: Point)
    requires arena.Width() > 0 && arena.Height() > 0
  {
    || to == Ahead(arena, wrap, from, UP) || to == Ahead(arena, wrap, from, RIGHT)
    || to == Ahead(arena, wrap, from, DOWN) || to == Ahead(arena, wrap, from, LEFT)
  }

  predicate DistinctCells(cells: seq<Point>) {
    forall a, b :: 0 <= a < b < |cells| ==> cells[a] != cells[b]
  }

  /** At least three cells, all in the arena, no cell twice, each one step from the next. */
  ghost predicate BodyOk(arena: Rect, wrap: bool, body: seq<Point>)
    requires arena.Width() > 0 && arena.Height() > 0
  {
    && |body| >= START_LENGTH
    && (forall k :: 0 <= k < |body| ==> arena.Contains(body[k]))
    && DistinctCells(body)
    && (forall k :: 0 <= k < |body| - 1 ==> Unit(arena, wrap, body[k + 1], body[k]))
  }

  /** The head is where the heading led from the neck, and nothing queued would reverse it. */
  ghost predicate HeadingOk(arena: Rect, wrap: bool, sn: Snake)
    requires arena.Width() > 0 && arena.Height() > 0
  {
    && |sn.body| >= START_LENGTH
    && sn.dir <= LEFT
    && sn.body[0] == Ahead(arena, wrap, sn.body[1], sn.dir)
    && (sn.hasPending ==> sn.pending <= LEFT && sn.pending != Opposite(sn.dir))
  }

  /** Bodies without their last cell do not meet. A full body can: the tail of a snake that
      eats stays put although another snake was allowed to move onto it. */
  ghost predicate Apart(s: Snake, t: Snake) {
    forall a, b :: 0 <= a < |s.body| - 1 && 0 <= b < |t.body| - 1 ==> s.body[a] != t.body[b]
  }

  ghost predicate FoodOk(st: State) {
    && DistinctCells(st.food)
    && (forall k :: 0 <= k < |st.food| ==> st.arena.Contains(st.food[k]) && !Occupied(st.snakes, st.food[k]))
  }

  ghost predicate Sound(cfg: Config, st: State) {
    && cfg.Valid()
    && st.arena == cfg.Arena()
    && (forall i :: 0 <= i < |st.snakes| ==> BodyOk(st.arena, cfg.wrap, st.snakes[i].body))
    && (forall i :: Lives(st, i) ==> HeadingOk(st.arena, cfg.wrap, st.snakes[i]))
    && (forall i, j :: Lives(st, i) && Lives(st, j) && i != j ==> Apart(st.snakes[i], st.snakes[j]))
    && FoodOk(st)
  }

  lemma SoundIsPlayable(cfg: Config, st: State)
    requires Sound(cfg, st)
    ensures Playable(st, cfg.wrap)
  {
    forall i | 0 <= i < |st.snakes| && st.snakes[i].alive
      ensures |st.snakes[i].body| > 0
    {
      assert BodyOk(st.arena, cfg.wrap, st.snakes[i].body);
    }
  }

  // ---- Steering ----

  /** `SetDirection` on one snake: reversals, unknown directions, and input for a dead or
      coasting snake are ignored. */
  function Steered(sn: Snake, d: Direction): Snake {
    if !sn.alive || sn.coasting || d > LEFT || (|sn.body| > 1 && d == Opposite(sn.dir)) then sn
    else sn.(pending := d, hasPending := true)
  }

  lemma SteeringKeepsHeading(arena: Rect, wrap: bool, sn: Snake, d: Direction)
    requires arena.Width() > 0 && arena.Height() > 0 && HeadingOk(arena, wrap, sn)
    ensures HeadingOk(arena, wrap, Steered(sn, d))
  {
  }

  /** Going on in any direction but the reverse never comes back to the cell one came from;
      on a torus this needs three columns and three rows. */
  lemma ForwardLeavesNeck(arena: Rect, wrap: bool, neck: Point, dir: Direction, d: Direction)
    requires arena.Width() >= 3 && arena.Height() >= 3 && arena.Contains(neck)
    requires dir <= LEFT && d <= LEFT && d != Opposite(dir)
    requires arena.Contains(Ahead(arena, wrap, neck, dir))
    ensures Ahead(arena, wrap, Ahead(arena, wrap, neck, dir), d) != neck
  {
    AheadAxis(arena, wrap, neck, dir);
    AheadAxis(arena, wrap, Ahead(arena, wrap, neck, dir), d);
  }

  /** No input, however it is timed, steers a living snake into its own neck. */
  lemma NeverIntoNeck(cfg: Config, st: State, i: int)
    requires Sound(cfg, st) && Lives(st, i)
    ensures Playable(st, cfg.wrap) && HeadAfter(st, cfg.wrap, i) != st.snakes[i].body[1]
  {
    SoundIsPlayable(cfg, st);
    var sn := st.snakes[i];
    assert BodyOk(st.arena, cfg.wrap, sn.body) && HeadingOk(st.arena, cfg.wrap, sn);
    ForwardLeavesNeck(st.arena, cfg.wrap, sn.body[1], sn.dir, Turned(sn).dir);
  }

  // ---- One move ----

  /** A survivor's new body in terms of the old: the head in front, and behind it all of
      the old body or all but its last cell. */
  lemma GrownBody(sn: Snake, head: Point, ate: bool)
    requires |sn.body| > 0 && sn.grow >= 0
    ensures var n := |Grown(sn, head, ate).body|;
      && |sn.body| <= n <= |sn.body| + 1
      && Grown(sn, head, ate).body == [head] + sn.body[..n - 1]
      && (n == |sn.body| + 1 <==> sn.grow > 0 || ate)
  {
    assert sn.body[..|sn.body|] == sn.body;
  }

  lemma SurvivorHeadIsFresh(cfg: Config, st: State, i: int)
    requires Sound(cfg, st) && Playable(st, cfg.wrap) && Survives(st, cfg.wrap, i) && st.snakes[i].grow >= 0
    ensures var body := Outcome(st, cfg.wrap, i).body;
      st.arena.Contains(body[0]) && body[0] == HeadAfter(st, cfg.wrap, i) && body[0] !in body[1..]
  {
    var sn, head := st.snakes[i], HeadAfter(st, cfg.wrap, i);
    var ate := head in st.food;
    GrownBody(Turned(sn), head, ate);
    var body := Outcome(st, cfg.wrap, i).body;
    assert body[1..] == sn.body[..|body| - 1];
    assert head !in SolidCells(sn);
    if ate {
      var k :| 0 <= k < |st.food| && st.food[k] == head;
      assert !Occupied(st.snakes, st.food[k]);
      assert head !in sn.body;
    }
  }

  lemma HeadInFront(arena: Rect, wrap: bool, was: seq<Point>, head: Point, m: int)
    requires arena.Width() > 0 && arena.Height() > 0 && BodyOk(arena, wrap, was)
    requires START_LENGTH - 1 <= m <= |was| && head !in was[..m]
    requires arena.Contains(head) && Unit(arena, wrap, was[0], head)
    ensures BodyOk(arena, wrap, [head] + was[..m])
  {
    hide Unit;
    var body := [head] + was[..m];
    assert forall k :: 1 <= k < |body| ==> body[k] == was[k - 1];
    forall k | 1 <= k < |body|
      ensures body[k] != head
    {
      assert body[k] == was[..m][k - 1];
    }
    forall k | 0 <= k < |body| - 1
      ensures Unit(arena, wrap, body[k + 1], body[k])
    {
      if k > 0 {
        assert Unit(arena, wrap, was[k], was[k - 1]);
      }
    }
  }

  lemma GrownIsSound(arena: Rect, wrap: bool, sn: Snake, ate: bool, sn': Snake)
    requires arena.Width() > 0 && arena.Height() > 0 && sn.grow >= 0
    requires BodyOk(arena, wrap, sn.body) && HeadingOk(arena, wrap, sn)
    requires sn' == Grown(Turned(sn), Ahead(arena, wrap, sn.body[0], Turned(sn).dir), ate)
    requires arena.Contains(sn'.body[0]) && sn'.body[0] !in sn'.body[1..]
    ensures BodyOk(arena, wrap, sn'.body) && HeadingOk(arena, wrap, sn')
  {
    var head := Ahead(arena, wrap, sn.body[0], Turned(sn).dir);
    hide Ahead, BodyOk;
    GrownBody(Turned(sn), head, ate);
    assert sn'.body[1..] == sn.body[..|sn'.body| - 1];
    HeadInFront(arena, wrap, sn.body, head, |sn'.body| - 1);
  }

  lemma SurvivorSound(cfg: Config, st: State, i: int)
    requires Sound(cfg, st) && Playable(st, cfg.wrap) && Survives(st, cfg.wrap, i) && st.snakes[i].grow >= 0
    ensures BodyOk(st.arena, cfg.wrap, Outcome(st, cfg.wrap, i).body)
    ensures HeadingOk(st.arena, cfg.wrap, Outcome(st, cfg.wrap, i))
  {
    hide Dies, FoodOk, Apart, BodyOk, HeadingOk, Grown;
    var sn := st.snakes[i];
    SurvivorHeadIsFresh(cfg, st, i);
    GrownIsSound(st.arena, cfg.wrap, sn, HeadAfter(st, cfg.wrap, i) in st.food, Outcome(st, cfg.wrap, i));
  }

  /** A head that survives is on no cell of another survivor's new body but its last. */
  lemma HeadApart(cfg: Config, st: State, i: int, j: int, b: int)
    requires Sound(cfg, st) && Playable(st, cfg.wrap) && i != j
    requires Survives(st, cfg.wrap, i) && Survives(st, cfg.wrap, j)
    requires st.snakes[i].grow >= 0 && st.snakes[j].grow >= 0
    requires 0 <= b < |Outcome(st, cfg.wrap, j).body| - 1
    ensures Outcome(st, cfg.wrap, j).body[b] != HeadAfter(st, cfg.wrap, i)
  {
    var t := st.snakes[j];
    GrownBody(Turned(t), HeadAfter(st, cfg.wrap, j), HeadAfter(st, cfg.wrap, j) in st.food);
    if b > 0 {
      assert Outcome(st, cfg.wrap, j).body[b] == t.body[b - 1];
      assert t.body[..|t.body|-1][b - 1] == t.body[b - 1];
      assert t.body[b - 1] in SolidCells(t);
    }
  }

  lemma SurvivorsApart(cfg: Config, st: State, i: int, j: int)
    requires Sound(cfg, st) && Playable(st, cfg.wrap) && i != j
    requires Survives(st, cfg.wrap, i) && Survives(st, cfg.wrap, j)
    requires st.snakes[i].grow >= 0 && st.snakes[j].grow >= 0
    ensures Apart(Outcome(st, cfg.wrap, i), Outcome(st, cfg.wrap, j))
  {
    var s, t := st.snakes[i], st.snakes[j];
    var s', t' := Outcome(st, cfg.wrap, i), Outcome(st, cfg.wrap, j);
    GrownBody(Turned(s), HeadAfter(st, cfg.wrap, i), HeadAfter(st, cfg.wrap, i) in st.food);
    GrownBody(Turned(t), HeadAfter(st, cfg.wrap, j), HeadAfter(st, cfg.wrap, j) in st.food);
    assert Apart(s, t);
    forall a, b | 0 <= a < |s'.body| - 1 && 0 <= b < |t'.body| - 1
      ensures s'.body[a] != t'.body[b]
    {
      if a == 0 {
        HeadApart(cfg, st, i, j, b);
      } else if b == 0 {
        HeadApart(cfg, st, j, i, a);
      } else {
        assert s'.body[a] == s.body[a - 1] && t'.body[b] == t.body[b - 1];
      }
    }
  }

  lemma SurvivorOffFood(cfg: Config, st: State, i: int, k: int)
    requires Sound(cfg, st) && Playable(st, cfg.wrap) && Survives(st, cfg.wrap, i) && st.snakes[i].grow >= 0
    requires 0 <= k < |st.food| && st.food[k] != HeadAfter(st, cfg.wrap, i)
    ensures st.food[k] !in Outcome(st, cfg.wrap, i).body
  {
    hide Dies;
    var sn := st.snakes[i];
    assert !Occupied(st.snakes, st.food[k]);
    GrownBody(Turned(sn), HeadAfter(st, cfg.wrap, i), HeadAfter(st, cfg.wrap, i) in st.food);
    assert st.food[k] !in sn.body;
  }

  /** The pellets left over lie on no survivor. */
  lemma FoodLeftIsClear(cfg: Config, st: State, p: Point)
    requires Sound(cfg, st) && Playable(st, cfg.wrap) && GrowthOk(st)
    requires p in FoodLeft(st, cfg.wrap, |st.snakes|, st.food)
    ensures st.arena.Contains(p) && !Occupied(Moved(st, cfg.wrap).snakes, p)
  {
    hide Moved, Dies, HeadAfter;
    var k :| 0 <= k < |st.food| && st.food[k] == p;
    var snakes := Moved(st, cfg.wrap).snakes;
    forall i | 0 <= i < |snakes| && snakes[i].alive
      ensures p !in snakes[i].body
    {
      assert Survives(st, cfg.wrap, i);
      assert p != HeadAfter(st, cfg.wrap, i);
      SurvivorOffFood(cfg, st, i, k);
    }
  }

  lemma {:induction false} FoodLeftDistinct(st: State, wrap: bool, n: nat, food: seq<Point>)
    requires Playable(st, wrap) && DistinctCells(food)
    ensures DistinctCells(FoodLeft(st, wrap, n, food))
  {
    if |food| > 0 {
      FoodLeftDistinct(st, wrap, n, food[..|food|-1]);
      var rest := FoodLeft(st, wrap, n, food[..|food|-1]);
      forall a | 0 <= a < |rest|
        ensures rest[a] != food[|food|-1]
      {
        assert rest[a] in food[..|food|-1];
      }
    }
  }

  ghost predicate GrowthOk(st: State) {
    forall i :: 0 <= i < |st.snakes| ==> st.snakes[i].grow >= 0
  }

  lemma MoveKeepsFood(cfg: Config, st: State, food: seq<Point>)
    requires Sound(cfg, st) && Playable(st, cfg.wrap) && GrowthOk(st)
    requires Replenished(Moved(st, cfg.wrap), cfg.foodCount, food)
    ensures FoodOk(Moved(st, cfg.wrap).(food := food))
  {
    var mid := Moved(st, cfg.wrap);
    FoodLeftDistinct(st, cfg.wrap, |st.snakes|, st.food);
    forall k | 0 <= k < |food|
      ensures mid.arena.Contains(food[k]) && !Occupied(mid.snakes, food[k])
    {
      if k < |mid.food| {
        assert food[k] == mid.food[k];
        FoodLeftIsClear(cfg, st, food[k]);
      }
    }
    forall a, b | 0 <= a < b < |food|
      ensures food[a] != food[b]
    {
      if b < |mid.food| {
        assert food[a] == mid.food[a] && food[b] == mid.food[b];
      } else {
        assert food[a] in food[..b];
      }
    }
  }

  lemma MoveKeepsSnakes(cfg: Config, st: State)
    requires Sound(cfg, st) && Playable(st, cfg.wrap) && GrowthOk(st)
    ensures var st' := Moved(st, cfg.wrap);
      && (forall i :: 0 <= i < |st'.snakes| ==> BodyOk(st.arena, cfg.wrap, st'.snakes[i].body))
      && (forall i :: Lives(st', i) ==> HeadingOk(st.arena, cfg.wrap, st'.snakes[i]))
      && GrowthOk(st')
  {
    var st' := Moved(st, cfg.wrap);
    forall i | 0 <= i < |st'.snakes|
      ensures BodyOk(st.arena, cfg.wrap, st'.snakes[i].body)
      ensures st'.snakes[i].alive ==> HeadingOk(st.arena, cfg.wrap, st'.snakes[i])
      ensures st'.snakes[i].grow >= 0
    {
      if Survives(st, cfg.wrap, i) {
        SurvivorSound(cfg, st, i);
      }
    }
  }

  lemma StillAlive(st: State, wrap: bool, i: int)
    requires Playable(st, wrap) && 0 <= i < |st.snakes| && Outcome(st, wrap, i).alive
    ensures Survives(st, wrap, i)
  {
  }

  lemma SameBodiesApart(s: Snake, t: Snake, s': Snake, t': Snake)
    requires Apart(s, t) && s'.body == s.body && t'.body == t.body
    ensures Apart(s', t')
  {
  }

  /** One simultaneous move keeps the geometry, whatever food is put down after it. */
  lemma MoveKeepsSound(cfg: Config, st: State, food: seq<Point>)
    requires Sound(cfg, st) && Playable(st, cfg.wrap) && GrowthOk(st)
    requires Replenished(Moved(st, cfg.wrap), cfg.foodCount, food)
    ensures Sound(cfg, Moved(st, cfg.wrap).(food := food))
    ensures GrowthOk(Moved(st, cfg.wrap))
  {
    hide Moved, Outcome, Dies, Replenished, BodyOk, HeadingOk, FoodOk, Apart;
    var st' := Moved(st, cfg.wrap).(food := food);
    MoveKeepsSnakes(cfg, st);
    MoveKeepsFood(cfg, st, food);
    forall i | Lives(st', i)
      ensures HeadingOk(st.arena, cfg.wrap, st'.snakes[i])
    {
      assert Lives(Moved(st, cfg.wrap), i);
    }
    forall i, j | Lives(st', i) && Lives(st', j) && i != j
      ensures Apart(st'.snakes[i], st'.snakes[j])
    {
      StillAlive(st, cfg.wrap, i);
      StillAlive(st, cfg.wrap, j);
      SurvivorsApart(cfg, st, i, j);
      SameBodiesApart(Outcome(st, cfg.wrap, i), Outcome(st, cfg.wrap, j), st'.snakes[i], st'.snakes[j]);
    }
  }

  // ---- When two living snakes come to share a cell ----

  ghost predicate Disjoint(s: seq<Point>, t: seq<Point>) {
    forall a, b :: 0 <= a < |s| && 0 <= b < |t| ==> s[a] != t[b]
  }

  /** Snake j steps onto the last cell of snake i, which was about to leave it, but eats and so
      keeps it. */
  ghost predicate OntoKeptTail(st: State, wrap: bool, j: int, i: int)
    requires Playable(st, wrap) && Lives(st, i) && Lives(st, j)
  {
    && HeadAfter(st, wrap, j) == st.snakes[i].body[|st.snakes[i].body| - 1]
    && st.snakes[i].grow == 0 && HeadAfter(st, wrap, i) in st.food
  }

  lemma SurvivorBody(st: State, wrap: bool, i: int)
    requires Playable(st, wrap) && Survives(st, wrap, i) && st.snakes[i].grow >= 0
    ensures var was, body := st.snakes[i].body, Outcome(st, wrap, i).body;
      && Moved(st, wrap).snakes[i].body == body && |was| <= |body| <= |was| + 1
      && body == [HeadAfter(st, wrap, i)] + was[..|body| - 1]
      && (|body| == |was| + 1 <==> st.snakes[i].grow > 0 || HeadAfter(st, wrap, i) in st.food)
  {
    hide Dies, HeadAfter;
    GrownBody(Turned(st.snakes[i]), HeadAfter(st, wrap, i), HeadAfter(st, wrap, i) in st.food);
  }

  lemma InFront(was: seq<Point>, m: int, p: Point)
    requires |was| > 0 && |was| - 1 <= m <= |was| && p !in was[..|was| - 1]
    ensures p in was[..m] <==> m == |was| && p == was[|was| - 1]
  {
    assert was == was[..|was| - 1] + [was[|was| - 1]];
    assert was[..|was|] == was;
  }

  lemma NobodyDiesThere(st: State, wrap: bool, i: int, j: int)
    requires Playable(st, wrap) && i != j && Survives(st, wrap, i) && Survives(st, wrap, j)
    ensures HeadAfter(st, wrap, j) != HeadAfter(st, wrap, i)
    ensures HeadAfter(st, wrap, j) !in SolidCells(st.snakes[i])
  {
    hide HeadAfter;
  }

  /** Where a survivor's new head meets the body of another that comes along. */
  lemma HeadMeetsTail(st: State, wrap: bool, i: int, j: int)
    requires Playable(st, wrap) && i != j && Survives(st, wrap, i) && Survives(st, wrap, j)
    requires st.snakes[i].grow >= 0
    ensures HeadAfter(st, wrap, j) in Outcome(st, wrap, i).body <==> OntoKeptTail(st, wrap, j, i)
  {
    hide Outcome, Dies, HeadAfter;
    var was, body, head := st.snakes[i].body, Outcome(st, wrap, i).body, HeadAfter(st, wrap, j);
    SurvivorBody(st, wrap, i);
    NobodyDiesThere(st, wrap, i, j);
    assert head in body <==> head in was[..|body| - 1];
    if st.snakes[i].grow == 0 {
      InFront(was, |body| - 1, head);
    } else {
      assert was[..|was|] == was;
    }
  }

  lemma NewBodiesMeet(s: seq<Point>, t: seq<Point>, head: Point, other: Point, m: nat, n: nat)
    requires Disjoint(s, t) && m <= |s| && n <= |t| && head != other
    ensures var s', t' := [head] + s[..m], [other] + t[..n];
      Disjoint(s', t') <==> head !in t' && other !in s'
  {
    var s', t' := [head] + s[..m], [other] + t[..n];
    assert s'[0] == head && t'[0] == other;
    if head !in t' && other !in s' {
      forall a, b | 0 <= a < |s'| && 0 <= b < |t'|
        ensures s'[a] != t'[b]
      {
        if a == 0 {
          assert t'[b] in t';
        } else if b == 0 {
          assert s'[a] in s';
        } else {
          assert s'[a] == s[a - 1] && t'[b] == t[b - 1];
        }
      }
    }
  }

  /** Two snakes that share no cell share one after the move exactly when one of them steps onto
      the tail of the other while that one eats. */
  lemma SharedCellIsATail(st: State, wrap: bool, i: int, j: int)
    requires Playable(st, wrap) && GrowthOk(st) && i != j
    requires Survives(st, wrap, i) && Survives(st, wrap, j)
    requires Disjoint(st.snakes[i].body, st.snakes[j].body)
    ensures var st' := Moved(st, wrap);
      Disjoint(st'.snakes[i].body, st'.snakes[j].body)
      <==> !OntoKeptTail(st, wrap, j, i) && !OntoKeptTail(st, wrap, i, j)
  {
    HeadMeetsTail(st, wrap, i, j);
    HeadMeetsTail(st, wrap, j, i);
    NobodyDiesThere(st, wrap, i, j);
    SurvivorBody(st, wrap, i);
    SurvivorBody(st, wrap, j);
    hide OntoKeptTail, Disjoint, Outcome, Dies, HeadAfter;
    NewBodiesMeet(st.snakes[i].body, st.snakes[j].body, HeadAfter(st, wrap, i), HeadAfter(st, wrap, j),
                  |Outcome(st, wrap, i).body| - 1, |Outcome(st, wrap, j).body| - 1);
  }
}
