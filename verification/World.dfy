/**
 The whole state of a simulation, its transitions, and the books it keeps: growth, kills,
 the order of deaths and the placements.
 */
module World {
  import opened Types
  import opened Movement
  import opened Soundness

  datatype World = World(st: State, deathOrder: seq<PlayerID>, finished: bool)

  // ---- Ranking ----

  /** A lookup in the map from id to position in the death order; a missing key reads as 0. */
  function DeathIndex(order: seq<PlayerID>, id: PlayerID): (k: nat)
    ensures id in order ==> k < |order| && order[k] == id
    ensures forall j :: k < j < |order| ==> order[j] != id
  {
    if |order| == 0 then 0
    else if order[|order|-1] == id then |order| - 1
    else
      var k := DeathIndex(order[..|order|-1], id);
      assert id in order ==> id in order[..|order|-1];
      k
  }

  /** The comparison placements are sorted by. */
  predicate Before(snakes: seq<Snake>, order: seq<PlayerID>, i: int, j: int)
    requires 0 <= i < |snakes| && 0 <= j < |snakes|
  {
    var s, t := snakes[i], snakes[j];
    var sDeath, tDeath := DeathIndex(order, s.id), DeathIndex(order, t.id);
    if s.alive != t.alive then s.alive
    else if !s.alive && sDeath != tDeath then sDeath > tDeath
    else if s.maxLength != t.maxLength then s.maxLength > t.maxLength
    else s.id < t.id
  }

  ghost function Better(snakes: seq<Snake>, order: seq<PlayerID>, i: int): set<int>
    requires 0 <= i < |snakes|
  {
    set j | 0 <= j < |snakes| && Before(snakes, order, j, i)
  }

  /** One more than the number of snakes that rank ahead. */
  ghost function Rank(snakes: seq<Snake>, order: seq<PlayerID>, i: int): int
    requires 0 <= i < |snakes|
  {
    1 + |Better(snakes, order, i)|
  }

  ghost function Placed(snakes: seq<Snake>, order: seq<PlayerID>): (placed: seq<Snake>)
    ensures |placed| == |snakes|
    ensures forall i :: 0 <= i < |snakes| ==> placed[i] == snakes[i].(placement := Rank(snakes, order, i))
  {
    seq(|snakes|, i requires 0 <= i < |snakes| => snakes[i].(placement := Rank(snakes, order, i)))
  }

  // ---- Transitions ----

  /** The last snake standing, or death in a match played alone. */
  predicate Decided(snakes: seq<Snake>) {
    !((|snakes| > 1 && AliveCount(snakes) > 1) || (|snakes| == 1 && AliveCount(snakes) > 0))
  }

  ghost function CheckedOver(w: World): World {
    if w.finished || !Decided(w.st.snakes) then w
    else World(w.st.(over := true, snakes := Placed(w.st.snakes, w.deathOrder)), w.deathOrder, true)
  }

  function Steer(w: World, id: PlayerID, d: Direction): World {
    var k := SnakeIndex(w.st.snakes, id);
    if k < 0 then w else w.(st := w.st.(snakes := w.st.snakes[k := Steered(w.st.snakes[k], d)]))
  }

  function CoastingSet(sn: Snake, coasting: bool): Snake {
    sn.(coasting := coasting, hasPending := sn.hasPending && !coasting)
  }

  function Coast(w: World, id: PlayerID, coasting: bool): World {
    var k := SnakeIndex(w.st.snakes, id);
    if k < 0 then w else w.(st := w.st.(snakes := w.st.snakes[k := CoastingSet(w.st.snakes[k], coasting)]))
  }

  function Killed(w: World, k: int): World
    requires 0 <= k < |w.st.snakes|
  {
    var sn := w.st.snakes[k];
    World(w.st.(snakes := w.st.snakes[k := sn.(alive := false, diedAtTick := w.st.tick)]),
          w.deathOrder + [sn.id], w.finished)
  }

  ghost function Eliminated(w: World, id: PlayerID): World {
    var k := SnakeIndex(w.st.snakes, id);
    if k < 0 || !w.st.snakes[k].alive then w else CheckedOver(Killed(w, k))
  }

  ghost function IdsOf(snakes: seq<Snake>, indices: seq<int>): (ids: seq<PlayerID>)
    requires forall k :: 0 <= k < |indices| ==> 0 <= indices[k] < |snakes|
    ensures |ids| == |indices| && forall k :: 0 <= k < |ids| ==> ids[k] == snakes[indices[k]].id
  {
    seq<PlayerID>(|indices|, k requires 0 <= k < |indices| => snakes[indices[k]].id)
  }

  /** The move and everything it decides; only the food put down is left open. */
  ghost function AfterMove(cfg: Config, w: World, food: seq<Point>): World
    requires Playable(w.st, cfg.wrap)
  {
    var dead := IdsOf(w.st.snakes, Doomed(w.st, cfg.wrap, |w.st.snakes|));
    CheckedOver(World(Moved(w.st, cfg.wrap).(food := food), w.deathOrder + dead, w.finished))
  }

  function Ticked(w: World): World {
    w.(st := w.st.(tick := w.st.tick + 1))
  }

  predicate MovesNow(cfg: Config, w: World)
    requires cfg.Valid()
  {
    !w.st.over && (w.st.tick + 1) % cfg.ticksPerMove == 0
  }

  ghost predicate Stepped(cfg: Config, w: World, w': World)
    requires cfg.Valid()
  {
    var t := Ticked(w);
    if !MovesNow(cfg, w) then w' == t
    else
      && Playable(t.st, cfg.wrap)
      && Replenished(Moved(t.st, cfg.wrap), cfg.foodCount, w'.st.food)
      && w' == AfterMove(cfg, t, w'.st.food)
  }

  datatype Action =
    | Steering(id: PlayerID, dir: Direction)
    | Coasting(id: PlayerID, coasting: bool)
    | Elimination(id: PlayerID)
    | Stepping

  ghost predicate Next(cfg: Config, w: World, a: Action, w': World)
    requires cfg.Valid()
  {
    match a
    case Steering(id, d) => w' == Steer(w, id, d)
    case Coasting(id, c) => w' == Coast(w, id, c)
    case Elimination(id) => w' == Eliminated(w, id)
    case Stepping => Stepped(cfg, w, w')
  }

  /** While it coasts a snake has nothing queued, so it goes straight on. */
  ghost predicate CoastersGoStraight(w: World) {
    forall i :: 0 <= i < |w.st.snakes| && w.st.snakes[i].coasting ==>
      !w.st.snakes[i].hasPending && Turned(w.st.snakes[i]).dir == w.st.snakes[i].dir
  }

  // ---- The books ----

  function TotalKills(snakes: seq<Snake>): int {
    if |snakes| == 0 then 0
    else TotalKills(snakes[..|snakes|-1]) + snakes[|snakes|-1].kills
  }

  ghost predicate SortedIds(snakes: seq<Snake>) {
    forall i, j :: 0 <= i < j < |snakes| ==> snakes[i].id < snakes[j].id
  }

  /** Every segment ever gained is accounted for: three to start with, two a pellet. */
  ghost predicate GrowthLedger(sn: Snake) {
    && sn.grow >= 0 && sn.score >= 0
    && |sn.body| + sn.grow == START_LENGTH + 2 * sn.score
    && sn.maxLength == |sn.body|
  }

  ghost predicate DeadIn(snakes: seq<Snake>, id: PlayerID) {
    var k := SnakeIndex(snakes, id);
    k >= 0 && !snakes[k].alive
  }

  ghost function DiedAt(snakes: seq<Snake>, id: PlayerID): int
    requires DeadIn(snakes, id)
  {
    snakes[SnakeIndex(snakes, id)].diedAtTick
  }

  /** The death order holds exactly the dead, once each, by time of death. */
  ghost predicate DeathsOk(w: World) {
    && (forall a, b :: 0 <= a < b < |w.deathOrder| ==> w.deathOrder[a] != w.deathOrder[b])
    && (forall a :: 0 <= a < |w.deathOrder| ==> DeadIn(w.st.snakes, w.deathOrder[a]))
    && (forall i :: 0 <= i < |w.st.snakes| && !w.st.snakes[i].alive ==> w.st.snakes[i].id in w.deathOrder)
    && (forall a, b :: 0 <= a < b < |w.deathOrder| ==>
          DiedAt(w.st.snakes, w.deathOrder[a]) <= DiedAt(w.st.snakes, w.deathOrder[b]))
  }

  ghost predicate ClockOk(w: World) {
    forall i :: 0 <= i < |w.st.snakes| ==>
      var sn := w.st.snakes[i];
      if sn.alive then sn.diedAtTick == -1 else 0 <= sn.diedAtTick <= w.st.tick
  }

  ghost predicate PlacementsOk(w: World) {
    forall i :: 0 <= i < |w.st.snakes| ==>
      w.st.snakes[i].placement == if w.finished then Rank(w.st.snakes, w.deathOrder, i) else 0
  }

  ghost predicate Books(w: World) {
    && w.st.tick >= 0
    && |w.st.snakes| > 0
    && SortedIds(w.st.snakes)
    && (forall i :: 0 <= i < |w.st.snakes| ==> GrowthLedger(w.st.snakes[i]))
    && TotalKills(w.st.snakes) <= |w.deathOrder|
    && DeathsOk(w)
    && ClockOk(w)
    && w.st.over == w.finished
    && PlacementsOk(w)
  }

  ghost predicate Ledger(w: World) {
    Books(w) && w.finished == Decided(w.st.snakes)
  }

  ghost predicate Inv(cfg: Config, w: World) {
    Sound(cfg, w.st) && Ledger(w)
  }

  // ---- Lemmas about the parts ----

  lemma {:induction false} SameIdsSameIndex(s: seq<Snake>, t: seq<Snake>, id: PlayerID)
    requires |s| == |t| && forall i :: 0 <= i < |s| ==> s[i].id == t[i].id
    ensures SnakeIndex(s, id) == SnakeIndex(t, id)
  {
    if |s| > 0 {
      SameIdsSameIndex(s[1..], t[1..], id);
    }
  }

  lemma {:induction false} FewerAlive(s: seq<Snake>, t: seq<Snake>)
    requires |s| == |t| && forall i :: 0 <= i < |s| && t[i].alive ==> s[i].alive
    ensures AliveCount(t) <= AliveCount(s)
  {
    if |s| > 0 {
      FewerAlive(s[..|s|-1], t[..|t|-1]);
    }
  }

  lemma {:induction false} SameKills(s: seq<Snake>, t: seq<Snake>)
    requires |s| == |t| && forall i :: 0 <= i < |s| ==> s[i].kills == t[i].kills
    ensures TotalKills(s) == TotalKills(t)
  {
    if |s| > 0 {
      SameKills(s[..|s|-1], t[..|t|-1]);
    }
  }

  lemma SameOrderSameRank(s: seq<Snake>, o: seq<PlayerID>, t: seq<Snake>, q: seq<PlayerID>, i: int)
    requires |s| == |t| && 0 <= i < |s|
    requires forall j :: 0 <= j < |s| ==> Before(s, o, j, i) == Before(t, q, j, i)
    ensures Rank(s, o, i) == Rank(t, q, i)
  {
    assert Better(s, o, i) == Better(t, q, i);
  }

  /** Nothing the ranking looks at differs. */
  ghost predicate SameRecord(s: Snake, t: Snake) {
    s.id == t.id && s.alive == t.alive && s.maxLength == t.maxLength
  }

  lemma SameRecordsSameRanks(s: seq<Snake>, t: seq<Snake>, o: seq<PlayerID>)
    requires |s| == |t| && forall i :: 0 <= i < |s| ==> SameRecord(s[i], t[i])
    ensures forall i :: 0 <= i < |s| ==> Rank(s, o, i) == Rank(t, o, i)
  {
    forall i | 0 <= i < |s|
      ensures Rank(s, o, i) == Rank(t, o, i)
    {
      SameOrderSameRank(s, o, t, o, i);
    }
  }

  // ---- Steering and coasting change nothing that is booked ----

  ghost predicate OnlyInputDiffers(s: Snake, t: Snake) {
    t == s.(coasting := t.coasting, pending := t.pending, hasPending := t.hasPending)
  }

  lemma InputKeepsDeaths(w: World, w': World)
    requires DeathsOk(w) && |w'.st.snakes| == |w.st.snakes| && w'.deathOrder == w.deathOrder
    requires forall i :: 0 <= i < |w.st.snakes| ==> OnlyInputDiffers(w.st.snakes[i], w'.st.snakes[i])
    ensures DeathsOk(w')
  {
    forall id: PlayerID
      ensures SnakeIndex(w.st.snakes, id) == SnakeIndex(w'.st.snakes, id)
    {
      SameIdsSameIndex(w.st.snakes, w'.st.snakes, id);
    }
  }

  lemma InputKeepsPlacements(w: World, w': World)
    requires PlacementsOk(w) && |w'.st.snakes| == |w.st.snakes|
    requires w'.deathOrder == w.deathOrder && w'.finished == w.finished
    requires forall i :: 0 <= i < |w.st.snakes| ==> OnlyInputDiffers(w.st.snakes[i], w'.st.snakes[i])
    ensures PlacementsOk(w')
  {
    SameRecordsSameRanks(w.st.snakes, w'.st.snakes, w.deathOrder);
  }

  lemma InputKeepsLedger(w: World, w': World)
    requires Ledger(w) && |w'.st.snakes| == |w.st.snakes|
    requires w' == w.(st := w.st.(snakes := w'.st.snakes))
    requires forall i :: 0 <= i < |w.st.snakes| ==> OnlyInputDiffers(w.st.snakes[i], w'.st.snakes[i])
    ensures Ledger(w')
  {
    hide DeathsOk, PlacementsOk;
    var s, t := w.st.snakes, w'.st.snakes;
    InputKeepsDeaths(w, w');
    InputKeepsPlacements(w, w');
    FewerAlive(s, t);
    FewerAlive(t, s);
    SameKills(s, t);
    assert forall i :: 0 <= i < |s| ==> GrowthLedger(t[i]);
    assert SortedIds(t);
    assert ClockOk(w');
  }

  /** Bodies and food unchanged, nobody revived, headings still right. */
  lemma SameBodiesSound(cfg: Config, st: State, st': State)
    requires Sound(cfg, st) && |st'.snakes| == |st.snakes| && st'.arena == st.arena && st'.food == st.food
    requires forall i :: 0 <= i < |st.snakes| ==> st'.snakes[i].body == st.snakes[i].body
    requires forall i :: Lives(st', i) ==> Lives(st, i) && HeadingOk(st.arena, cfg.wrap, st'.snakes[i])
    ensures Sound(cfg, st')
  {
    forall i, j | Lives(st', i) && Lives(st', j) && i != j
      ensures Apart(st'.snakes[i], st'.snakes[j])
    {
      assert Lives(st, i) && Lives(st, j);
    }
    forall k | 0 <= k < |st.food|
      ensures !Occupied(st'.snakes, st.food[k])
    {
      assert !Occupied(st.snakes, st.food[k]);
    }
  }

  lemma SteerKeepsInv(cfg: Config, w: World, id: PlayerID, d: Direction)
    requires Inv(cfg, w)
    ensures Inv(cfg, Steer(w, id, d))
  {
    hide Ledger, FoodOk, Apart, BodyOk, HeadingOk, Ahead;
    var w' := Steer(w, id, d);
    InputKeepsLedger(w, w');
    forall i | Lives(w'.st, i)
      ensures HeadingOk(w.st.arena, cfg.wrap, w'.st.snakes[i])
    {
      assert Lives(w.st, i);
      SteeringKeepsHeading(w.st.arena, cfg.wrap, w.st.snakes[i], d);
    }
    SameBodiesSound(cfg, w.st, w'.st);
  }

  lemma CoastingKeepsHeading(arena: Rect, wrap: bool, sn: Snake, c: bool)
    requires arena.Width() > 0 && arena.Height() > 0 && HeadingOk(arena, wrap, sn)
    ensures HeadingOk(arena, wrap, CoastingSet(sn, c))
  {
  }

  lemma CoastKeepsInv(cfg: Config, w: World, id: PlayerID, c: bool)
    requires Inv(cfg, w)
    ensures Inv(cfg, Coast(w, id, c))
  {
    hide Ledger, FoodOk, Apart, BodyOk, HeadingOk, Ahead;
    var w' := Coast(w, id, c);
    InputKeepsLedger(w, w');
    forall i | Lives(w'.st, i)
      ensures HeadingOk(w.st.arena, cfg.wrap, w'.st.snakes[i])
    {
      assert Lives(w.st, i);
      CoastingKeepsHeading(w.st.arena, cfg.wrap, w.st.snakes[i], c);
    }
    SameBodiesSound(cfg, w.st, w'.st);
  }
}
