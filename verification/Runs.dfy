/** What holds in every state of every run of the simulation. */
module Runs {
  import opened Types
  import opened Movement
  import opened Soundness
  import opened World
  import opened Bookkeeping

  /** A snake as `spawnSnake` leaves it: three cells in a straight line behind the head. */
  ghost predicate Spawned(arena: Rect, sn: Snake) {
    && |sn.body| == START_LENGTH
    && sn.dir <= LEFT
    && (forall k :: 0 <= k < START_LENGTH ==> arena.Contains(sn.body[k]))
    && (forall k :: 0 <= k < START_LENGTH - 1 ==>
          sn.body[k + 1] == Point(sn.body[k].x - Delta(sn.dir).x, sn.body[k].y - Delta(sn.dir).y))
    && sn == Snake(sn.id, sn.body, sn.dir, true, false, 0, 0, 0, START_LENGTH, -1, 0, sn.pending, false)
  }

  /** The state a match starts in. */
  ghost predicate Started(cfg: Config, w: World) {
    && cfg.Valid()
    && w.st.tick == 0 && !w.st.over && !w.finished && w.deathOrder == []
    && w.st.arena == cfg.Arena()
    && |w.st.snakes| > 0
    && SortedIds(w.st.snakes)
    && (forall i :: 0 <= i < |w.st.snakes| ==> Spawned(w.st.arena, w.st.snakes[i]))
    && (forall i, j :: 0 <= i < |w.st.snakes| && 0 <= j < |w.st.snakes| && i != j ==>
          Disjoint(w.st.snakes[i].body, w.st.snakes[j].body))
    && Replenished(w.st.(food := []), cfg.foodCount, w.st.food)
  }

  lemma SpawnedIsSound(cfg: Config, sn: Snake)
    requires cfg.Valid() && Spawned(cfg.Arena(), sn)
    ensures BodyOk(cfg.Arena(), cfg.wrap, sn.body)
    ensures HeadingOk(cfg.Arena(), cfg.wrap, sn)
  {
    var a := cfg.Arena();
    assert forall k :: 0 <= k < START_LENGTH - 1 ==> sn.body[k] == Ahead(a, cfg.wrap, sn.body[k + 1], sn.dir);
    assert sn.body[1] == Point(sn.body[0].x - Delta(sn.dir).x, sn.body[0].y - Delta(sn.dir).y);
    assert sn.body[2] == Point(sn.body[1].x - Delta(sn.dir).x, sn.body[1].y - Delta(sn.dir).y);
  }

  lemma StartedIsSound(cfg: Config, w: World)
    requires Started(cfg, w)
    ensures Sound(cfg, w.st)
  {
    hide BodyOk, HeadingOk;
    forall i | 0 <= i < |w.st.snakes|
      ensures BodyOk(w.st.arena, cfg.wrap, w.st.snakes[i].body)
      ensures HeadingOk(w.st.arena, cfg.wrap, w.st.snakes[i])
    {
      SpawnedIsSound(cfg, w.st.snakes[i]);
    }
    forall a, b | 0 <= a < b < |w.st.food|
      ensures w.st.food[a] != w.st.food[b]
    {
      assert w.st.food[a] in w.st.food[..b];
    }
    assert forall k :: 0 <= k < |w.st.food| ==> Free(w.st.(food := []), w.st.food[k]);
  }

  lemma {:induction false} AllAlive(snakes: seq<Snake>)
    requires forall i :: 0 <= i < |snakes| ==> snakes[i].alive && snakes[i].kills == 0
    ensures AliveCount(snakes) == |snakes| && TotalKills(snakes) == 0
  {
    if |snakes| > 0 {
      AllAlive(snakes[..|snakes|-1]);
    }
  }

  lemma StartedIsInv(cfg: Config, w: World)
    requires Started(cfg, w)
    ensures Inv(cfg, w)
  {
    StartedIsSound(cfg, w);
    AllAlive(w.st.snakes);
    assert forall i :: 0 <= i < |w.st.snakes| ==> GrowthLedger(w.st.snakes[i]);
  }

  lemma EliminationKeepsInv(cfg: Config, w: World, id: PlayerID)
    requires Inv(cfg, w)
    ensures Inv(cfg, Eliminated(w, id))
  {
    hide Ledger;
    EliminationKeepsLedger(w, id);
    var w' := Eliminated(w, id);
    forall i | Lives(w'.st, i)
      ensures Lives(w.st, i) && HeadingOk(w.st.arena, cfg.wrap, w'.st.snakes[i])
    {
      assert Lives(w.st, i);
    }
    SameBodiesSound(cfg, w.st, w'.st);
  }

  lemma TickedIsSound(cfg: Config, w: World)
    requires Sound(cfg, w.st)
    ensures Sound(cfg, Ticked(w).st)
  {
    SameBodiesSound(cfg, w.st, Ticked(w).st);
  }

  lemma MoveKeepsInv(cfg: Config, w: World, food: seq<Point>)
    requires Inv(cfg, w) && !w.finished && Playable(w.st, cfg.wrap)
    requires Replenished(Moved(w.st, cfg.wrap), cfg.foodCount, food)
    ensures Inv(cfg, AfterMove(cfg, w, food))
  {
    MoveKeepsLedger(cfg, w, food);
    MoveKeepsSoundBeforeRanking(cfg, w, food);
  }

  lemma MoveKeepsSoundBeforeRanking(cfg: Config, w: World, food: seq<Point>)
    requires Sound(cfg, w.st) && GrowthOk(w.st) && Playable(w.st, cfg.wrap)
    requires Replenished(Moved(w.st, cfg.wrap), cfg.foodCount, food)
    ensures Sound(cfg, AfterMove(cfg, w, food).st)
  {
    hide Moved, Rank, Replenished, FoodOk, BodyOk, HeadingOk, Apart;
    MoveKeepsSound(cfg, w.st, food);
    var st, st' := Moved(w.st, cfg.wrap).(food := food), AfterMove(cfg, w, food).st;
    forall i | Lives(st', i)
      ensures Lives(st, i) && HeadingOk(st.arena, cfg.wrap, st'.snakes[i])
    {
      assert Lives(st, i);
      SameHeading(st.arena, cfg.wrap, st.snakes[i], st'.snakes[i]);
    }
    SameBodiesSound(cfg, st, st');
  }

  lemma SameHeading(arena: Rect, wrap: bool, s: Snake, t: Snake)
    requires arena.Width() > 0 && arena.Height() > 0 && HeadingOk(arena, wrap, s)
    requires t == s.(placement := t.placement)
    ensures HeadingOk(arena, wrap, t)
  {
  }

  lemma NextKeepsInv(cfg: Config, w: World, a: Action, w': World)
    requires Inv(cfg, w) && Next(cfg, w, a, w')
    ensures Inv(cfg, w')
  {
    hide Ledger, Sound, Moved;
    match a
    case Steering(id, d) => SteerKeepsInv(cfg, w, id, d);
    case Coasting(id, c) => CoastKeepsInv(cfg, w, id, c);
    case Elimination(id) => EliminationKeepsInv(cfg, w, id);
    case Stepping =>
      TickKeepsLedger(w);
      TickedIsSound(cfg, w);
      if MovesNow(cfg, w) {
        OverIsFinished(w);
        MoveKeepsInv(cfg, Ticked(w), w'.st.food);
      }
  }

  lemma OverIsFinished(w: World)
    requires Ledger(w)
    ensures w.st.over == w.finished
  {
  }

  /** A run: any interleaving of inputs, connection changes, eliminations and ticks. */
  ghost predicate Run(cfg: Config, ws: seq<World>, actions: seq<Action>)
    requires cfg.Valid()
  {
    && |ws| == |actions| + 1
    && forall k :: 0 <= k < |actions| ==> Next(cfg, ws[k], actions[k], ws[k + 1])
  }

  lemma {:induction false} RunKeepsInv(cfg: Config, ws: seq<World>, actions: seq<Action>, k: nat)
    requires cfg.Valid() && Run(cfg, ws, actions) && Inv(cfg, ws[0]) && k < |ws|
    ensures Inv(cfg, ws[k])
  {
    hide Inv, Next;
    if k > 0 {
      RunKeepsInv(cfg, ws, actions, k - 1);
      NextKeepsInv(cfg, ws[k - 1], actions[k - 1], ws[k]);
    }
  }

  /** Every state of every match: geometry and books both hold. */
  lemma EveryReachableState(cfg: Config, ws: seq<World>, actions: seq<Action>, k: nat)
    requires cfg.Valid() && Run(cfg, ws, actions) && Started(cfg, ws[0]) && k < |ws|
    ensures Sound(cfg, ws[k].st) && Ledger(ws[k])
  {
    hide Sound, Ledger, Started, Run;
    StartedIsInv(cfg, ws[0]);
    RunKeepsInv(cfg, ws, actions, k);
  }

  lemma MovedCoasting(st: State, wrap: bool, i: int)
    requires Playable(st, wrap) && 0 <= i < |st.snakes|
    ensures Outcome(st, wrap, i).coasting == st.snakes[i].coasting
    ensures Outcome(st, wrap, i).hasPending ==> st.snakes[i].hasPending
  {
    hide Dies, HeadAfter;
  }

  lemma NextKeepsStraight(cfg: Config, w: World, a: Action, w': World)
    requires cfg.Valid() && CoastersGoStraight(w) && Next(cfg, w, a, w')
    ensures CoastersGoStraight(w')
  {
    hide Outcome, Doomed, Credits, Rank, Replenished, Playable, FoodLeft;
    if a.Stepping? && MovesNow(cfg, w) {
      forall i | 0 <= i < |w'.st.snakes|
        ensures w'.st.snakes[i].coasting == w.st.snakes[i].coasting
        ensures w'.st.snakes[i].hasPending ==> w.st.snakes[i].hasPending
      {
        MovedCoasting(Ticked(w).st, cfg.wrap, i);
      }
    }
  }

  /** In every run from the start of a match a snake whose client is silent keeps its heading,
      whatever was asked for before or is asked for still. */
  lemma {:induction false} CoastersNeverTurn(cfg: Config, ws: seq<World>, actions: seq<Action>, k: nat)
    requires cfg.Valid() && Run(cfg, ws, actions) && Started(cfg, ws[0]) && k < |ws|
    ensures CoastersGoStraight(ws[k])
  {
    hide Next, CoastersGoStraight, Started;
    if k > 0 {
      CoastersNeverTurn(cfg, ws, actions, k - 1);
      NextKeepsStraight(cfg, ws[k - 1], actions[k - 1], ws[k]);
    } else {
      StartGoesStraight(cfg, ws[0]);
    }
  }

  lemma StartGoesStraight(cfg: Config, w: World)
    requires Started(cfg, w)
    ensures CoastersGoStraight(w)
  {
    assert forall i :: 0 <= i < |w.st.snakes| ==> Spawned(w.st.arena, w.st.snakes[i]);
  }

  ghost predicate SamePlaces(w: World, w': World) {
    && w'.finished == w.finished && |w'.st.snakes| == |w.st.snakes|
    && forall i :: 0 <= i < |w.st.snakes| ==>
         w'.st.snakes[i].id == w.st.snakes[i].id && w'.st.snakes[i].placement == w.st.snakes[i].placement
  }

  lemma NextKeepsPlaces(cfg: Config, w: World, a: Action, w': World)
    requires cfg.Valid() && w.finished && w.st.over && Next(cfg, w, a, w')
    ensures SamePlaces(w, w') && w'.st.over
  {
  }

  /** Once a match is over its places stand, whatever is still sent to it. */
  lemma {:induction false} PlacesStand(cfg: Config, ws: seq<World>, actions: seq<Action>, j: nat, k: nat)
    requires cfg.Valid() && Run(cfg, ws, actions) && j <= k < |ws| && ws[j].finished && ws[j].st.over
    ensures SamePlaces(ws[j], ws[k]) && ws[k].st.over
    decreases k - j
  {
    hide Next;
    if j < k {
      PlacesStand(cfg, ws, actions, j, k - 1);
      NextKeepsPlaces(cfg, ws[k - 1], actions[k - 1], ws[k]);
    }
  }
}
