/** Client-side prediction of one move (internal/game/predict.go). */
module Prediction {
  import opened Types
  import opened Movement
  import opened Soundness
  import opened World
  import opened Bookkeeping
  import opened Runs

  /** The source divides by the arena's sides when it wraps, so it needs them positive. */
  function Predict(st: State, cfg: Config, id: PlayerID, d: Direction): (out: State)
    requires cfg.wrap ==> st.arena.Width() > 0 && st.arena.Height() > 0
    ensures out == st.(snakes := out.snakes) && |out.snakes| == |st.snakes|
  {
    var k := SnakeIndex(st.snakes, id);
    if st.over || k < 0 || !st.snakes[k].alive || st.snakes[k].coasting || |st.snakes[k].body| == 0 || d > LEFT then st
    else
      var sn := st.snakes[k];
      var dir := if |sn.body| > 1 && d == Opposite(sn.dir) then sn.dir else d;
      var head := Point(sn.body[0].x + Delta(dir).x, sn.body[0].y + Delta(dir).y);
      if !st.arena.Contains(head) && !cfg.wrap then st.(snakes := st.snakes[k := sn.(dir := dir)])
      else
        var cell := if st.arena.Contains(head) then head else WrapInto(head, st.arena);
        st.(snakes := st.snakes[k := sn.(dir := dir, body := ([cell] + sn.body)[..|sn.body|])])
  }

  /** The state now shown, and the state the host moves from: the player's input has
      arrived, and about the other snakes nothing at all is assumed. */
  ghost predicate InputArrived(shown: State, now: State, k: int, d: Direction) {
    && Lives(shown, k) && k < |now.snakes| && now.arena == shown.arena
    && !shown.snakes[k].coasting && !shown.snakes[k].hasPending
    && now.snakes[k] == Steered(shown.snakes[k], d)
  }

  lemma PredictedHead(cfg: Config, shown: State, now: State, k: int, d: Direction)
    requires Sound(cfg, shown) && DistinctIds(shown.snakes) && !shown.over
    requires d <= LEFT && InputArrived(shown, now, k, d) && Playable(now, cfg.wrap)
    requires cfg.wrap || now.arena.Contains(HeadAfter(now, cfg.wrap, k))
    ensures var guess := Predict(shown, cfg, shown.snakes[k].id, d).snakes[k];
      && guess.dir == Turned(now.snakes[k]).dir
      && guess.body == [HeadAfter(now, cfg.wrap, k)] + shown.snakes[k].body[..|shown.snakes[k].body| - 1]
  {
    hide FoodOk, Apart, Occupied;
    IndexOfMember(shown.snakes, k);
    assert BodyOk(shown.arena, cfg.wrap, shown.snakes[k].body);
  }

  /** The heading is right, and so is the body up to the tail that growing keeps: exactly
      right when no growth was due and no pellet was eaten. */
  ghost predicate RightGuess(guess: Snake, before: Snake, food: seq<Point>, after: Snake) {
    && guess.dir == after.dir
    && 0 < |guess.body| <= |after.body|
    && guess.body == after.body[..|guess.body|]
    && (guess.body == after.body <==> before.grow == 0 && guess.body[0] !in food)
  }

  /** If the snake survives the move, the guess was right. */
  lemma PredictionIsRight(cfg: Config, shown: State, v: World, w: World, k: int, d: Direction)
    requires cfg.Valid() && shown.arena == cfg.Arena() && Lives(shown, k) && k < |v.st.snakes|
    requires Sound(cfg, shown) && DistinctIds(shown.snakes) && !shown.over && d <= LEFT
    requires Inv(cfg, v) && Stepped(cfg, v, w) && MovesNow(cfg, v)
    requires InputArrived(shown, v.st, k, d) && Lives(w.st, k)
    ensures RightGuess(Predict(shown, cfg, shown.snakes[k].id, d).snakes[k], v.st.snakes[k], v.st.food, w.st.snakes[k])
  {
    hide Sound, Inv, Dies, Stepped, BodyOk, Predict, HeadAfter, Grown, Playable, DistinctIds;
    var st := Ticked(v).st;
    SurvivorOf(cfg, v, w, k);
    PredictedHead(cfg, shown, st, k, d);
    GuessAgainstGrown(st.snakes[k], HeadAfter(st, cfg.wrap, k), HeadAfter(st, cfg.wrap, k) in st.food,
                      Predict(shown, cfg, shown.snakes[k].id, d).snakes[k].body);
  }

  lemma SurvivorOf(cfg: Config, v: World, w: World, k: int)
    requires cfg.Valid() && Inv(cfg, v) && Stepped(cfg, v, w) && MovesNow(cfg, v)
    requires 0 <= k < |v.st.snakes| && Lives(w.st, k)
    ensures var st := Ticked(v).st;
      && Playable(st, cfg.wrap) && Survives(st, cfg.wrap, k) && st.snakes[k].grow >= 0
      && st.arena.Contains(HeadAfter(st, cfg.wrap, k))
      && w.st.snakes[k].body == Outcome(st, cfg.wrap, k).body
      && w.st.snakes[k].dir == Turned(st.snakes[k]).dir && |st.snakes[k].body| > 0
  {
    hide Dies, HeadAfter, Sound, Ledger;
    TickedIsSound(cfg, v);
    SoundIsPlayable(cfg, Ticked(v).st);
    GrowIsNatural(v, k);
    StillThere(cfg, v, w, k);
    SurvivorArrives(cfg, Ticked(v).st, k);
  }

  lemma GuessAgainstGrown(sn: Snake, head: Point, ate: bool, guess: seq<Point>)
    requires |sn.body| > 0 && sn.grow >= 0
    requires guess == [head] + sn.body[..|sn.body| - 1]
    ensures var body := Grown(Turned(sn), head, ate).body;
      && |guess| <= |body| && guess == body[..|guess|]
      && (guess == body <==> sn.grow == 0 && !ate)
  {
    GrownBody(Turned(sn), head, ate);
  }

  lemma GrowIsNatural(w: World, k: int)
    requires Ledger(w) && 0 <= k < |w.st.snakes|
    ensures w.st.snakes[k].grow >= 0
  {
    assert GrowthLedger(w.st.snakes[k]);
  }

  lemma StillThere(cfg: Config, v: World, w: World, k: int)
    requires cfg.Valid() && Stepped(cfg, v, w) && MovesNow(cfg, v) && 0 <= k < |v.st.snakes|
    requires Playable(Ticked(v).st, cfg.wrap) && k < |w.st.snakes| && w.st.snakes[k].alive
    ensures Survives(Ticked(v).st, cfg.wrap, k)
    ensures w.st.snakes[k].body == Outcome(Ticked(v).st, cfg.wrap, k).body
    ensures w.st.snakes[k].dir == Outcome(Ticked(v).st, cfg.wrap, k).dir
  {
    hide Dies, HeadAfter, Replenished;
  }

  lemma SurvivorArrives(cfg: Config, st: State, k: int)
    requires Playable(st, cfg.wrap) && Survives(st, cfg.wrap, k)
    ensures st.arena.Contains(HeadAfter(st, cfg.wrap, k))
  {
  }

  /** Prediction touches one snake's body and heading and nothing else, and never reverses. */
  lemma PredictionTouchesOneSnake(st: State, cfg: Config, id: PlayerID, d: Direction, j: int)
    requires cfg.wrap ==> st.arena.Width() > 0 && st.arena.Height() > 0
    ensures var out := Predict(st, cfg, id, d);
      (0 <= j < |st.snakes| ==>
            && out.snakes[j] == st.snakes[j].(body := out.snakes[j].body, dir := out.snakes[j].dir)
            && |out.snakes[j].body| == |st.snakes[j].body|
            && (j != SnakeIndex(st.snakes, id) ==> out.snakes[j] == st.snakes[j])
            && (|st.snakes[j].body| > 1 && st.snakes[j].dir <= LEFT ==>
                  out.snakes[j].dir != Opposite(st.snakes[j].dir)))
  {
  }

  /** The way a snake is turned at once: as asked for, unless that is back. */
  function TurnedAtOnce(sn: Snake, d: Direction): Direction {
    if |sn.body| > 1 && d == Opposite(sn.dir) then sn.dir else d
  }

  /** A predicted head is in the arena if the one shown is. A step out of a walled arena only turns the
      snake; any other is taken, and the body follows. */
  lemma PredictionStaysInside(st: State, cfg: Config, k: nat, d: Direction)
    requires cfg.wrap ==> st.arena.Width() > 0 && st.arena.Height() > 0
    requires DistinctIds(st.snakes) && Lives(st, k) && !st.over && !st.snakes[k].coasting && d <= LEFT
    requires |st.snakes[k].body| > 0 && st.arena.Contains(st.snakes[k].body[0])
    ensures var sn := st.snakes[k]; var out := Predict(st, cfg, sn.id, d).snakes[k];
      var dir := TurnedAtOnce(sn, d);
      var next := Point(sn.body[0].x + Delta(dir).x, sn.body[0].y + Delta(dir).y);
      && |out.body| > 0 && st.arena.Contains(out.body[0]) && out.dir == dir
      && (if !cfg.wrap && !st.arena.Contains(next) then out.body == sn.body
          else out.body == [Ahead(st.arena, cfg.wrap, sn.body[0], dir)] + sn.body[..|sn.body|-1])
  {
    IndexOfMember(st.snakes, k);
    AheadAxis(st.arena, cfg.wrap, st.snakes[k].body[0], TurnedAtOnce(st.snakes[k], d));
    var sn, cell := st.snakes[k], Ahead(st.arena, cfg.wrap, st.snakes[k].body[0], TurnedAtOnce(st.snakes[k], d));
    assert ([cell] + sn.body)[..|sn.body|] == [cell] + sn.body[..|sn.body|-1];
  }
}
