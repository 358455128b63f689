/** A walled match that nobody steers any more comes to its end. */
module Walled {
  import opened Types
  import opened Movement
  import opened Soundness
  import opened World
  import opened Bookkeeping
  import opened Runs

  /** Cells between a head and the wall it is heading for. */
  function ToWall(arena: Rect, sn: Snake): int
    requires |sn.body| > 0
  {
    match sn.dir
    case 0 => sn.body[0].y - arena.y0
    case 1 => arena.x1 - sn.body[0].x
    case 2 => arena.y1 - sn.body[0].y
    case _ => sn.body[0].x - arena.x0
  }

  function LongerSide(cfg: Config): int {
    if cfg.width > cfg.height then cfg.width else cfg.height
  }

  ghost predicate NothingQueued(w: World) {
    forall i :: Lives(w.st, i) ==> !w.st.snakes[i].hasPending
  }

  /** Every living snake is at most d cells from its wall. */
  ghost predicate Within(w: World, d: int) {
    forall i :: Lives(w.st, i) ==> |w.st.snakes[i].body| > 0 && ToWall(w.st.arena, w.st.snakes[i]) <= d
  }

  lemma AlwaysWithin(cfg: Config, w: World)
    requires Sound(cfg, w.st)
    ensures Within(w, LongerSide(cfg) - 1)
  {
    forall i | Lives(w.st, i)
      ensures |w.st.snakes[i].body| > 0 && ToWall(w.st.arena, w.st.snakes[i]) <= LongerSide(cfg) - 1
    {
      assert BodyOk(w.st.arena, cfg.wrap, w.st.snakes[i].body);
    }
  }

  lemma NotBeyondTheWall(cfg: Config, w: World, d: int)
    requires Sound(cfg, w.st) && Within(w, d) && d < 0
    ensures forall i :: 0 <= i < |w.st.snakes| ==> !w.st.snakes[i].alive
  {
    assert forall i :: Lives(w.st, i) ==> BodyOk(w.st.arena, cfg.wrap, w.st.snakes[i].body);
  }

  /** A survivor that does not turn is one cell nearer to its wall. */
  lemma OneCellNearer(cfg: Config, st: State, i: int)
    requires Sound(cfg, st) && !cfg.wrap && Playable(st, cfg.wrap) && Survives(st, cfg.wrap, i)
    requires !st.snakes[i].hasPending
    ensures var sn' := Outcome(st, cfg.wrap, i);
      && |st.snakes[i].body| > 0 && |sn'.body| > 0 && !sn'.hasPending
      && ToWall(st.arena, sn') == ToWall(st.arena, st.snakes[i]) - 1
  {
    hide Dies;
    assert HeadingOk(st.arena, cfg.wrap, st.snakes[i]);
  }

  lemma MovedNearer(cfg: Config, st: State, i: int, sn': Snake)
    requires Sound(cfg, st) && !cfg.wrap && Playable(st, cfg.wrap) && 0 <= i < |st.snakes|
    requires Lives(st, i) ==> !st.snakes[i].hasPending
    requires sn'.(placement := 0) == MovedSnake(st, cfg.wrap, i).(placement := 0) && sn'.alive
    ensures Lives(st, i) && |st.snakes[i].body| > 0 && |sn'.body| > 0 && !sn'.hasPending
    ensures ToWall(st.arena, sn') == ToWall(st.arena, st.snakes[i]) - 1
  {
    hide Sound, Dies, HeadAfter;
    OneCellNearer(cfg, st, i);
  }

  lemma StepNearer(cfg: Config, w: World, w': World, d: int)
    requires Inv(cfg, w) && !cfg.wrap && Stepped(cfg, w, w') && NothingQueued(w) && Within(w, d)
    ensures NothingQueued(w') && Within(w', if MovesNow(cfg, w) then d - 1 else d)
  {
    if MovesNow(cfg, w) {
      var t := Ticked(w);
      TickedIsSound(cfg, w);
      hide Sound, Ledger, MovedSnake, Moved, Replenished, Playable, ToWall;
      forall i | Lives(w'.st, i)
        ensures !w'.st.snakes[i].hasPending
        ensures |w'.st.snakes[i].body| > 0 && ToWall(w'.st.arena, w'.st.snakes[i]) <= d - 1
      {
        assert w'.st.snakes[i].(placement := 0) == MovedSnake(t.st, cfg.wrap, i).(placement := 0);
        assert Lives(t.st, i) ==> Lives(w.st, i);
        MovedNearer(cfg, t.st, i, w'.st.snakes[i]);
      }
    }
  }

  /** How many of the ticks after t up to t + k are ticks on which snakes move. */
  function MovesBetween(t: int, k: nat, every: int): nat
    requires every > 0
  {
    if k == 0 then 0 else MovesBetween(t, k - 1, every) + (if (t + k) % every == 0 then 1 else 0)
  }

  lemma QuotientStep(t: int, every: int)
    requires every > 0
    ensures (t + 1) / every == t / every + (if (t + 1) % every == 0 then 1 else 0)
  {
    var q, r := t / every, t % every;
    assert t + 1 == q * every + (r + 1);
    if r + 1 == every {
      assert t + 1 == (q + 1) * every;
      QuotientUnique(t + 1, every, q + 1, 0);
    } else {
      QuotientUnique(t + 1, every, q, r + 1);
    }
  }

  lemma QuotientUnique(t: int, every: int, q: int, r: int)
    requires every > 0 && 0 <= r < every && t == q * every + r
    ensures t / every == q && t % every == r
  {
    assert (t / every - q) * every == r - t % every;
    SmallMultiple(t / every - q, every);
  }

  lemma {:induction false} MovesAreQuotients(t: int, k: nat, every: int)
    requires every > 0
    ensures MovesBetween(t, k, every) == (t + k) / every - t / every
  {
    if k > 0 {
      MovesAreQuotients(t, k - 1, every);
      QuotientStep(t + k - 1, every);
    }
  }

  lemma MovesInRounds(t: int, rounds: nat, every: int)
    requires every > 0
    ensures MovesBetween(t, rounds * every, every) == rounds
  {
    MovesAreQuotients(t, rounds * every, every);
    QuotientUnique(t + rounds * every, every, t / every + rounds, t % every);
  }

  ghost predicate OnlyTicks(actions: seq<Action>) {
    forall k :: 0 <= k < |actions| ==> actions[k] == Stepping
  }

  lemma OverStays(cfg: Config, w: World, w': World)
    requires cfg.Valid() && Stepped(cfg, w, w') && w.st.over
    ensures w'.st.over
  {
  }

  /** After k ticks from tick t the match is over, or everybody is that many moves nearer. */
  ghost predicate Closing(cfg: Config, w: World, t: int, k: nat)
    requires cfg.Valid()
  {
    && Inv(cfg, w) && NothingQueued(w)
    && (w.st.over ||
        (w.st.tick == t + k && Within(w, LongerSide(cfg) - 1 - MovesBetween(t, k, cfg.ticksPerMove))))
  }

  lemma ClosingStep(cfg: Config, w: World, w': World, t: int, k: nat)
    requires cfg.Valid() && !cfg.wrap && Closing(cfg, w, t, k) && Next(cfg, w, Stepping, w')
    ensures Closing(cfg, w', t, k + 1)
  {
    hide Inv, Within, NothingQueued, Stepped;
    NextKeepsInv(cfg, w, Stepping, w');
    WithinSomething(cfg, w);
    StepNearer(cfg, w, w', LongerSide(cfg) - 1);
    if w.st.over {
      OverStays(cfg, w, w');
    } else {
      StepNearer(cfg, w, w', LongerSide(cfg) - 1 - MovesBetween(t, k, cfg.ticksPerMove));
      SteppedClock(cfg, w, w');
    }
  }

  lemma {:induction false} ClosingThroughout(cfg: Config, ws: seq<World>, actions: seq<Action>, k: nat)
    requires cfg.Valid() && !cfg.wrap && Run(cfg, ws, actions) && OnlyTicks(actions) && k < |ws|
    requires Inv(cfg, ws[0]) && NothingQueued(ws[0])
    ensures Closing(cfg, ws[k], ws[0].st.tick, k)
  {
    if k == 0 {
      hide Inv, NothingQueued, Within;
      WithinSomething(cfg, ws[0]);
    } else {
      hide Closing, Next, Inv, NothingQueued;
      ClosingThroughout(cfg, ws, actions, k - 1);
      ClosingStep(cfg, ws[k - 1], ws[k], ws[0].st.tick, k - 1);
    }
  }

  lemma WithinSomething(cfg: Config, w: World)
    requires Inv(cfg, w)
    ensures Within(w, LongerSide(cfg) - 1)
  {
    hide Ledger;
    AlwaysWithin(cfg, w);
  }

  lemma SteppedClock(cfg: Config, w: World, w': World)
    requires cfg.Valid() && Stepped(cfg, w, w')
    ensures w'.st.tick == w.st.tick + 1
  {
    hide Moved, Replenished;
  }

  lemma {:induction false} NobodyAlive(snakes: seq<Snake>)
    requires forall i :: 0 <= i < |snakes| ==> !snakes[i].alive
    ensures AliveCount(snakes) == 0
  {
    if |snakes| > 0 {
      NobodyAlive(snakes[..|snakes|-1]);
    }
  }

  lemma NobodyAliveIsOver(cfg: Config, w: World)
    requires Inv(cfg, w) && Within(w, -1)
    ensures w.st.over
  {
    NotBeyondTheWall(cfg, w, -1);
    NobodyAlive(w.st.snakes);
  }

  lemma ClosedAfterRounds(cfg: Config, w: World, t: int, rounds: nat, ticks: nat)
    requires cfg.Valid() && rounds == LongerSide(cfg) && ticks == rounds * cfg.ticksPerMove
    requires Closing(cfg, w, t, ticks)
    ensures w.st.over
  {
    hide Inv, Within, NothingQueued;
    MovesInRounds(t, rounds, cfg.ticksPerMove);
    if !w.st.over {
      NobodyAliveIsOver(cfg, w);
    }
  }

  /** In a walled arena, from any reachable state with nothing queued, the match is over
      within the longer side times the ticks per move if no further input comes. */
  lemma LeftAloneEveryMatchEnds(cfg: Config, ws: seq<World>, actions: seq<Action>, ticks: nat)
    requires cfg.Valid() && !cfg.wrap && Run(cfg, ws, actions) && OnlyTicks(actions)
    requires Inv(cfg, ws[0]) && NothingQueued(ws[0])
    requires ticks == LongerSide(cfg) * cfg.ticksPerMove && |actions| >= ticks
    ensures ws[ticks].st.over
  {
    hide Inv, Closing, NothingQueued, Next, OnlyTicks;
    ClosingThroughout(cfg, ws, actions, ticks);
    ClosedAfterRounds(cfg, ws[ticks], ws[0].st.tick, LongerSide(cfg), ticks);
  }
}
