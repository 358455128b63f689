/** How a bot steers (internal/game/bot.go), and that steering so keeps it alive. */
module Bot {
  import opened Types
  import opened Movement
  import opened Soundness
  import opened FloodFill
  import Sorting

  const FAR := 0x4000_0000

  function Abs(v: int): int { if v < 0 then -v else v }

  /** Manhattan distance, the shorter way around when the arena wraps. */
  function Distance(a: Point, b: Point, r: Rect, wrap: bool): int {
    var dx, dy := Abs(a.x - b.x), Abs(a.y - b.y);
    if wrap then Min(dx, r.Width() - dx) + Min(dy, r.Height() - dy) else dx + dy
  }

  lemma OneAxisNearer(lo: int, hi: int, x: int, y: int, z: int)
    requires lo <= x <= hi && lo <= y <= hi && lo <= z <= hi
    requires y - x == 1 || y - x == -1 || FarEnds(lo, hi, x, y)
    ensures Min(Abs(y - z), hi - lo + 1 - Abs(y - z)) >= Min(Abs(x - z), hi - lo + 1 - Abs(x - z)) - 1
  {
  }

  /** What a step does to the two coordinates. */
  lemma StepAxes(r: Rect, wrap: bool, p: Point, d: Direction)
    requires r.Contains(p) && r.Contains(Ahead(r, wrap, p, d)) && d <= LEFT
    ensures var a := Ahead(r, wrap, p, d);
      || (a.x == p.x && (a.y - p.y == 1 || a.y - p.y == -1 || (wrap && FarEnds(r.y0, r.y1, p.y, a.y))))
      || (a.y == p.y && (a.x - p.x == 1 || a.x - p.x == -1 || (wrap && FarEnds(r.x0, r.x1, p.x, a.x))))
  {
    AheadAxis(r, wrap, p, d);
  }

  predicate FarEnds(lo: int, hi: int, x: int, y: int) {
    (x == lo && y == hi) || (x == hi && y == lo)
  }

  /** No step brings one nearer than by one. */
  lemma StepIsAtMostOne(r: Rect, wrap: bool, p: Point, d: Direction, q: Point)
    requires r.Contains(p) && r.Contains(q) && r.Contains(Ahead(r, wrap, p, d)) && d <= LEFT
    ensures Distance(Ahead(r, wrap, p, d), q, r, wrap) >= Distance(p, q, r, wrap) - 1
  {
    hide Ahead;
    StepAxes(r, wrap, p, d);
    if wrap {
      WrappedStep(r, p, Ahead(r, wrap, p, d), q);
    }
  }

  lemma WrappedStep(r: Rect, p: Point, a: Point, q: Point)
    requires r.Contains(p) && r.Contains(q) && r.Contains(a)
    requires
      || (a.x == p.x && (a.y - p.y == 1 || a.y - p.y == -1 || FarEnds(r.y0, r.y1, p.y, a.y)))
      || (a.y == p.y && (a.x - p.x == 1 || a.x - p.x == -1 || FarEnds(r.x0, r.x1, p.x, a.x)))
    ensures Distance(a, q, r, true) >= Distance(p, q, r, true) - 1
  {
    hide Min, Abs, FarEnds;
    if a.x == p.x && (a.y - p.y == 1 || a.y - p.y == -1 || FarEnds(r.y0, r.y1, p.y, a.y)) {
      OneAxisNearer(r.y0, r.y1, p.y, a.y, q.y);
    } else {
      OneAxisNearer(r.x0, r.x1, p.x, a.x, q.x);
    }
  }

  /** And one of the four steps does, unless one is there: in an arena without snakes the distance is
      the least number of steps. */
  lemma SomeStepIsNearer(r: Rect, wrap: bool, p: Point, q: Point) returns (d: Direction)
    requires r.Contains(p) && r.Contains(q) && p != q
    ensures d <= LEFT && r.Contains(Ahead(r, wrap, p, d))
    ensures Distance(Ahead(r, wrap, p, d), q, r, wrap) == Distance(p, q, r, wrap) - 1
    ensures Distance(q, q, r, wrap) == 0
  {
    var right := if wrap then (2 * Abs(p.x - q.x) <= r.Width()) == (q.x > p.x) else q.x > p.x;
    var down := if wrap then (2 * Abs(p.y - q.y) <= r.Height()) == (q.y > p.y) else q.y > p.y;
    d := if p.x != q.x then (if right then RIGHT else LEFT) else if down then DOWN else UP;
    AheadAxis(r, wrap, p, d);
  }

  function Nearest(p: Point, food: seq<Point>, r: Rect, wrap: bool): (d: int) {
    if |food| == 0 then FAR
    else Min(Distance(p, food[|food|-1], r, wrap), Nearest(p, food[..|food|-1], r, wrap))
  }

  ghost predicate LeastDistance(d: int, p: Point, food: seq<Point>, r: Rect, wrap: bool) {
    && d <= FAR && (forall k :: 0 <= k < |food| ==> d <= Distance(p, food[k], r, wrap))
    && (d == FAR || exists k :: 0 <= k < |food| && d == Distance(p, food[k], r, wrap))
  }

  lemma {:induction false} NearestIsLeast(p: Point, food: seq<Point>, r: Rect, wrap: bool)
    ensures LeastDistance(Nearest(p, food, r, wrap), p, food, r, wrap)
  {
    hide Distance;
    if |food| > 0 {
      var init, last := food[..|food|-1], food[|food|-1];
      NearestIsLeast(p, init, r, wrap);
      var d := Nearest(p, init, r, wrap);
      assert forall k :: 0 <= k < |init| ==> food[k] == init[k];
      if d != FAR {
        var k :| 0 <= k < |init| && d == Distance(p, init[k], r, wrap);
        assert d == Distance(p, food[k], r, wrap);
      }
    }
  }

  /** The least distance to any pellet, or FAR if there is none that near. */
  method NearestFood(p: Point, food: seq<Point>, r: Rect, wrap: bool) returns (best: int)
    ensures best == Nearest(p, food, r, wrap) && LeastDistance(best, p, food, r, wrap)
  {
    hide Distance, LeastDistance;
    best := FAR;
    for i := 0 to |food|
      invariant best == Nearest(p, food[..i], r, wrap)
    {
      assert food[..i + 1][..i] == food[..i];
      var d := Distance(p, food[i], r, wrap);
      if d < best {
        best := d;
      }
    }
    assert food[..|food|] == food;
    NearestIsLeast(p, food, r, wrap);
  }

  // ---- What a bot avoids ----

  ghost function SolidSeq(snakes: seq<Snake>): seq<Point> {
    if |snakes| == 0 then [] else SolidSeq(snakes[..|snakes|-1]) + SolidCells(snakes[|snakes|-1])
  }

  ghost function Blocked(snakes: seq<Snake>): set<Point> {
    Sorting.Elements(SolidSeq(snakes))
  }

  lemma {:induction false} BlockedBySome(snakes: seq<Snake>, j: int, p: Point)
    requires 0 <= j < |snakes| && p in SolidCells(snakes[j])
    ensures p in Blocked(snakes)
  {
    if j < |snakes| - 1 {
      BlockedBySome(snakes[..|snakes|-1], j, p);
    }
  }

  method BlockedCells(snakes: seq<Snake>) returns (cells: set<Point>)
    ensures cells == Blocked(snakes)
  {
    cells := {};
    for i := 0 to |snakes|
      invariant forall p :: p in cells <==> p in SolidSeq(snakes[..i])
    {
      assert snakes[..i + 1][..i] == snakes[..i];
      cells := AddSolid(snakes[i], cells);
    }
    assert snakes[..|snakes|] == snakes;
  }

  method AddSolid(other: Snake, before: set<Point>) returns (cells: set<Point>)
    ensures forall p :: p in cells <==> p in before || p in SolidCells(other)
  {
    cells := before;
    if other.alive {
      var last := |other.body| - 1;
      ghost var limit := if other.grow == 0 && |other.body| > 0 then last else |other.body|;
      for j := 0 to |other.body|
        invariant forall p :: p in cells <==> p in before || p in other.body[..if j < limit then j else limit]
      {
        if !(j == last && other.grow == 0) {
          assert other.body[..j + 1] == other.body[..j] + [other.body[j]];
          cells := cells + {other.body[j]};
        }
      }
      assert SolidCells(other) == other.body[..limit];
    }
  }

  /** Another living snake could arrive at p in one step. */
  ghost predicate Contested(st: State, wrap: bool, id: PlayerID, p: Point)
    requires wrap ==> st.arena.Width() > 0 && st.arena.Height() > 0
  {
    exists j, d: Direction :: Threatens(st, wrap, id, j, d, p)
  }

  ghost predicate Threatens(st: State, wrap: bool, id: PlayerID, j: int, d: Direction, p: Point)
    requires wrap ==> st.arena.Width() > 0 && st.arena.Height() > 0
  {
    && Lives(st, j) && st.snakes[j].id != id && |st.snakes[j].body| > 0 && d <= LEFT
    && p == Ahead(st.arena, wrap, st.snakes[j].body[0], d)
  }

  /** `normalise`. */
  function Normalise(p: Point, r: Rect, wrap: bool): Point
    requires wrap ==> r.Width() > 0 && r.Height() > 0
  {
    if r.Contains(p) || !wrap then p else WrapInto(p, r)
  }

  method ContestedCells(st: State, wrap: bool, id: PlayerID) returns (cells: set<Point>)
    requires wrap ==> st.arena.Width() > 0 && st.arena.Height() > 0
    ensures forall p :: p in cells <==> Contested(st, wrap, id, p)
  {
    cells := {};
    for i := 0 to |st.snakes|
      invariant forall p :: p in cells <==> exists j, d: Direction :: j < i && Threatens(st, wrap, id, j, d, p)
    {
      var other := st.snakes[i];
      if other.alive && other.id != id && |other.body| > 0 {
        ghost var before := cells;
        var d: Direction := 0;
        while d < 4
          invariant d <= 4
          invariant forall p :: p in cells <==>
            p in before || exists e: Direction :: e < d && Threatens(st, wrap, id, i, e, p)
        {
          var v := Delta(d);
          var cell := Normalise(Point(other.body[0].x + v.x, other.body[0].y + v.y), st.arena, wrap);
          assert Threatens(st, wrap, id, i, d, cell);
          cells := cells + {cell};
          d := d + 1;
        }
      }
    }
  }

  // ---- Choosing ----

  datatype Option = Option(dir: Direction, risky: bool, distance: int, room: int)

  /** Head-on risk first, then food, then room, then the order of the directions. */
  predicate Prefers(a: Option, b: Option) {
    if a.risky != b.risky then !a.risky
    else if a.distance != b.distance then a.distance < b.distance
    else if a.room != b.room then a.room > b.room
    else a.dir < b.dir
  }

  /** A direction the simulation accepts and that is not fatal at once. */
  ghost predicate Candidate(st: State, wrap: bool, k: int, d: Direction)
    requires Lives(st, k) && |st.snakes[k].body| > 0 && (wrap ==> st.arena.Width() > 0 && st.arena.Height() > 0)
  {
    var sn := st.snakes[k];
    var next := Ahead(st.arena, wrap, sn.body[0], d);
    d <= LEFT && !(|sn.body| > 1 && d == Opposite(sn.dir)) && st.arena.Contains(next) && next !in Blocked(st.snakes)
  }

  ghost function OptionOf(st: State, wrap: bool, k: int, d: Direction): Option
    requires Lives(st, k) && |st.snakes[k].body| > 0 && (wrap ==> st.arena.Width() > 0 && st.arena.Height() > 0)
  {
    var sn := st.snakes[k];
    var next := Ahead(st.arena, wrap, sn.body[0], d);
    Option(d, Contested(st, wrap, sn.id, next), Nearest(next, st.food, st.arena, wrap),
           Min(BUDGET, |Region(st.arena, Blocked(st.snakes), wrap, next)|))
  }

  /** d is the candidate that every other candidate ranks behind. */
  ghost predicate Best(st: State, wrap: bool, k: int, d: Direction)
    requires Lives(st, k) && |st.snakes[k].body| > 0 && (wrap ==> st.arena.Width() > 0 && st.arena.Height() > 0)
  {
    && Candidate(st, wrap, k, d)
    && forall e :: Candidate(st, wrap, k, e) && e != d ==>
         Prefers(OptionOf(st, wrap, k, d), OptionOf(st, wrap, k, e))
  }

  /** The cell snake k would step onto. */
  function StepOf(st: State, wrap: bool, k: int, d: Direction): Point
    requires Lives(st, k) && |st.snakes[k].body| > 0 && (wrap ==> st.arena.Width() > 0 && st.arena.Height() > 0)
  {
    Ahead(st.arena, wrap, st.snakes[k].body[0], d)
  }

  ghost function RoomAt(st: State, wrap: bool, p: Point): int
    requires wrap ==> st.arena.Width() > 0 && st.arena.Height() > 0
  {
    Min(24, |Region(st.arena, Blocked(st.snakes), wrap, p)|)
  }

  /** Candidate e is no better than d: contested if d is, and if they are alike in that, no nearer
      to food; at the same distance with no more room; and with the same room not earlier. */
  ghost predicate NoBetter(st: State, wrap: bool, k: int, d: Direction, e: Direction)
    requires Lives(st, k) && |st.snakes[k].body| > 0 && (wrap ==> st.arena.Width() > 0 && st.arena.Height() > 0)
  {
    var p, q, id := StepOf(st, wrap, k, d), StepOf(st, wrap, k, e), st.snakes[k].id;
    && (Contested(st, wrap, id, p) ==> Contested(st, wrap, id, q))
    && (Contested(st, wrap, id, p) == Contested(st, wrap, id, q) ==>
          forall m, n ::
            LeastDistance(m, p, st.food, st.arena, wrap) && LeastDistance(n, q, st.food, st.arena, wrap) ==>
            && m <= n
            && (m == n ==> RoomAt(st, wrap, p) >= RoomAt(st, wrap, q))
            && (m == n && RoomAt(st, wrap, p) == RoomAt(st, wrap, q) ==> d <= e))
  }

  lemma OneLeastDistance(m: int, n: int, p: Point, food: seq<Point>, r: Rect, wrap: bool)
    requires LeastDistance(m, p, food, r, wrap) && LeastDistance(n, p, food, r, wrap)
    ensures m == n
  {
    hide Distance;
  }

  /** What is best is what no other candidate betters. */
  lemma BestIsUnbettered(st: State, wrap: bool, k: int, d: Direction, e: Direction)
    requires Lives(st, k) && |st.snakes[k].body| > 0 && (wrap ==> st.arena.Width() > 0 && st.arena.Height() > 0)
    requires Best(st, wrap, k, d) && Candidate(st, wrap, k, e)
    ensures NoBetter(st, wrap, k, d, e)
  {
    hide Contested, Candidate, LeastDistance, Nearest, Region, Blocked, Ahead;
    var p, q := StepOf(st, wrap, k, d), StepOf(st, wrap, k, e);
    NearestIsLeast(p, st.food, st.arena, wrap);
    NearestIsLeast(q, st.food, st.arena, wrap);
    forall m, n | LeastDistance(m, p, st.food, st.arena, wrap) && LeastDistance(n, q, st.food, st.arena, wrap)
      ensures m == Nearest(p, st.food, st.arena, wrap) && n == Nearest(q, st.food, st.arena, wrap)
    {
      OneLeastDistance(m, Nearest(p, st.food, st.arena, wrap), p, st.food, st.arena, wrap);
      OneLeastDistance(n, Nearest(q, st.food, st.arena, wrap), q, st.food, st.arena, wrap);
    }
  }

  ghost predicate AreOptions(st: State, wrap: bool, k: int, n: nat, options: seq<Option>)
    requires Lives(st, k) && |st.snakes[k].body| > 0 && (wrap ==> st.arena.Width() > 0 && st.arena.Height() > 0)
  {
    && (forall i :: 0 <= i < |options| ==>
          && options[i].dir < n && Candidate(st, wrap, k, options[i].dir)
          && options[i] == OptionOf(st, wrap, k, options[i].dir))
    && (forall d: Direction :: d < n && Candidate(st, wrap, k, d) ==> OptionOf(st, wrap, k, d) in options)
  }

  lemma PrefersIsOrder(options: seq<Option>)
    ensures Sorting.WeakOrder(Prefers, options)
  {
  }

  /** The first option after sorting is the best candidate. */
  lemma FirstIsBest(st: State, wrap: bool, k: int, options: seq<Option>)
    requires Lives(st, k) && |st.snakes[k].body| > 0 && (wrap ==> st.arena.Width() > 0 && st.arena.Height() > 0)
    requires AreOptions(st, wrap, k, 4, options) && |options| > 0
    ensures Best(st, wrap, k, Sorting.SortBy(Prefers, options)[0].dir)
  {
    var sorted := Sorting.SortBy(Prefers, options);
    PrefersIsOrder(options);
    Sorting.SortOrdered(Prefers, options);
    Sorting.SameMembers(options, sorted);
    hide Candidate, OptionOf, Sorting.SortBy, Sorting.WeakOrder;
    var first := sorted[0];
    assert first in options;
    forall e | Candidate(st, wrap, k, e) && e != first.dir
      ensures Prefers(first, OptionOf(st, wrap, k, e))
    {
      CandidateIsCardinal(st, wrap, k, e);
      var o := OptionOf(st, wrap, k, e);
      assert o in sorted;
      var i :| 0 <= i < |sorted| && sorted[i] == o;
      assert i > 0 && !Prefers(o, first);
    }
  }

  lemma CandidateIsCardinal(st: State, wrap: bool, k: int, d: Direction)
    requires Lives(st, k) && |st.snakes[k].body| > 0 && (wrap ==> st.arena.Width() > 0 && st.arena.Height() > 0)
    requires Candidate(st, wrap, k, d)
    ensures d < 4 && OptionOf(st, wrap, k, d).dir == d
  {
  }

  method ChooseDirection(st: State, cfg: Config, id: PlayerID) returns (r: Direction)
    requires cfg.wrap ==> st.arena.Width() > 0 && st.arena.Height() > 0
    ensures var k := SnakeIndex(st.snakes, id);
      if k < 0 || !st.snakes[k].alive || |st.snakes[k].body| == 0 then r == UP
      else if exists d :: Candidate(st, cfg.wrap, k, d) then
        Best(st, cfg.wrap, k, r) && forall e :: Candidate(st, cfg.wrap, k, e) ==> NoBetter(st, cfg.wrap, k, r, e)
      else r == st.snakes[k].dir
  {
    var k := FindSnake(st.snakes, id);
    if k < 0 || !st.snakes[k].alive || |st.snakes[k].body| == 0 {
      return UP;
    }
    var sn := st.snakes[k];
    var blocked := BlockedCells(st.snakes);
    var contested := ContestedCells(st, cfg.wrap, id);
    var options: seq<Option> := [];
    var d: Direction := 0;
    while d < 4
      invariant d <= 4
      invariant AreOptions(st, cfg.wrap, k, d, options)
    {
      options := Consider(st, cfg, k, d, blocked, contested, options);
      d := d + 1;
    }
    if |options| == 0 {
      assert forall d :: Candidate(st, cfg.wrap, k, d) ==> d < 4;
      return sn.dir;
    }
    FirstIsBest(st, cfg.wrap, k, options);
    r := Sorting.SortBy(Prefers, options)[0].dir;
    forall e | Candidate(st, cfg.wrap, k, e)
      ensures NoBetter(st, cfg.wrap, k, r, e)
    {
      BestIsUnbettered(st, cfg.wrap, k, r, e);
    }
  }

  /** One round of the loop over directions. */
  method Consider(
    st: State, cfg: Config, k: int, d: Direction, blocked: set<Point>, contested: set<Point>, before: seq<Option>)
    returns (options: seq<Option>)
    requires Lives(st, k) && |st.snakes[k].body| > 0 && (cfg.wrap ==> st.arena.Width() > 0 && st.arena.Height() > 0)
    requires d < 4 && blocked == Blocked(st.snakes)
    requires forall p :: p in contested <==> Contested(st, cfg.wrap, st.snakes[k].id, p)
    requires AreOptions(st, cfg.wrap, k, d, before)
    ensures AreOptions(st, cfg.wrap, k, d + 1, options)
  {
    hide Blocked, Contested, AreOptions;
    options := before;
    OptionsStep(st, cfg.wrap, k, d, before);
    var sn := st.snakes[k];
    if |sn.body| > 1 && d == Opposite(sn.dir) {
      return;
    }
    var v := Delta(d);
    var next := Point(sn.body[0].x + v.x, sn.body[0].y + v.y);
    if !st.arena.Contains(next) {
      if !cfg.wrap {
        return;
      }
      next := Normalise(next, st.arena, true);
    }
    if next in blocked {
      return;
    }
    var distance := NearestFood(next, st.food, st.arena, cfg.wrap);
    var room := OpenRoom(next, st.arena, blocked, cfg.wrap);
    options := options + [Option(d, next in contested, distance, room)];
  }

  lemma OptionsStep(st: State, wrap: bool, k: int, d: Direction, options: seq<Option>)
    requires Lives(st, k) && |st.snakes[k].body| > 0 && (wrap ==> st.arena.Width() > 0 && st.arena.Height() > 0)
    requires d < 4 && AreOptions(st, wrap, k, d, options)
    ensures AreOptions(st, wrap, k, d + 1,
      if Candidate(st, wrap, k, d) then options + [OptionOf(st, wrap, k, d)] else options)
  {
    CandidateOption(st, wrap, k, d);
    hide Candidate, OptionOf;
    var more := if Candidate(st, wrap, k, d) then options + [OptionOf(st, wrap, k, d)] else options;
    forall i | 0 <= i < |more|
      ensures more[i].dir < d + 1 && Candidate(st, wrap, k, more[i].dir)
      ensures more[i] == OptionOf(st, wrap, k, more[i].dir)
    {
      assert i < |options| ==> more[i] == options[i];
    }
    forall e: Direction | e < d + 1 && Candidate(st, wrap, k, e)
      ensures OptionOf(st, wrap, k, e) in more
    {
      if e < d {
        assert OptionOf(st, wrap, k, e) in options;
      } else {
        assert more[|options|] == OptionOf(st, wrap, k, e);
      }
    }
  }

  lemma CandidateOption(st: State, wrap: bool, k: int, d: Direction)
    requires Lives(st, k) && |st.snakes[k].body| > 0 && (wrap ==> st.arena.Width() > 0 && st.arena.Height() > 0)
    ensures OptionOf(st, wrap, k, d).dir == d
  {
  }

  // ---- Survival ----

  /** The world the bot saw, and the one that moves: the bot's choice has arrived, and the
      others may have turned, coasted or been eliminated as they please. */
  ghost predicate OthersDoAsTheyPlease(seen: State, now: State, wrap: bool, k: int, d: Direction) {
    && |now.snakes| == |seen.snakes| && now.arena == seen.arena
    && Lives(seen, k) && now.snakes[k] == Steered(seen.snakes[k], d)
    && forall j :: Lives(now, j) ==>
         && Lives(seen, j) && now.snakes[j].id == seen.snakes[j].id && now.snakes[j].body == seen.snakes[j].body
         && now.snakes[j].grow == seen.snakes[j].grow && Turned(now.snakes[j]).dir <= LEFT
  }

  /** The best candidate runs no head-on risk if some candidate runs none. */
  lemma BestIsSafe(st: State, wrap: bool, k: int, d: Direction, safe: Direction)
    requires Lives(st, k) && |st.snakes[k].body| > 0 && (wrap ==> st.arena.Width() > 0 && st.arena.Height() > 0)
    requires Best(st, wrap, k, d) && Candidate(st, wrap, k, safe) && !OptionOf(st, wrap, k, safe).risky
    ensures !Contested(st, wrap, st.snakes[k].id, Ahead(st.arena, wrap, st.snakes[k].body[0], d))
  {
    hide Contested, Candidate;
  }

  /** If any direction is neither fatal nor contested, the bot picks such a one, the
      simulation accepts it, and the bot survives the move whatever the others do. */
  lemma BotSurvives(cfg: Config, seen: State, now: State, k: int, d: Direction, safe: Direction)
    requires Sound(cfg, seen) && DistinctIds(seen.snakes) && Lives(seen, k) && !seen.snakes[k].coasting
    requires |seen.snakes[k].body| > 0
    requires Best(seen, cfg.wrap, k, d)
    requires Candidate(seen, cfg.wrap, k, safe) && !OptionOf(seen, cfg.wrap, k, safe).risky
    requires OthersDoAsTheyPlease(seen, now, cfg.wrap, k, d) && Playable(now, cfg.wrap)
    ensures now.snakes[k].hasPending && now.snakes[k].pending == d
    ensures Survives(now, cfg.wrap, k)
  {
    BestIsSafe(seen, cfg.wrap, k, d, safe);
    assert Turned(now.snakes[k]).dir == d;
    var head := HeadAfter(now, cfg.wrap, k);
    hide Sound, Best, Dies;
    NoHeadOn(cfg, seen, now, k, d);
    forall j | Lives(now, j)
      ensures head !in SolidCells(now.snakes[j])
    {
      if head in SolidCells(seen.snakes[j]) {
        BlockedBySome(seen.snakes, j, head);
      }
    }
    DiesOnlyIf(now, cfg.wrap, k);
  }

  lemma DiesOnlyIf(st: State, wrap: bool, k: int)
    requires Playable(st, wrap) && Lives(st, k)
    requires !Leaves(st, wrap, k) && !HeadOn(st, wrap, k) && !Hits(st, wrap, k)
    ensures Survives(st, wrap, k)
  {
  }

  /** A contested cell is a real danger: if another snake may step onto it, there are headings of the
      others under which the bot meets it there head to head. */
  lemma ContestedCanCollide(seen: State, wrap: bool, k: int, j: int, d: Direction, e: Direction) returns (now: State)
    requires Playable(seen, wrap) && DistinctIds(seen.snakes) && Lives(seen, k) && d <= LEFT
    requires forall i :: Lives(seen, i) ==> Turned(seen.snakes[i]).dir <= LEFT
    requires wrap ==> seen.arena.Width() > 0 && seen.arena.Height() > 0
    requires Steered(seen.snakes[k], d).hasPending && Steered(seen.snakes[k], d).pending == d
    requires Threatens(seen, wrap, seen.snakes[k].id, j, e, Ahead(seen.arena, wrap, seen.snakes[k].body[0], d))
    requires Steered(seen.snakes[j], e).hasPending && Steered(seen.snakes[j], e).pending == e
    ensures OthersDoAsTheyPlease(seen, now, wrap, k, d) && Playable(now, wrap) && Lives(now, k) && HeadOn(now, wrap, k)
  {
    hide Ahead, Opposite;
    var turned := seen.snakes[k := Steered(seen.snakes[k], d)][j := Steered(seen.snakes[j], e)];
    now := seen.(snakes := turned);
    assert j != k;
    assert HeadAfter(now, wrap, j) == HeadAfter(now, wrap, k);
  }

  lemma {:induction false} BlockerOf(snakes: seq<Snake>, p: Point) returns (j: nat)
    requires p in Blocked(snakes)
    ensures j < |snakes| && p in SolidCells(snakes[j])
  {
    hide SolidCells;
    var init, last := snakes[..|snakes|-1], |snakes| - 1;
    if p in SolidCells(snakes[last]) {
      j := last;
    } else {
      j := BlockerOf(init, p);
    }
  }

  /** And a direction that is no candidate, though the snake may take it, is fatal whatever the
      others do, as long as none of them is taken off the board first. */
  lemma NoCandidateIsFatal(seen: State, now: State, wrap: bool, k: int, d: Direction)
    requires OthersDoAsTheyPlease(seen, now, wrap, k, d) && Playable(now, wrap)
    requires wrap ==> seen.arena.Width() > 0 && seen.arena.Height() > 0
    requires |seen.snakes[k].body| > 0 && !seen.snakes[k].coasting && d <= LEFT
    requires !(|seen.snakes[k].body| > 1 && d == Opposite(seen.snakes[k].dir))
    requires forall j :: Lives(seen, j) ==> Lives(now, j)
    requires !Candidate(seen, wrap, k, d)
    ensures Lives(now, k) && Dies(now, wrap, k)
  {
    hide Ahead, Blocked, Opposite;
    assert Turned(now.snakes[k]).dir == d;
    var head := HeadAfter(now, wrap, k);
    if seen.arena.Contains(head) {
      var j := BlockerOf(seen.snakes, head);
      assert Lives(seen, j) && SolidCells(now.snakes[j]) == SolidCells(seen.snakes[j]);
      assert Hits(now, wrap, k);
    }
  }

  lemma NoHeadOn(cfg: Config, seen: State, now: State, k: int, d: Direction)
    requires DistinctIds(seen.snakes) && OthersDoAsTheyPlease(seen, now, cfg.wrap, k, d) && Playable(now, cfg.wrap)
    requires cfg.wrap ==> seen.arena.Width() > 0 && seen.arena.Height() > 0
    requires Lives(now, k) && |seen.snakes[k].body| > 0 && Turned(now.snakes[k]).dir == d
    requires !Contested(seen, cfg.wrap, seen.snakes[k].id, Ahead(seen.arena, cfg.wrap, seen.snakes[k].body[0], d))
    ensures !HeadOn(now, cfg.wrap, k)
  {
    forall j | j != k && Lives(now, j)
      ensures HeadAfter(now, cfg.wrap, j) != HeadAfter(now, cfg.wrap, k)
    {
      var e := Turned(now.snakes[j]).dir;
      var p := HeadAfter(now, cfg.wrap, j);
      assert Threatens(seen, cfg.wrap, seen.snakes[k].id, j, e, p);
    }
  }
}
