/** The value types of internal/game/types.go and the arithmetic of the grid. */
module Types {

  function Min(a: int, b: int): int { if a < b then a else b }

  function Max(a: int, b: int): int { if a > b then a else b }

  type PlayerID = i: int | 0 <= i < 256

  /** A direction as it travels: one byte, of which 0..3 are the cardinals. */
  type Direction = d: int | 0 <= d < 256

  const UP: Direction := 0
  const RIGHT: Direction := 1
  const DOWN: Direction := 2
  const LEFT: Direction := 3

  datatype Point = Point(x: int, y: int)

  /** Anything past LEFT falls in the switch's default branch. */
  function Delta(d: Direction): Point {
    match d
    case 0 => Point(0, -1)
    case 1 => Point(1, 0)
    case 2 => Point(0, 1)
    case _ => Point(-1, 0)
  }

  /** Byte addition, then the remainder by 4. */
  function Opposite(d: Direction): (o: Direction)
    ensures d <= LEFT ==> Delta(o) == Point(-Delta(d).x, -Delta(d).y) && o <= LEFT
  {
    ((d + 2) % 256) % 4
  }

  /** An inclusive rectangle; nothing forces one received from a peer to be ordered. */
  datatype Rect = Rect(x0: int, y0: int, x1: int, y1: int) {
    predicate Contains(p: Point) {
      x0 <= p.x <= x1 && y0 <= p.y <= y1
    }

    function Width(): int { x1 - x0 + 1 }

    function Height(): int { y1 - y0 + 1 }
  }

  /** Go's remainder, which takes the sign of the dividend. */
  function Rem(a: int, n: int): int
    requires n > 0
  {
    if a >= 0 then a % n else -((-a) % n)
  }

  function WrapAxis(v: int, lo: int, n: int): (r: int)
    requires n > 0
    ensures lo <= r < lo + n
  {
    RemBounds(v - lo, n);
    var x := Rem(v - lo, n) + lo;
    if x < lo then x + n else x
  }

  lemma RemBounds(a: int, n: int)
    requires n > 0
    ensures -n < Rem(a, n) < n
  {
  }

  lemma WrapCongruent(v: int, lo: int, n: int)
    requires n > 0
    ensures (WrapAxis(v, lo, n) - v) % n == 0
  {
    RemCongruent(v - lo, n);
    var x := Rem(v - lo, n) + lo;
    if x < lo {
      ShiftCongruent(x - v, n);
    }
  }

  lemma RemCongruent(a: int, n: int)
    requires n > 0
    ensures (Rem(a, n) - a) % n == 0
  {
    var q := if a >= 0 then -(a / n) else (-a) / n;
    assert Rem(a, n) - a == q * n;
    MultipleRemainder(q, n);
  }

  lemma MultipleRemainder(k: int, n: int)
    requires n > 0
    ensures (k * n) % n == 0
  {
    var q, r := (k * n) / n, (k * n) % n;
    assert (k - q) * n == r;
    SmallMultiple(k - q, n);
  }

  lemma SmallMultiple(k: int, n: int)
    requires -n < k * n < n
    ensures k == 0
  {
    assert k >= 1 ==> k * n >= n;
    assert k <= -1 ==> k * n <= -n;
  }

  lemma ShiftCongruent(a: int, n: int)
    requires n > 0 && a % n == 0
    ensures (a + n) % n == 0
  {
    assert a + n == (a / n + 1) * n;
    MultipleRemainder(a / n + 1, n);
  }

  /** `Sim.wrap` and `wrapInto`, which are the same folding of a point into the arena. */
  function WrapInto(p: Point, r: Rect): (q: Point)
    requires r.Width() > 0 && r.Height() > 0
    ensures r.Contains(q)
  {
    Point(WrapAxis(p.x, r.x0, r.Width()), WrapAxis(p.y, r.y0, r.Height()))
  }

  /** Folding finds the one value in range that is congruent to its argument. */
  lemma WrapUnique(v: int, lo: int, n: int, r: int)
    requires n > 0 && lo <= r < lo + n && (r - v) % n == 0
    ensures WrapAxis(v, lo, n) == r
  {
    var q := WrapAxis(v, lo, n);
    WrapCongruent(v, lo, n);
    var a, b := (r - v) / n, (q - v) / n;
    assert (a - b) * n == a * n - b * n == r - q;
    SmallMultiple(a - b, n);
  }

  /** The cell one step along d: folded around when the arena wraps, otherwise possibly outside it. */
  function Ahead(arena: Rect, wrap: bool, p: Point, d: Direction): (q: Point)
    requires wrap ==> arena.Width() > 0 && arena.Height() > 0
  {
    var h := Point(p.x + Delta(d).x, p.y + Delta(d).y);
    if arena.Contains(h) || !wrap then h else WrapInto(h, arena)
  }

  /** What one step of `Ahead` does on each axis, with the remainders worked out. */
  lemma AheadAxis(arena: Rect, wrap: bool, p: Point, d: Direction)
    requires arena.Contains(p)
    ensures wrap ==> arena.Contains(Ahead(arena, wrap, p, d))
    ensures wrap ==>
      Ahead(arena, wrap, p, d)
      == Point(Fold(p.x + Delta(d).x, arena.x0, arena.x1), Fold(p.y + Delta(d).y, arena.y0, arena.y1))
  {
    var h := Point(p.x + Delta(d).x, p.y + Delta(d).y);
    if wrap && !arena.Contains(h) {
      FoldIsWrap(h.x, arena.x0, arena.x1);
      FoldIsWrap(h.y, arena.y0, arena.y1);
    }
  }

  /** Up is towards smaller rows and right towards larger columns; at the edge of a wrapping arena the
      next cell is on the edge across. */
  lemma FourWays(arena: Rect, wrap: bool, p: Point)
    requires arena.Contains(p)
    ensures Ahead(arena, wrap, p, 0) == Point(p.x, if wrap && p.y == arena.y0 then arena.y1 else p.y - 1)
    ensures Ahead(arena, wrap, p, 1) == Point(if wrap && p.x == arena.x1 then arena.x0 else p.x + 1, p.y)
    ensures Ahead(arena, wrap, p, 2) == Point(p.x, if wrap && p.y == arena.y1 then arena.y0 else p.y + 1)
    ensures Ahead(arena, wrap, p, 3) == Point(if wrap && p.x == arena.x0 then arena.x1 else p.x - 1, p.y)
  {
    hide WrapInto;
    AheadAxis(arena, wrap, p, UP);
    AheadAxis(arena, wrap, p, RIGHT);
    AheadAxis(arena, wrap, p, DOWN);
    AheadAxis(arena, wrap, p, LEFT);
  }

  function Fold(v: int, lo: int, hi: int): int {
    if v < lo then hi else if v > hi then lo else v
  }

  lemma FoldIsWrap(v: int, lo: int, hi: int)
    requires lo <= hi && lo - 1 <= v <= hi + 1
    ensures WrapAxis(v, lo, hi - lo + 1) == Fold(v, lo, hi)
  {
    var n := hi - lo + 1;
    MultipleRemainder(if v < lo then 1 else if v > hi then -1 else 0, n);
    WrapUnique(v, lo, n, Fold(v, lo, hi));
  }

  const MIN_WIDTH := 16
  const MAX_WIDTH := 120
  const MIN_HEIGHT := 10
  const MAX_HEIGHT := 48
  const MIN_PLAYERS := 2
  const MAX_PLAYERS := 8
  const START_LENGTH := 3

  datatype Config = Config(
    name: string, width: int, height: int, tickRate: int, ticksPerMove: int, maxPlayers: int,
    wrap: bool, foodCount: int, seed: int, bots: int)
  {
    /** No error from `Config.Validate`. */
    predicate Valid() {
      && MIN_WIDTH <= width <= MAX_WIDTH
      && MIN_HEIGHT <= height <= MAX_HEIGHT
      && 5 <= tickRate <= 60
      && 1 <= ticksPerMove <= 10
      && MIN_PLAYERS <= maxPlayers <= MAX_PLAYERS
      && 1 <= foodCount <= 16
      && 0 <= bots <= maxPlayers - 1
    }

    function Arena(): Rect { Rect(0, 0, width - 1, height - 1) }
  }

  datatype Snake = Snake(
    id: PlayerID, body: seq<Point>, dir: Direction, alive: bool, coasting: bool,
    grow: int, score: int, kills: int, maxLength: int, diedAtTick: int, placement: int,
    pending: Direction, hasPending: bool)

  datatype State = State(tick: int, snakes: seq<Snake>, food: seq<Point>, arena: Rect, over: bool)

  /** The loop of `State.SnakeByID`: the first index holding the id, or -1. */
  function SnakeIndex(snakes: seq<Snake>, id: PlayerID): (k: int)
    ensures -1 <= k < |snakes|
    ensures k >= 0 ==> snakes[k].id == id
    ensures k < 0 ==> forall j :: 0 <= j < |snakes| ==> snakes[j].id != id
    ensures forall j :: 0 <= j < k ==> snakes[j].id != id
  {
    if |snakes| == 0 then -1
    else if snakes[0].id == id then 0
    else var k := SnakeIndex(snakes[1..], id); if k < 0 then -1 else k + 1
  }

  /** `State.SnakeByID` as it runs. */
  method FindSnake(snakes: seq<Snake>, id: PlayerID) returns (k: int)
    ensures k == SnakeIndex(snakes, id)
  {
    k := 0;
    while k < |snakes|
      invariant 0 <= k <= |snakes|
      invariant forall j :: 0 <= j < k ==> snakes[j].id != id
    {
      if snakes[k].id == id {
        return;
      }
      k := k + 1;
    }
    k := -1;
  }

  ghost predicate DistinctIds(snakes: seq<Snake>) {
    forall i, j :: 0 <= i < j < |snakes| ==> snakes[i].id != snakes[j].id
  }

  lemma IndexOfMember(snakes: seq<Snake>, i: int)
    requires DistinctIds(snakes) && 0 <= i < |snakes|
    ensures SnakeIndex(snakes, snakes[i].id) == i
  {
    var k := SnakeIndex(snakes, snakes[i].id);
    assert k < i ==> k < 0;
  }

  function AliveCount(snakes: seq<Snake>): (n: nat)
    ensures n <= |snakes|
  {
    if |snakes| == 0 then 0
    else AliveCount(snakes[..|snakes|-1]) + (if snakes[|snakes|-1].alive then 1 else 0)
  }
}
