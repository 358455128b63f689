/** The window on the arena that is drawn, and the cells looked up for it (internal/ui/game.go). */
module Camera {
  import opened Types

  function ClampInt(v: int, lo: int, hi: int): int { Min(Max(v, lo), hi) }

  const MIN_ARENA_VIEW := 24

  /** A remainder that is never negative; 0 for a world without width. */
  function Mod(v: int, n: int): (m: int)
    ensures n > 0 ==> 0 <= m < n && m == v % n
    ensures n <= 0 ==> m == 0
  {
    if n <= 0 then 0
    else
      RemIsEuclid(v, n);
      var r := Rem(v, n);
      if r < 0 then r + n else r
  }

  lemma RemIsEuclid(v: int, n: int)
    requires n > 0
    ensures (if Rem(v, n) < 0 then Rem(v, n) + n else Rem(v, n)) == v % n
  {
    if v < 0 {
      var q, m := (-v) / n, (-v) % n;
      assert -v == q * n + m;
      if m == 0 {
        assert v == (-q) * n;
        DivUnique(v, -q, 0, n);
      } else {
        assert v == (-q - 1) * n + (n - m);
        DivUnique(v, -q - 1, n - m, n);
      }
    }
  }

  lemma DivUnique(v: int, q: int, m: int, n: int)
    requires n > 0 && v == q * n + m && 0 <= m < n
    ensures v % n == m && v / n == q
  {
    assert v == (v / n) * n + v % n;
    assert (v / n - q) * n == m - v % n;
    SmallMultiple(v / n - q, n);
  }

  /** `clipToGrid`: whatever arrived, a rectangle in order and inside the grid. */
  function ClipToGrid(r: Rect, width: int, height: int): Rect {
    var maxX, maxY := Max(width - 1, 0), Max(height - 1, 0);
    var x0, y0 := ClampInt(r.x0, 0, maxX), ClampInt(r.y0, 0, maxY);
    Rect(x0, y0, ClampInt(r.x1, x0, maxX), ClampInt(r.y1, y0, maxY))
  }

  lemma ClippedFits(r: Rect, width: int, height: int)
    requires width > 0 && height > 0
    ensures var c := ClipToGrid(r, width, height);
      0 <= c.x0 <= c.x1 < width && 0 <= c.y0 <= c.y1 < height
    ensures 0 <= r.x0 <= r.x1 < width && 0 <= r.y0 <= r.y1 < height ==> ClipToGrid(r, width, height) == r
  {
  }

  // ---- One axis ----

  /** How many cells of the axis are shown. */
  function ViewSize(size: int, avail: int, least: int): int {
    Max(Min(size, Max(avail, least)), 1)
  }

  /** The first coordinate shown, given where it would be with no regard to the edges. */
  function Origin(lo: int, hi: int, view: int, wrap: bool, wish: int): int {
    if wrap then lo + Mod(wish - lo, hi - lo + 1) else ClampInt(wish, lo, Max(hi - view + 1, lo))
  }

  /** The world coordinate drawn at a screen coordinate. */
  function Source(lo: int, hi: int, wrap: bool, x: int): int {
    if wrap then lo + Mod(x - lo, hi - lo + 1) else x
  }

  /** Everything in the window is in the world, and nothing in the world is in it twice. */
  lemma AxisShown(lo: int, hi: int, view: int, wrap: bool, wish: int, i: int, j: int)
    requires lo <= hi && 1 <= view <= hi - lo + 1 && 0 <= i < view && 0 <= j < view
    ensures var o := Origin(lo, hi, view, wrap, wish);
      && lo <= Source(lo, hi, wrap, o + i) <= hi
      && (Source(lo, hi, wrap, o + i) == Source(lo, hi, wrap, o + j) ==> i == j)
  {
    if wrap {
      var o := Origin(lo, hi, view, wrap, wish);
      hide Origin;
      SameRemainder(o + i - lo, o + j - lo, hi - lo + 1);
    }
  }

  lemma SameRemainder(a: int, b: int, n: int)
    requires n > 0 && -n < a - b < n
    ensures a % n == b % n ==> a == b
  {
    if a % n == b % n {
      assert a == (a / n) * n + a % n && b == (b / n) * n + b % n;
      assert (a / n - b / n) * n == a - b;
      SmallMultiple(a / n - b / n, n);
    }
  }

  /** Folding a sum is folding its parts. */
  lemma ModShift(v: int, d: int, n: int)
    requires n > 0
    ensures (v % n + d) % n == (v + d) % n
  {
    var q := v / n;
    assert v == q * n + v % n;
    var s := v % n + d;
    assert s == (s / n) * n + s % n;
    assert v + d == (q + s / n) * n + s % n;
    DivUnique(v + d, q + s / n, s % n, n);
  }

  /** On a wrapping axis the cell at the middle of the view is the player's. */
  lemma AxisCentred(lo: int, hi: int, view: int, head: int)
    requires lo <= hi && 1 <= view <= hi - lo + 1
    ensures var o := Origin(lo, hi, view, true, head - view / 2);
      Source(lo, hi, true, o + view / 2) == lo + (head - lo) % (hi - lo + 1)
    ensures lo <= head <= hi ==> lo + (head - lo) % (hi - lo + 1) == head
  {
    var n := hi - lo + 1;
    ModShift(head - view / 2 - lo, view / 2, n);
    assert Origin(lo, hi, view, true, head - view / 2) - lo == (head - view / 2 - lo) % n;
    if lo <= head <= hi {
      DivUnique(head - lo, 0, head - lo, n);
    }
  }

  /** When the player moves d cells along a wrapping axis, folding at its end, so does the window. */
  lemma AxisFollows(lo: int, hi: int, view: int, head: int, next: int, d: int)
    requires lo <= hi && 1 <= view <= hi - lo + 1 && next == lo + (head + d - lo) % (hi - lo + 1)
    ensures Origin(lo, hi, view, true, next - view / 2)
      == lo + (Origin(lo, hi, view, true, head - view / 2) + d - lo) % (hi - lo + 1)
  {
    var n, h := hi - lo + 1, view / 2;
    ModShift(head + d - lo, -h, n);
    ModShift(head - h - lo, d, n);
    assert next - h - lo == (head + d - lo) % n + -h;
    assert Origin(lo, hi, view, true, head - h) - lo == (head - h - lo) % n;
  }

  lemma FoldIsMod(v: int, lo: int, hi: int)
    requires lo <= hi && lo - 1 <= v <= hi + 1
    ensures Fold(v, lo, hi) == lo + (v - lo) % (hi - lo + 1)
  {
    var n := hi - lo + 1;
    DivUnique(v - lo, if v < lo then -1 else if v > hi then 1 else 0, Fold(v, lo, hi) - lo, n);
  }

  /** A snake's step on a wrapping arena moves the window by that one cell, folded the same way. */
  lemma StepShiftsWindow(world: Rect, viewW: int, viewH: int, head: Point, d: Direction)
    requires world.Contains(head) && 1 <= viewW <= world.Width() && 1 <= viewH <= world.Height()
    ensures var next := Ahead(world, true, head, d);
      && Origin(world.x0, world.x1, viewW, true, next.x - viewW / 2)
         == Fold(Origin(world.x0, world.x1, viewW, true, head.x - viewW / 2) + Delta(d).x, world.x0, world.x1)
      && Origin(world.y0, world.y1, viewH, true, next.y - viewH / 2)
         == Fold(Origin(world.y0, world.y1, viewH, true, head.y - viewH / 2) + Delta(d).y, world.y0, world.y1)
  {
    AheadAxis(world, true, head, d);
    var next := Ahead(world, true, head, d);
    hide Ahead;
    AxisSteps(world.x0, world.x1, viewW, head.x, Delta(d).x);
    AxisSteps(world.y0, world.y1, viewH, head.y, Delta(d).y);
  }

  lemma OriginInside(lo: int, hi: int, view: int, wish: int)
    requires lo <= hi
    ensures lo <= Origin(lo, hi, view, true, wish) <= hi
  {
  }

  lemma AxisSteps(lo: int, hi: int, view: int, head: int, d: int)
    requires lo <= head <= hi && 1 <= view <= hi - lo + 1 && -1 <= d <= 1
    ensures Origin(lo, hi, view, true, Fold(head + d, lo, hi) - view / 2)
      == Fold(Origin(lo, hi, view, true, head - view / 2) + d, lo, hi)
  {
    hide Origin, Fold;
    OriginInside(lo, hi, view, head - view / 2);
    FoldIsMod(head + d, lo, hi);
    AxisFollows(lo, hi, view, head, Fold(head + d, lo, hi), d);
    FoldIsMod(Origin(lo, hi, view, true, head - view / 2) + d, lo, hi);
  }

  /** On a walled axis the window stays in the world, contains the player, and centres on them
      as far as the walls allow. */
  lemma AxisWalled(lo: int, hi: int, view: int, head: int)
    requires lo <= hi && 1 <= view <= hi - lo + 1 && lo <= head <= hi
    ensures var o := Origin(lo, hi, view, false, head - view / 2);
      && lo <= o && o + view - 1 <= hi && o <= head <= o + view - 1
      && (lo < o < hi - view + 1 ==> head == o + view / 2)
  {
  }

  // ---- The window ----

  class GameView {
    const cfg: Config
    const seat: PlayerID
    var world: Rect
    var window: Rect
    var camera: Point
    var wrapX: bool
    var wrapY: bool
    var clipped: bool

    constructor (cfg: Config, seat: PlayerID)
      ensures this.cfg == cfg && this.seat == seat
    {
      this.cfg, this.seat := cfg, seat;
      world, window, camera := Rect(0, 0, 0, 0), Rect(0, 0, 0, 0), Point(0, 0);
      wrapX, wrapY, clipped := false, false, false;
    }

    ghost predicate Framed()
      reads this
    {
      && 0 <= world.x0 <= world.x1 < cfg.width && 0 <= world.y0 <= world.y1 < cfg.height
      && exists wish: Point :: AxisFramed(wish)
    }

    ghost predicate AxisFramed(wish: Point)
      reads this
    {
      && 1 <= window.Width() <= world.Width() && 1 <= window.Height() <= world.Height()
      && window.x0 == Origin(world.x0, world.x1, window.Width(), wrapX, wish.x)
      && window.y0 == Origin(world.y0, world.y1, window.Height(), wrapY, wish.y)
    }

    /** `arenaWindow`. */
    method ArenaWindow(st: State, availW: int, availH: int) returns (win: Rect)
      requires cfg.width > 0 && cfg.height > 0
      modifies this
      ensures win == window && Framed() && camera == Point(window.x0, window.y0)
      ensures world == ClipToGrid(st.arena, cfg.width, cfg.height)
      ensures window.Width() == Min(world.Width(), Max(availW, MIN_ARENA_VIEW))
      ensures window.Height() == Min(world.Height(), Max(availH, MIN_ARENA_VIEW / 2))
      ensures wrapX == wrapY == cfg.wrap
      ensures clipped <==> window.Width() < world.Width() || window.Height() < world.Height()
      ensures var k := SnakeIndex(st.snakes, seat); k >= 0 && |st.snakes[k].body| > 0 ==>
        AxisFramed(Point(st.snakes[k].body[0].x - window.Width() / 2, st.snakes[k].body[0].y - window.Height() / 2))
    {
      hide ClipToGrid, Origin;
      ClippedFits(st.arena, cfg.width, cfg.height);
      world := ClipToGrid(st.arena, cfg.width, cfg.height);
      var worldW, worldH := world.Width(), world.Height();
      var viewW := ViewSize(worldW, availW, MIN_ARENA_VIEW);
      var viewH := ViewSize(worldH, availH, MIN_ARENA_VIEW / 2);
      wrapX := cfg.wrap && worldW > 0;
      wrapY := cfg.wrap && worldH > 0;
      clipped := viewW < worldW || viewH < worldH;
      var wish := Wish(st, viewW, viewH);
      hide SnakeIndex;
      var x := Origin(world.x0, world.x1, viewW, wrapX, wish.x);
      var y := Origin(world.y0, world.y1, viewH, wrapY, wish.y);
      camera := Point(x, y);
      window := Rect(x, y, x + viewW - 1, y + viewH - 1);
      assert AxisFramed(wish);
      return window;
    }

    /** Where the window would start if the world had no edges: centred on our own snake, alive or
        dead, or on the world. */
    method Wish(st: State, viewW: int, viewH: int) returns (wish: Point)
      ensures var k := SnakeIndex(st.snakes, seat); k >= 0 && |st.snakes[k].body| > 0 ==>
        wish == Point(st.snakes[k].body[0].x - viewW / 2, st.snakes[k].body[0].y - viewH / 2)
    {
      wish := Point(world.x0 + (world.Width() - viewW) / 2, world.y0 + (world.Height() - viewH) / 2);
      var k := FindSnake(st.snakes, seat);
      if k >= 0 && |st.snakes[k].body| > 0 {
        var head := st.snakes[k].body[0];
        wish := Point(head.x - viewW / 2, head.y - viewH / 2);
      }
    }

    /** The buffer index of the cell drawn at a screen position. */
    ghost function CellAt(x: int, y: int): int
      reads this
    {
      Source(world.y0, world.y1, wrapY, y) * cfg.width + Source(world.x0, world.x1, wrapX, x)
    }

    lemma SourcesDiffer(p: Point, q: Point)
      requires Framed() && window.Contains(p) && window.Contains(q)
      ensures world.x0 <= Source(world.x0, world.x1, wrapX, p.x) <= world.x1
      ensures world.y0 <= Source(world.y0, world.y1, wrapY, p.y) <= world.y1
      ensures Source(world.x0, world.x1, wrapX, p.x) == Source(world.x0, world.x1, wrapX, q.x) ==> p.x == q.x
      ensures Source(world.y0, world.y1, wrapY, p.y) == Source(world.y0, world.y1, wrapY, q.y) ==> p.y == q.y
    {
      hide Source, Origin;
      var wish: Point :| AxisFramed(wish);
      AxisShown(world.x0, world.x1, window.Width(), wrapX, wish.x, p.x - window.x0, q.x - window.x0);
      AxisShown(world.y0, world.y1, window.Height(), wrapY, wish.y, p.y - window.y0, q.y - window.y0);
    }

    /** Every lookup is in the buffer, and no two screen positions show the same cell. */
    lemma CellsInBuffer(p: Point, q: Point)
      requires Framed() && window.Contains(p) && window.Contains(q)
      ensures 0 <= CellAt(p.x, p.y) < cfg.width * cfg.height
      ensures CellAt(p.x, p.y) == CellAt(q.x, q.y) ==> p == q
    {
      hide Source;
      SourcesDiffer(p, q);
      SourcesDiffer(q, p);
      RowMajor(Source(world.x0, world.x1, wrapX, p.x), Source(world.y0, world.y1, wrapY, p.y),
               Source(world.x0, world.x1, wrapX, q.x), Source(world.y0, world.y1, wrapY, q.y), cfg.width, cfg.height);
    }

    /** The loops of `frameArena` over the visible cells, without the escapes and the border. */
    method FrameArena<T>(buf: seq<T>) returns (rows: seq<seq<T>>)
      requires Framed() && |buf| == cfg.width * cfg.height
      ensures |rows| == window.Height() && forall i :: 0 <= i < |rows| ==> RowShown(buf, window.y0 + i, rows[i])
    {
      hide RowShown, Framed;
      rows := [];
      FramedSize();
      for y := window.y0 to window.y1 + 1
        invariant |rows| == y - window.y0
        invariant forall i :: 0 <= i < |rows| ==> RowShown(buf, window.y0 + i, rows[i])
      {
        var row := FrameRow(buf, y);
        rows := rows + [row];
      }
    }

    lemma FramedSize()
      requires Framed()
      ensures window.x0 <= window.x1 && window.y0 <= window.y1
    {
    }

    /** One screen row shows the cells it should, left to right. */
    ghost predicate RowShown<T>(buf: seq<T>, y: int, row: seq<T>)
      reads this
    {
      && |row| == window.Width()
      && forall j :: 0 <= j < |row| ==> Shown(buf, window.x0 + j, y, row[j])
    }

    ghost predicate Shown<T>(buf: seq<T>, x: int, y: int, c: T)
      reads this
    {
      0 <= CellAt(x, y) < |buf| && c == buf[CellAt(x, y)]
    }

    method FrameRow<T>(buf: seq<T>, y: int) returns (row: seq<T>)
      requires Framed() && |buf| == cfg.width * cfg.height && window.y0 <= y <= window.y1
      ensures RowShown(buf, y, row)
    {
      hide Framed, Shown;
      FramedSize();
      row := [];
      for x := window.x0 to window.x1 + 1
        invariant |row| == x - window.x0
        invariant forall j :: 0 <= j < |row| ==> Shown(buf, window.x0 + j, y, row[j])
      {
        var c := Lookup(buf, x, y);
        row := row + [c];
      }
    }

    /** The cell at one screen position. */
    method Lookup<T>(buf: seq<T>, x: int, y: int) returns (c: T)
      requires Framed() && |buf| == cfg.width * cfg.height && window.Contains(Point(x, y))
      ensures Shown(buf, x, y, c)
    {
      CellsInBuffer(Point(x, y), Point(x, y));
      hide Framed;
      var sx, sy := x, y;
      if wrapY {
        sy := world.y0 + Mod(y - world.y0, world.Height());
      }
      if wrapX {
        sx := world.x0 + Mod(x - world.x0, world.Width());
      }
      assert sy * cfg.width + sx == CellAt(x, y);
      return buf[sy * cfg.width + sx];
    }
  }

  lemma RowFits(x: int, y: int, width: int, height: int)
    requires 0 <= x < width && 0 <= y < height
    ensures 0 <= y * width + x < width * height
  {
    assert (height - 1 - y) * width >= 0;
    assert (height - 1 - y) * width == width * height - width - y * width;
    assert y * width >= 0;
  }

  lemma RowMajor(x: int, y: int, u: int, v: int, width: int, height: int)
    requires 0 <= x < width && 0 <= u < width && 0 <= y < height && 0 <= v < height
    ensures 0 <= y * width + x < width * height
    ensures y * width + x == v * width + u ==> x == u && y == v
  {
    RowFits(x, y, width, height);
    if y * width + x == v * width + u {
      assert (y - v) * width == y * width - v * width;
      SmallMultiple(y - v, width);
    }
  }
}
