/** The bounded flood fill a bot judges open space by (`openRoom`). */
module FloodFill {
  import opened Types
  import Sorting

  const BUDGET := 24

  /** q is next to p, inside the arena and not blocked. */
  predicate Open(arena: Rect, blocked: set<Point>, wrap: bool, p: Point, d: Direction, q: Point)
    requires wrap ==> arena.Width() > 0 && arena.Height() > 0
  {
    d <= LEFT && q == Ahead(arena, wrap, p, d) && arena.Contains(q) && q !in blocked
  }

  ghost predicate Adjoins(arena: Rect, blocked: set<Point>, wrap: bool, p: Point, q: Point)
    requires wrap ==> arena.Width() > 0 && arena.Height() > 0
  {
    exists d :: Open(arena, blocked, wrap, p, d, q)
  }

  ghost predicate IsPath(arena: Rect, blocked: set<Point>, wrap: bool, p: Point, path: seq<Point>)
    requires wrap ==> arena.Width() > 0 && arena.Height() > 0
  {
    && |path| > 0 && path[0] == p
    && forall k :: 0 <= k < |path| - 1 ==> Adjoins(arena, blocked, wrap, path[k], path[k + 1])
  }

  ghost predicate Reachable(arena: Rect, blocked: set<Point>, wrap: bool, p: Point, q: Point)
    requires wrap ==> arena.Width() > 0 && arena.Height() > 0
  {
    exists path :: IsPath(arena, blocked, wrap, p, path) && path[|path| - 1] == q
  }

  ghost function Cells(arena: Rect): set<Point> {
    set x, y | arena.x0 <= x <= arena.x1 && arena.y0 <= y <= arena.y1 :: Point(x, y)
  }

  /** The cells that can be reached from p through unblocked cells, p itself included. */
  ghost function Region(arena: Rect, blocked: set<Point>, wrap: bool, p: Point): set<Point>
    requires wrap ==> arena.Width() > 0 && arena.Height() > 0
  {
    set q | q in Cells(arena) + {p} && Reachable(arena, blocked, wrap, p, q)
  }

  lemma StartReachable(arena: Rect, blocked: set<Point>, wrap: bool, p: Point)
    requires wrap ==> arena.Width() > 0 && arena.Height() > 0
    ensures Reachable(arena, blocked, wrap, p, p)
  {
    assert IsPath(arena, blocked, wrap, p, [p]);
  }

  lemma OneFurther(arena: Rect, blocked: set<Point>, wrap: bool, p: Point, c: Point, q: Point)
    requires wrap ==> arena.Width() > 0 && arena.Height() > 0
    requires Reachable(arena, blocked, wrap, p, c) && Adjoins(arena, blocked, wrap, c, q)
    ensures Reachable(arena, blocked, wrap, p, q)
  {
    var path :| IsPath(arena, blocked, wrap, p, path) && path[|path| - 1] == c;
    var longer := path + [q];
    forall k | 0 <= k < |longer| - 1
      ensures Adjoins(arena, blocked, wrap, longer[k], longer[k + 1])
    {
      if k < |path| - 1 {
        assert Adjoins(arena, blocked, wrap, path[k], path[k + 1]);
      }
    }
    assert IsPath(arena, blocked, wrap, p, longer) && longer[|longer| - 1] == q;
  }

  ghost predicate Closed(arena: Rect, blocked: set<Point>, wrap: bool, s: set<Point>)
    requires wrap ==> arena.Width() > 0 && arena.Height() > 0
  {
    forall c, q :: c in s && Adjoins(arena, blocked, wrap, c, q) ==> q in s
  }

  lemma {:induction false} ClosedHoldsPath(
    arena: Rect, blocked: set<Point>, wrap: bool, p: Point, s: set<Point>, path: seq<Point>, k: nat)
    requires wrap ==> arena.Width() > 0 && arena.Height() > 0
    requires p in s && Closed(arena, blocked, wrap, s) && IsPath(arena, blocked, wrap, p, path) && k < |path|
    ensures path[k] in s
  {
    if k > 0 {
      ClosedHoldsPath(arena, blocked, wrap, p, s, path, k - 1);
      assert Adjoins(arena, blocked, wrap, path[k - 1], path[k]);
    }
  }

  lemma ClosedHoldsRegion(arena: Rect, blocked: set<Point>, wrap: bool, p: Point, s: set<Point>)
    requires wrap ==> arena.Width() > 0 && arena.Height() > 0
    requires p in s && Closed(arena, blocked, wrap, s)
    ensures Region(arena, blocked, wrap, p) <= s
  {
    forall q | q in Region(arena, blocked, wrap, p)
      ensures q in s
    {
      var path :| IsPath(arena, blocked, wrap, p, path) && path[|path| - 1] == q;
      ClosedHoldsPath(arena, blocked, wrap, p, s, path, |path| - 1);
    }
  }

  /** The bookkeeping of the fill: what is done, what waits, and that all of it is in reach. */
  ghost predicate Filling(done: set<Point>, queue: seq<Point>, seen: set<Point>, region: set<Point>) {
    && Sorting.NoRepeats(queue)
    && (forall q :: q in queue ==> q !in done)
    && (forall q :: q in seen <==> q in done || q in queue)
    && seen <= region
  }

  lemma Enqueued(done: set<Point>, queue: seq<Point>, seen: set<Point>, region: set<Point>, q: Point)
    requires Filling(done, queue, seen, region) && q !in seen && q in region
    ensures Filling(done, queue + [q], seen + {q}, region)
  {
  }

  lemma Dequeued(done: set<Point>, queue: seq<Point>, seen: set<Point>, region: set<Point>)
    requires Filling(done, queue, seen, region) && |queue| > 0
    ensures Filling(done + {queue[0]}, queue[1..], seen, region)
    ensures queue[0] !in done && queue[0] in region
  {
    assert queue == [queue[0]] + queue[1..];
  }

  /** Looks at the four neighbours of one cell. */
  method Expand(
    p: Point, arena: Rect, blocked: set<Point>, wrap: bool, cur: Point, seen0: set<Point>, queue0: seq<Point>,
    ghost done: set<Point>) returns (seen: set<Point>, queue: seq<Point>)
    requires wrap ==> arena.Width() > 0 && arena.Height() > 0
    requires Reachable(arena, blocked, wrap, p, cur)
    requires Filling(done, queue0, seen0, Region(arena, blocked, wrap, p))
    ensures Filling(done, queue, seen, Region(arena, blocked, wrap, p))
    ensures seen0 <= seen
    ensures forall q :: Adjoins(arena, blocked, wrap, cur, q) ==> q in seen
  {
    hide Filling, Reachable;
    seen, queue := seen0, queue0;
    var d: Direction := 0;
    while d < 4
      invariant d <= 4
      invariant Filling(done, queue, seen, Region(arena, blocked, wrap, p))
      invariant seen0 <= seen
      invariant forall e: Direction, q :: e < d && Open(arena, blocked, wrap, cur, e, q) ==> q in seen
    {
      var v := Delta(d);
      var next := Point(cur.x + v.x, cur.y + v.y);
      if !arena.Contains(next) && wrap {
        next := WrapInto(next, arena);
      }
      if arena.Contains(next) && next !in seen && next !in blocked {
        assert Open(arena, blocked, wrap, cur, d, next);
        OneFurther(arena, blocked, wrap, p, cur, next);
        Enqueued(done, queue, seen, Region(arena, blocked, wrap, p), next);
        seen := seen + {next};
        queue := queue + [next];
      }
      d := d + 1;
    }
  }

  /** Exactly the size of the region, counted up to the budget. */
  method OpenRoom(p: Point, arena: Rect, blocked: set<Point>, wrap: bool) returns (count: nat)
    requires wrap ==> arena.Width() > 0 && arena.Height() > 0
    ensures count == var n := |Region(arena, blocked, wrap, p)|; if n < BUDGET then n else BUDGET
  {
    var seen: set<Point> := {p};
    var queue: seq<Point> := [p];
    count := 0;
    ghost var done: set<Point> := {};
    ghost var region := Region(arena, blocked, wrap, p);
    StartReachable(arena, blocked, wrap, p);
    while |queue| > 0 && count < BUDGET
      invariant |done| == count <= BUDGET
      invariant Filling(done, queue, seen, region)
      invariant p in seen
      invariant forall c, q :: c in done && Adjoins(arena, blocked, wrap, c, q) ==> q in seen
      decreases BUDGET - count
    {
      var cur := queue[0];
      Dequeued(done, queue, seen, region);
      queue := queue[1..];
      count := count + 1;
      done := done + {cur};
      seen, queue := Expand(p, arena, blocked, wrap, cur, seen, queue, done);
    }
    if |queue| == 0 {
      assert seen == done && Closed(arena, blocked, wrap, seen);
      ClosedHoldsRegion(arena, blocked, wrap, p, seen);
      assert seen == region;
    } else {
      assert done <= region;
      Sorting.SubsetSize(done, region);
    }
  }
}
