/** Why a seat can always be put down: internal/game/spawn.go after the ring layout. */
module Spawn {
  import opened Types
  import Sorting

  /** The straight run of three cells trailing a heading. */
  function Trail(head: Point, dir: Direction): (run: seq<Point>)
    ensures |run| == START_LENGTH
  {
    var back := Delta(Opposite(dir));
    [head, Point(head.x + back.x, head.y + back.y), Point(head.x + 2 * back.x, head.y + 2 * back.y)]
  }

  ghost predicate Overlaps(snakes: seq<Snake>, body: seq<Point>) {
    exists i, p :: 0 <= i < |snakes| && p in body && p in snakes[i].body
  }

  ghost predicate Clear(arena: Rect, snakes: seq<Snake>, head: Point, dir: Direction) {
    && (forall k :: 0 <= k < START_LENGTH ==> arena.Contains(Trail(head, dir)[k]))
    && !Overlaps(snakes, Trail(head, dir))
  }

  /** The cell nearest to the one proposed that is not on the edge. */
  ghost predicate NearestInside(a: Rect, proposed: Point, head: Point) {
    && head.x == Max(a.x0 + 1, Min(proposed.x, a.x1 - 1))
    && head.y == Max(a.y0 + 1, Min(proposed.y, a.y1 - 1))
  }

  /** Three cells in a row, the head first, seen from the way it faces. */
  function Row(head: Point, dir: Direction): seq<Point> {
    [head, Point(head.x - Delta(dir).x, head.y - Delta(dir).y),
     Point(head.x - 2 * Delta(dir).x, head.y - 2 * Delta(dir).y)]
  }

  /** A snake faces as proposed, or the other way if its trail would leave the arena; and it is where
      proposed unless somebody is there already. */
  ghost predicate AsProposed(a: Rect, snakes: seq<Snake>, proposed: Point, heading: Direction, sn: Snake) {
    exists head :: NearestInside(a, proposed, head) && FromHead(a, snakes, head, heading, sn)
  }

  ghost predicate FromHead(a: Rect, snakes: seq<Snake>, head: Point, heading: Direction, sn: Snake) {
    && sn.dir == (if a.Contains(Row(head, heading)[2]) then heading else Opposite(heading))
    && ((forall i, k :: 0 <= i < |snakes| && 0 <= k < 3 ==> Row(head, sn.dir)[k] !in snakes[i].body) ==>
          sn.body == Row(head, sn.dir))
  }

  lemma RowIsTrail(head: Point, dir: Direction)
    requires dir <= LEFT
    ensures Row(head, dir) == Trail(head, dir) && Opposite(dir) <= LEFT
  {
  }

  lemma PlacedAsProposed(a: Rect, snakes: seq<Snake>, proposed: Point, head: Point, heading: Direction, sn: Snake)
    requires NearestInside(a, proposed, head) && heading <= LEFT
    requires sn.dir == if a.Contains(Trail(head, heading)[2]) then heading else Opposite(heading)
    requires !Overlaps(snakes, Trail(head, sn.dir)) ==> sn.body == Trail(head, sn.dir)
    ensures AsProposed(a, snakes, proposed, heading, sn)
  {
    hide Row, Trail, Opposite, NearestInside;
    RowIsTrail(head, heading);
    RowIsTrail(head, sn.dir);
    var row := Row(head, sn.dir);
    if Overlaps(snakes, row) {
      var i, p :| 0 <= i < |snakes| && p in row && p in snakes[i].body;
      var k :| 0 <= k < |row| && row[k] == p;
    }
    assert FromHead(a, snakes, head, heading, sn);
  }

  predicate Interior(arena: Rect, p: Point) {
    arena.x0 + 1 <= p.x <= arena.x1 - 1 && arena.y0 + 1 <= p.y <= arena.y1 - 1
  }

  ghost function BodyCells(snakes: seq<Snake>): seq<Point> {
    if |snakes| == 0 then [] else BodyCells(snakes[..|snakes|-1]) + snakes[|snakes|-1].body
  }

  lemma {:induction false} BodyCellsMember(snakes: seq<Snake>, i: int, p: Point)
    requires 0 <= i < |snakes| && p in snakes[i].body
    ensures p in BodyCells(snakes)
  {
    if i < |snakes| - 1 {
      BodyCellsMember(snakes[..|snakes|-1], i, p);
    }
  }

  lemma {:induction false} BodyCellsSize(snakes: seq<Snake>)
    requires forall i :: 0 <= i < |snakes| ==> |snakes[i].body| == START_LENGTH
    ensures |BodyCells(snakes)| == START_LENGTH * |snakes|
  {
    if |snakes| > 0 {
      BodyCellsSize(snakes[..|snakes|-1]);
    }
  }

  const ANCHORS := 22

  /** A heading's k-th place in a packing of the smallest arena by disjoint runs. */
  function Anchor(dir: Direction, k: nat): Point {
    if dir == RIGHT then Point(2 + 3 * (k % 5), 1 + k / 5)
    else if dir == LEFT then Point(1 + 3 * (k % 5), 1 + k / 5)
    else if dir == DOWN then Point(1 + k / 3, 2 + 3 * (k % 3))
    else Point(1 + k / 3, 1 + 3 * (k % 3))
  }

  lemma AnchorFits(cfg: Config, dir: Direction, k: nat)
    requires cfg.Valid() && dir <= LEFT && k < ANCHORS
    ensures Interior(cfg.Arena(), Anchor(dir, k))
    ensures forall j :: 0 <= j < START_LENGTH ==> cfg.Arena().Contains(Trail(Anchor(dir, k), dir)[j])
  {
  }

  lemma AnchorsDisjoint(dir: Direction, j: nat, k: nat, p: Point)
    requires dir <= LEFT && j < k < ANCHORS
    requires p in Trail(Anchor(dir, j), dir)
    ensures p !in Trail(Anchor(dir, k), dir)
  {
  }

  predicate InRun(dir: Direction, k: nat, p: Point) {
    p in Trail(Anchor(dir, k), dir)
  }

  ghost predicate Blocks(snakes: seq<Snake>, dir: Direction, k: nat, p: Point) {
    InRun(dir, k, p) && p in BodyCells(snakes)
  }

  lemma BlockerOf(snakes: seq<Snake>, dir: Direction, k: nat) returns (p: Point)
    requires Overlaps(snakes, Trail(Anchor(dir, k), dir))
    ensures Blocks(snakes, dir, k, p)
  {
    hide Anchor, Trail;
    var i, q :| 0 <= i < |snakes| && q in Trail(Anchor(dir, k), dir) && q in snakes[i].body;
    BodyCellsMember(snakes, i, q);
    p := q;
  }

  /** If each of the first n anchors runs into a body, the bodies have n cells between them. */
  lemma {:induction false} Blockers(snakes: seq<Snake>, dir: Direction, n: nat) returns (cells: set<Point>)
    requires dir <= LEFT && n <= ANCHORS
    requires forall k :: 0 <= k < n ==> Overlaps(snakes, Trail(Anchor(dir, k), dir))
    ensures |cells| == n
    ensures forall p :: p in cells ==> exists k :: 0 <= k < n && Blocks(snakes, dir, k, p)
  {
    hide Anchor, Trail, Overlaps, BodyCells;
    if n == 0 {
      cells := {};
    } else {
      var fewer := Blockers(snakes, dir, n - 1);
      var p := BlockerOf(snakes, dir, n - 1);
      if p in fewer {
        var k :| 0 <= k < n - 1 && Blocks(snakes, dir, k, p);
        AnchorsDisjoint(dir, k, n - 1, p);
      }
      cells := fewer + {p};
    }
  }

  /** With at most seven snakes down, some straight run in the interior is clear: 22
      disjoint candidates cannot all be blocked by 21 cells. */
  lemma ClearRunExists(cfg: Config, snakes: seq<Snake>, dir: Direction)
    requires cfg.Valid() && dir <= LEFT && |snakes| < MAX_PLAYERS
    requires forall i :: 0 <= i < |snakes| ==> |snakes[i].body| == START_LENGTH
    ensures exists p :: Interior(cfg.Arena(), p) && Clear(cfg.Arena(), snakes, p, dir)
  {
    if k :| 0 <= k < ANCHORS && !Overlaps(snakes, Trail(Anchor(dir, k), dir)) {
      AnchorFits(cfg, dir, k);
      assert Clear(cfg.Arena(), snakes, Anchor(dir, k), dir);
    } else {
      var cells := Blockers(snakes, dir, ANCHORS);
      BodyCellsSize(snakes);
      Sorting.SubsetSize(cells, Sorting.Elements(BodyCells(snakes)));
      assert false;
    }
  }
}
