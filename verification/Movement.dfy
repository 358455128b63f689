/**
 The simultaneous rule that `Sim.advance` implements with its sequence of loops: what
 becomes of each snake is stated against the pre-move world alone, with no order in it.
 */
module Movement {
  import opened Types

  /** The cells of one snake that stay solid during a move: the tail of a snake that is
      not growing is about to vacate. */
  function SolidCells(sn: Snake): (cells: seq<Point>)
    ensures forall p :: p in cells ==> p in sn.body
  {
    if !sn.alive || |sn.body| == 0 then []
    else if sn.grow == 0 then sn.body[..|sn.body|-1]
    else sn.body
  }

  /** A queued heading is taken up at the start of the move. */
  function Turned(sn: Snake): Snake {
    if sn.hasPending then sn.(dir := sn.pending, hasPending := false) else sn
  }

  /** Every living snake has a head and a wrapping arena has cells to wrap onto. */
  ghost predicate Playable(st: State, wrap: bool) {
    && (wrap ==> st.arena.Width() > 0 && st.arena.Height() > 0)
    && forall i :: 0 <= i < |st.snakes| && st.snakes[i].alive ==> |st.snakes[i].body| > 0
  }

  predicate Lives(st: State, i: int) {
    0 <= i < |st.snakes| && st.snakes[i].alive
  }

  function HeadAfter(st: State, wrap: bool, i: int): Point
    requires Playable(st, wrap) && Lives(st, i)
  {
    Ahead(st.arena, wrap, st.snakes[i].body[0], Turned(st.snakes[i]).dir)
  }

  ghost predicate Leaves(st: State, wrap: bool, i: int)
    requires Playable(st, wrap) && Lives(st, i)
  {
    !st.arena.Contains(HeadAfter(st, wrap, i))
  }

  ghost predicate HeadOn(st: State, wrap: bool, i: int)
    requires Playable(st, wrap) && Lives(st, i)
  {
    exists j :: j != i && Lives(st, j) && HeadAfter(st, wrap, j) == HeadAfter(st, wrap, i)
  }

  ghost predicate Hits(st: State, wrap: bool, i: int)
    requires Playable(st, wrap) && Lives(st, i)
  {
    exists j :: Lives(st, j) && HeadAfter(st, wrap, i) in SolidCells(st.snakes[j])
  }

  /** The rule of death: out of a walled arena, into another arriving head, or into a cell
      that is solid before anybody has moved. */
  ghost predicate Dies(st: State, wrap: bool, i: int)
    requires Playable(st, wrap) && Lives(st, i)
  {
    Leaves(st, wrap, i) || HeadOn(st, wrap, i) || Hits(st, wrap, i)
  }

  ghost predicate Survives(st: State, wrap: bool, i: int)
    requires Playable(st, wrap)
  {
    Lives(st, i) && !Dies(st, wrap, i)
  }

  /** One step of a survivor: the new head, two segments of growth per pellet, and the
      tail dropped when no growth is due. */
  function Grown(sn: Snake, head: Point, ate: bool): Snake
    requires |sn.body| > 0
  {
    var grow := sn.grow + (if ate then 2 else 0);
    var body := if grow > 0 then [head] + sn.body else [head] + sn.body[..|sn.body|-1];
    sn.(body := body,
        grow := if grow > 0 then grow - 1 else grow,
        score := sn.score + (if ate then 1 else 0),
        maxLength := if |body| > sn.maxLength then |body| else sn.maxLength)
  }

  /** What becomes of snake i, kill credits aside. */
  ghost function Outcome(st: State, wrap: bool, i: int): Snake
    requires Playable(st, wrap) && 0 <= i < |st.snakes|
  {
    var sn := st.snakes[i];
    if !sn.alive then sn
    else if Dies(st, wrap, i) then Turned(sn).(alive := false, diedAtTick := st.tick)
    else Grown(Turned(sn), HeadAfter(st, wrap, i), HeadAfter(st, wrap, i) in st.food)
  }

  /** The last snake in seat order that is solid at p, which is the one the map of solid
      cells names as owner; -1 when the cell is clear. */
  function LastSolid(snakes: seq<Snake>, p: Point): (k: int)
    ensures -1 <= k < |snakes|
    ensures k >= 0 ==> p in SolidCells(snakes[k])
    ensures forall j :: k < j < |snakes| ==> p !in SolidCells(snakes[j])
  {
    if |snakes| == 0 then -1
    else if p in SolidCells(snakes[|snakes|-1]) then |snakes| - 1
    else LastSolid(snakes[..|snakes|-1], p)
  }

  /** Who is credited with the death of snake i, as an index: nobody for a wall, for a
      head-on or for a snake's own body. */
  ghost function KillerOf(st: State, wrap: bool, i: int): (k: int)
    requires Playable(st, wrap) && Lives(st, i)
    ensures -1 <= k < |st.snakes|
  {
    if Leaves(st, wrap, i) || HeadOn(st, wrap, i) then -1
    else
      var k := LastSolid(st.snakes, HeadAfter(st, wrap, i));
      if k >= 0 && st.snakes[k].id != st.snakes[i].id then k else -1
  }

  /** The snakes that die in this move, in seat order. */
  ghost function Doomed(st: State, wrap: bool, n: nat): (ds: seq<int>)
    requires Playable(st, wrap) && n <= |st.snakes|
    ensures forall k :: 0 <= k < |ds| ==> 0 <= ds[k] < n && Lives(st, ds[k])
  {
    if n == 0 then []
    else if st.snakes[n - 1].alive && Dies(st, wrap, n - 1) then Doomed(st, wrap, n - 1) + [n - 1]
    else Doomed(st, wrap, n - 1)
  }

  lemma {:induction false} DoomedAreTheDying(st: State, wrap: bool, n: nat, i: int)
    requires Playable(st, wrap) && n <= |st.snakes|
    ensures i in Doomed(st, wrap, n) <==> 0 <= i < n && Lives(st, i) && Dies(st, wrap, i)
  {
    hide Dies, Playable;
    if n > 0 {
      DoomedAreTheDying(st, wrap, n - 1, i);
    }
  }

  lemma {:induction false} DoomedInSeatOrder(st: State, wrap: bool, n: nat, a: nat, b: nat)
    requires Playable(st, wrap) && n <= |st.snakes| && a < b < |Doomed(st, wrap, n)|
    ensures Doomed(st, wrap, n)[a] < Doomed(st, wrap, n)[b]
  {
    hide Dies, Playable;
    if b < |Doomed(st, wrap, n - 1)| {
      DoomedInSeatOrder(st, wrap, n - 1, a, b);
    }
  }

  /** How many of the victims are credited to snake j. */
  ghost function Credits(st: State, wrap: bool, victims: seq<int>, j: int): nat
    requires Playable(st, wrap) && forall k :: 0 <= k < |victims| ==> Lives(st, victims[k])
  {
    if |victims| == 0 then 0
    else
      Credits(st, wrap, victims[..|victims|-1], j)
      + (if KillerOf(st, wrap, victims[|victims|-1]) == j then 1 else 0)
  }

  /** One of the first n snakes survives the move and arrives at p. */
  ghost predicate Eaten(st: State, wrap: bool, n: nat, p: Point)
    requires Playable(st, wrap)
  {
    exists i :: i < n && Survives(st, wrap, i) && HeadAfter(st, wrap, i) == p
  }

  /** The pellets that the first n snakes leave, in their order. */
  ghost function FoodLeft(st: State, wrap: bool, n: nat, food: seq<Point>): (left: seq<Point>)
    requires Playable(st, wrap)
    ensures forall p :: p in left <==> p in food && !Eaten(st, wrap, n, p)
  {
    if |food| == 0 then []
    else
      var rest := FoodLeft(st, wrap, n, food[..|food|-1]);
      if Eaten(st, wrap, n, food[|food|-1]) then rest else rest + [food[|food|-1]]
  }

  /** What becomes of snake i, with the kills it is credited for. */
  ghost function MovedSnake(st: State, wrap: bool, i: int): Snake
    requires Playable(st, wrap) && 0 <= i < |st.snakes|
  {
    Outcome(st, wrap, i).(kills := st.snakes[i].kills + Credits(st, wrap, Doomed(st, wrap, |st.snakes|), i))
  }

  /** The world after the move, before food is topped up. */
  ghost function Moved(st: State, wrap: bool): (st': State)
    requires Playable(st, wrap)
    ensures |st'.snakes| == |st.snakes|
    ensures st' == st.(snakes := st'.snakes, food := FoodLeft(st, wrap, |st.snakes|, st.food))
    ensures forall i :: 0 <= i < |st.snakes| ==> st'.snakes[i] == MovedSnake(st, wrap, i)
  {
    var snakes := seq(|st.snakes|, i requires 0 <= i < |st.snakes| => MovedSnake(st, wrap, i));
    st.(snakes := snakes, food := FoodLeft(st, wrap, |st.snakes|, st.food))
  }

  ghost predicate Occupied(snakes: seq<Snake>, p: Point) {
    exists i :: 0 <= i < |snakes| && snakes[i].alive && p in snakes[i].body
  }

  /** `freeCell` can return p. */
  ghost predicate Free(st: State, p: Point) {
    st.arena.Contains(p) && p !in st.food && !Occupied(st.snakes, p)
  }

  /** Food was topped up to the given count, stopping short only in a full arena. */
  ghost predicate Replenished(st: State, count: int, food: seq<Point>) {
    && |st.food| <= |food|
    && food[..|st.food|] == st.food
    && (|food| > |st.food| ==> |food| <= count)
    && (forall k :: |st.food| <= k < |food| ==> Free(st, food[k]) && food[k] !in food[..k])
    && (|food| < count ==> forall p :: Free(st, p) ==> p in food)
  }

  // ---- The rule does not depend on seat order ----

  ghost predicate Permutation(perm: seq<int>, inv: seq<int>) {
    && |perm| == |inv|
    && (forall k :: 0 <= k < |perm| ==> 0 <= perm[k] < |perm| && inv[perm[k]] == k)
    && (forall k :: 0 <= k < |inv| ==> 0 <= inv[k] < |inv| && perm[inv[k]] == k)
  }

  ghost predicate Reordered(st: State, st2: State, perm: seq<int>, inv: seq<int>) {
    && Permutation(perm, inv)
    && |perm| == |st.snakes| == |st2.snakes|
    && st2 == st.(snakes := st2.snakes)
    && forall k :: 0 <= k < |perm| ==> st2.snakes[k] == st.snakes[perm[k]]
  }

  lemma ReorderedDies(st: State, st2: State, wrap: bool, perm: seq<int>, inv: seq<int>, k: int)
    requires Playable(st, wrap) && Playable(st2, wrap) && Reordered(st, st2, perm, inv) && Lives(st2, k)
    ensures Lives(st, perm[k]) && HeadAfter(st2, wrap, k) == HeadAfter(st, wrap, perm[k])
    ensures Dies(st2, wrap, k) == Dies(st, wrap, perm[k])
  {
    var i := perm[k];
    if j :| j != i && Lives(st, j) && HeadAfter(st, wrap, j) == HeadAfter(st, wrap, i) {
      assert Lives(st2, inv[j]) && HeadAfter(st2, wrap, inv[j]) == HeadAfter(st2, wrap, k);
    }
    if j :| Lives(st, j) && HeadAfter(st, wrap, i) in SolidCells(st.snakes[j]) {
      assert Lives(st2, inv[j]) && HeadAfter(st2, wrap, k) in SolidCells(st2.snakes[inv[j]]);
    }
    if j :| j != k && Lives(st2, j) && HeadAfter(st2, wrap, j) == HeadAfter(st2, wrap, k) {
      assert Lives(st, perm[j]) && HeadAfter(st, wrap, perm[j]) == HeadAfter(st, wrap, i);
    }
    if j :| Lives(st2, j) && HeadAfter(st2, wrap, k) in SolidCells(st2.snakes[j]) {
      assert Lives(st, perm[j]) && HeadAfter(st, wrap, i) in SolidCells(st.snakes[perm[j]]);
    }
  }

  lemma ReorderedEaten(st: State, st2: State, wrap: bool, perm: seq<int>, inv: seq<int>, p: Point)
    requires Playable(st, wrap) && Playable(st2, wrap) && Reordered(st, st2, perm, inv)
    ensures Eaten(st, wrap, |perm|, p) ==> Eaten(st2, wrap, |perm|, p)
  {
    if i :| i < |perm| && Survives(st, wrap, i) && HeadAfter(st, wrap, i) == p {
      ReorderedDies(st, st2, wrap, perm, inv, inv[i]);
      assert Survives(st2, wrap, inv[i]);
    }
  }

  lemma {:induction false} ReorderedFood(
    st: State, st2: State, wrap: bool, perm: seq<int>, inv: seq<int>, food: seq<Point>)
    requires Playable(st, wrap) && Playable(st2, wrap) && Reordered(st, st2, perm, inv)
    ensures FoodLeft(st2, wrap, |perm|, food) == FoodLeft(st, wrap, |perm|, food)
  {
    if |food| > 0 {
      ReorderedFood(st, st2, wrap, perm, inv, food[..|food|-1]);
      ReorderedEaten(st, st2, wrap, perm, inv, food[|food|-1]);
      ReorderedEaten(st2, st, wrap, inv, perm, food[|food|-1]);
    }
  }

  /** Listing the snakes in another order changes nothing about who lives through a move, where
      anybody ends up, what they grow and score, or what food is left. What it can change is the
      credit for a kill (KillCredit), and the order the dead are booked in, with it their places
      (DeathOrder). */
  lemma NoOrderingAdvantage(st: State, st2: State, wrap: bool, perm: seq<int>, inv: seq<int>)
    requires Playable(st, wrap) && Reordered(st, st2, perm, inv)
    ensures Playable(st2, wrap)
    ensures Moved(st2, wrap).food == Moved(st, wrap).food
    ensures forall k :: 0 <= k < |perm| ==>
      Moved(st2, wrap).snakes[k].(kills := 0) == Moved(st, wrap).snakes[perm[k]].(kills := 0)
  {
    ReorderedFood(st, st2, wrap, perm, inv, st.food);
    forall k | 0 <= k < |perm|
      ensures Moved(st2, wrap).snakes[k].(kills := 0) == Moved(st, wrap).snakes[perm[k]].(kills := 0)
    {
      if Lives(st2, k) {
        ReorderedDies(st, st2, wrap, perm, inv, k);
      }
    }
  }
}
