/** A small lobby and a small board, for the lemmas that show that something does happen. */
module Samples {
  import opened Types
  import opened Movement
  import opened World
  import opened Records
  import Runs
  import Soundness

  function PlainDigest(s: string): string { s }

  predicate PlainKey(key: string) { key != "" }

  predicate PlainSig(key: string, hash: string, sig: string) { sig == key + hash }

  /** A digest without collisions, and signatures that nobody could mistake. */
  const PLAIN := Crypto(PlainDigest, PlainKey, PlainSig, AnnSigns, PlainTime)

  /** Ann is whoever runs the code. */
  function AnnSigns(hash: string): string { "ann" + hash }

  function PlainTime(now: int): string { Decimal(now) }

  const FRIENDLY := Config("friendly", 24, 24, 20, 2, 2, true, 1, 0, 0)

  // ---- A board with two snakes ----

  function Straight(id: PlayerID, y: int): Snake {
    Snake(id, [Point(5, y), Point(4, y), Point(3, y)], RIGHT, true, false, 0, 0, 0, START_LENGTH, -1, 0, UP, false)
  }

  const BOARD := World(State(0, [Straight(0, 5), Straight(1, 10)], [Point(20, 20)], FRIENDLY.Arena(), false), [], false)

  lemma BoardFood(cfg: Config)
    requires cfg == FRIENDLY.(seed := cfg.seed)
    ensures Replenished(BOARD.st.(food := []), cfg.foodCount, BOARD.st.food)
  {
    var bare := BOARD.st.(food := []);
    assert !Occupied(bare.snakes, Point(20, 20)) by {
      forall i | 0 <= i < |bare.snakes|
        ensures Point(20, 20) !in bare.snakes[i].body
      {
      }
    }
    assert Free(bare, BOARD.st.food[0]);
  }

  lemma StraightIsSpawned(id: PlayerID, y: int)
    requires 0 <= y < 24
    ensures Runs.Spawned(FRIENDLY.Arena(), Straight(id, y))
  {
  }

  lemma RowsApart(id: PlayerID, y: int, other: PlayerID, z: int)
    requires y != z
    ensures Soundness.Disjoint(Straight(id, y).body, Straight(other, z).body)
  {
  }

  lemma BoardIsStarted(seed: int)
    ensures Runs.Started(FRIENDLY.(seed := seed), BOARD)
  {
    hide Replenished, Straight, Runs.Spawned, Soundness.Disjoint;
    BoardFood(FRIENDLY.(seed := seed));
    StraightIsSpawned(0, 5);
    StraightIsSpawned(1, 10);
    RowsApart(0, 5, 1, 10);
    RowsApart(1, 10, 0, 5);
    assert SortedIds(BOARD.st.snakes) by { StraightIds(); }
  }

  lemma StraightIds()
    ensures SortedIds(BOARD.st.snakes)
  {
  }

  /** The board once the second snake is eliminated: the first is the last one standing. */
  lemma LoneSurvivor()
    ensures Eliminated(BOARD, 1).st.over && Eliminated(BOARD, 1).finished
  {
    var snakes := BOARD.st.snakes;
    assert SnakeIndex(snakes[1..], 1) == 0;
    assert SnakeIndex(snakes, 1) == 1;
    var dead := Killed(BOARD, 1).st.snakes;
    assert AliveCount(dead[..1]) == 1 by { assert AliveCount(dead[..1][..0]) == 0; }
    assert AliveCount(dead) == 1;
  }
}
