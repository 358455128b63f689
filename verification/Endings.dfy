/**
 How things in a lobby end: seats, countdowns, matches and records, told without the functions that
 define it (internal/netplay/host.go).
*/
module Endings {
  import opened Types
  import opened Movement
  import opened World
  import opened Roster
  import opened Records
  import opened Attestation
  import opened MatchReport
  import opened Lobby
  import opened LobbyInvariant
  import opened LobbyMoves
  import opened LobbyRuns
  import opened Drops
  import opened Ticks
  import opened Guarantees
  import Effects

  // ---- What the clock calls for ----

  lemma CountingBots(seats: seq<Seat>)
    ensures BotCount(seats) < |seats| <==> exists s :: s in seats && !s.bot
  {
  }

  /** Somebody is there who is no bot, and everybody there is ready. */
  ghost predicate AllAgreed(seats: seq<Seat>) {
    (exists s :: s in seats && !s.bot) && forall s :: s in seats ==> s.player.ready
  }

  lemma ReadyIff(seats: seq<Seat>)
    ensures EveryoneReady(seats) <==> AllAgreed(seats)
  {
    CountingBots(seats);
  }

  /** What comes first in a step of the lobby: an open lobby starts counting once all agree, a countdown
      ends when they no longer do, and becomes a match when its time is up and they still do. */
  lemma StepByTheClock(r: Room, now: int, ms: seq<Move>)
    requires NextStep(r, now, ms)
    ensures r.phase == Open ==> if AllAgreed(r.seats) then |ms| > 0 && ms[0].Begin? else ms == []
    ensures r.phase == Countdown && !AllAgreed(r.seats) ==> |ms| > 0 && ms[0] == Abort
    ensures r.phase == Countdown && AllAgreed(r.seats) && now >= r.countdownEnd ==> |ms| > 0 && ms[0] == Play(now)
    ensures r.phase == Countdown && AllAgreed(r.seats) && now < r.countdownEnd ==> ms == [] || ms[0].Count?
    ensures r.phase == InGame || r.phase == Closed ==> ms == []
  {
    ReadyIff(r.seats);
    hide EveryoneReady, OnlyDrops;
  }

  ghost predicate NoneBegins(ms: seq<Move>) { forall m :: m in ms ==> !m.Begin? }

  lemma DeadlineStays(c: Crypto, r: Room, m: Move)
    requires !m.Begin?
    ensures After(c, r, m).countdownEnd == r.countdownEnd
  {
    hide Accepts, Signed, Admit, NewSeat, BotCount, Unready, Acked, PlayersOf, Coast, Resettled, Clamped, Lost;
    if m.Close? {
      DropsKeepDeadline(r.(record := None), m.lost);
    }
  }

  lemma {:induction false} DropsKeepDeadline(r: Room, ids: seq<PlayerID>)
    ensures Lost(r, ids).countdownEnd == r.countdownEnd
  {
    if |ids| > 0 {
      hide Dropped;
      DropsKeepDeadline(r, ids[..|ids|-1]);
      DropFrame(Lost(r, ids[..|ids|-1]), ids[|ids|-1]);
    }
  }

  lemma {:induction false} RunKeepsDeadline(c: Crypto, r: Room, ms: seq<Move>)
    requires NoneBegins(ms)
    ensures Ran(c, r, ms).countdownEnd == r.countdownEnd
  {
    hide After;
    if |ms| > 0 {
      var init, m := ms[..|ms|-1], ms[|ms|-1];
      assert m in ms && forall x :: x in init ==> x in ms;
      RunKeepsDeadline(c, r, init);
      DeadlineStays(c, Ran(c, r, init), m);
    }
  }

  /** Everybody has three seconds to think again: in every run the match a countdown leads to is
      entered that much later at the earliest. */
  lemma ThreeSecondsToThink(c: Crypto, hostKey: string, r: Room, b: Move, ms: seq<Move>, m: Move)
    requires b.Begin? && m.Play? && NoneBegins(ms)
    requires LegalRun(c, hostKey, r, [b] + ms + [m])
    ensures m.now >= b.now + 3_000_000_000
  {
    hide Legal, After, LegalRun, Ran;
    RanOn(c, hostKey, r, [b] + ms, [m]);
    RanOn(c, hostKey, r, [b], ms);
    RunOfOne(c, hostKey, r, b);
    RunOfOne(c, hostKey, Ran(c, r, [b] + ms), m);
    RunKeepsDeadline(c, After(c, r, b), ms);
    Effects.BeginTakesEffect(c, r, b.w, b.matchId, b.seed, b.now);
    PlaysInTime(c, hostKey, Ran(c, r, [b] + ms), m);
  }

  lemma PlaysInTime(c: Crypto, hostKey: string, r: Room, m: Move)
    requires m.Play? && Legal(c, hostKey, r, m)
    ensures m.now >= r.countdownEnd
  {
  }

  // ---- Seats ----

  /** The same seats in the same order, but that only bots are ready. */
  ghost predicate NoneReady(seats: seq<Seat>, seats': seq<Seat>) {
    && |seats'| == |seats|
    && forall k :: 0 <= k < |seats| ==>
         seats'[k] == seats[k].(player := seats[k].player.(ready := seats[k].bot))
  }

  /** Seat k is gone, and the others have closed up. */
  ghost predicate ClosedUp(seats: seq<Seat>, seats': seq<Seat>, k: nat) {
    && k < |seats| && |seats'| == |seats| - 1
    && forall j :: 0 <= j < |seats'| ==> seats'[j] == seats[if j < k then j else j + 1]
  }

  /** One snake is dead as of now, if it was not before; nobody else's life, body or score changes. */
  ghost predicate OneKilled(was: World, now: World, id: PlayerID) {
    && |now.st.snakes| == |was.st.snakes| && now.st.tick == was.st.tick && now.st.food == was.st.food
    && forall i :: 0 <= i < |was.st.snakes| ==>
         var s, t := was.st.snakes[i], now.st.snakes[i];
         if s.id == id && s.alive then
           t == s.(alive := false, diedAtTick := was.st.tick, placement := t.placement)
         else t == s.(placement := t.placement)
  }

  lemma EliminationMeans(cfg: Config, w: World, id: PlayerID)
    requires Inv(cfg, w)
    ensures OneKilled(w, Eliminated(w, id), id)
  {
    hide Rank, Soundness.BodyOk;
    InvSorted(cfg, w);
    hide Inv, Decided;
    var k := SnakeIndex(w.st.snakes, id);
    forall i | 0 <= i < |w.st.snakes|
      ensures w.st.snakes[i].id == id ==> i == k
    {
      IndexOfMember(w.st.snakes, i);
    }
  }

  /** A seat other than the host's is given up: its snake dies if it is playing, and a countdown is
      called off; nobody else's seat changes, but that after a countdown nobody is ready. */
  lemma DropTakesEffect(c: Crypto, hostKey: string, r: Room, k: nat)
    requires RoomInv(c, hostKey, r) && 0 < k < |r.seats|
    ensures var s := r.seats[k]; var r' := After(c, r, Drop(s.id));
      && r' == r.(phase := r'.phase, seats := r'.seats, world := r'.world, lastCount := r'.lastCount,
                  advert := r'.advert, log := r'.log)
      && (r.phase != Countdown ==>
            && r'.phase == r.phase && r'.log == r.log + [Left(s.id)]
            && ClosedUp(r.seats, r'.seats, k))
      && (r.phase == Countdown ==>
            && r'.phase == Open && r'.world == None && r'.log == r.log + [Left(s.id), Cleared]
            && exists mid :: ClosedUp(r.seats, mid, k) && NoneReady(mid, r'.seats))
      && (r.phase == InGame && r.world.Some? ==> r'.world.Some? && OneKilled(r.world.value, r'.world.value, s.id))
      && (r.phase == Open || r.phase == Closed ==> r'.world == r.world)
  {
    hide RoomInv, Inv, Verified, Eliminated, Unready, BotCount, OneKilled;
    Effects.SeatAt(c, hostKey, r, k);
    RosterInOrder(c, hostKey, r, 0, k);
    if r.world.Some? {
      EliminationMeans(r.matchCfg, r.world.value, r.seats[k].id);
    }
    WithoutCloses(r.seats, k);
    UnreadyClears(WithoutAt(r.seats, k));
    assert r.log + [Left(r.seats[k].id)] + [Cleared] == r.log + [Left(r.seats[k].id), Cleared];
  }

  lemma WithoutCloses(seats: seq<Seat>, k: nat)
    requires k < |seats|
    ensures ClosedUp(seats, WithoutAt(seats, k), k)
  {
  }

  lemma UnreadyClears(seats: seq<Seat>)
    ensures NoneReady(seats, Unready(seats))
  {
  }

  /** The host's own seat cannot be dropped, nor one that nobody has. */
  lemma DropIsRefused(c: Crypto, hostKey: string, r: Room, id: PlayerID)
    requires RoomInv(c, hostKey, r) && (id == 0 || forall s :: s in r.seats ==> s.id != id)
    ensures After(c, r, Drop(id)) == r
  {
    hide RoomInv;
    var k := SeatIndex(r.seats, id);
    if k >= 0 {
      assert r.seats[k] in r.seats;
      RosterInOrder(c, hostKey, r, 0, k);
    }
  }

  // ---- Matches and countdowns ----

  /** A match that is over, or a countdown called off, leaves the lobby open with nobody ready but
      bots; the board stays for the record only in the first case. */
  lemma ReopeningTakesEffect(c: Crypto, r: Room)
    ensures var over, off := After(c, r, Over), After(c, r, Abort);
      && over.phase == Open && off.phase == Open
      && NoneReady(r.seats, over.seats) && NoneReady(r.seats, off.seats)
      && over.world == r.world && off.world == None
      && over.log == r.log + [Cleared] && off.log == r.log + [Cleared]
      && over == r.(phase := Open, seats := over.seats, lastCount := 0, log := over.log, advert := over.advert)
      && off == over.(world := None)
  {
    hide Unready, BotCount;
    UnreadyClears(r.seats);
  }

  /** A tick takes everybody's waiting input: each seat knows the last client tick taken, nothing
      waits, and the new board is there. */
  lemma StepTakesEffect(c: Crypto, r: Room, inputs: seq<Input>, w: World)
    ensures var r' := After(c, r, Step(inputs, w));
      && r' == r.(world := Some(w), seats := r'.seats, pending := map[]) && |r'.seats| == |r.seats|
      && forall k :: 0 <= k < |r.seats| ==>
           && r'.seats[k] == r.seats[k].(lastInput := r'.seats[k].lastInput)
           && r'.seats[k].lastInput
              == if r.seats[k].id in r.pending then r.pending[r.seats[k].id].tick else r.seats[k].lastInput
  {
  }

  // ---- Records ----

  /** A record filed waits four seconds, with the host marked as having signed. */
  lemma FilingTakesEffect(c: Crypto, hostKey: string, r: Room, rec: Record, now: int)
    requires RoomInv(c, hostKey, r)
    ensures var r' := After(c, r, File(rec, now));
      && r' == r.(record := Some(rec), attestUntil := now + 4_000_000_000, seats := r'.seats)
      && Effects.OnlySeat(r.seats, r'.seats, 0) && r'.seats[0] == r.seats[0].(signed := true)
  {
    SeatsOkOf(c, hostKey, r);
    hide RoomInv, SeatOk, Clash;
    assert |r.seats| > 0;
    RosterInOrder(c, hostKey, r, 0, 0);
    Effects.SeatAt(c, hostKey, r, 0);
  }

  /** It is due once every person still there has signed, or its time has passed. */
  lemma DueIff(r: Room, now: int)
    ensures Due(r, now) <==>
      r.record.Some? && ((forall s :: s in r.seats ==> s.bot || s.signed) || now > r.attestUntil)
  {
  }

  /** Closing it takes the record and opens the lobby, whatever it was doing; only bots are ready. */
  lemma ClosingTakesEffect(c: Crypto, r: Room, now: int, lost: seq<PlayerID>)
    ensures var r' := After(c, r, Close(now, lost));
      && r'.record == None && r'.phase == Open && r'.attestUntil == r.attestUntil && r'.gen == r.gen
      && r'.cfg == r.cfg && r'.name == r.name && r'.pending == r.pending
      && (forall s :: s in r'.seats ==> s.player.ready == s.bot)
      && |r'.log| > 0 && r'.log[|r'.log|-1] == Cleared
  {
    hide Unready, BotCount, Lost;
    LosingKeepsRecord(r.(record := None), lost);
    var v := Lost(r.(record := None), lost);
    UnreadyClears(v.seats);
  }

  lemma {:induction false} LosingKeepsRecord(r: Room, ids: seq<PlayerID>)
    ensures SameButDrops(r, Lost(r, ids))
  {
    if |ids| > 0 {
      hide Dropped;
      LosingKeepsRecord(r, ids[..|ids|-1]);
      DropFrame(Lost(r, ids[..|ids|-1]), ids[|ids|-1]);
    }
  }

  ghost predicate SameButDrops(r: Room, r': Room) {
    r' == r.(phase := r'.phase, seats := r'.seats, world := r'.world, lastCount := r'.lastCount,
             advert := r'.advert, log := r'.log)
  }

  /** A lobby shut down says so and keeps everything else. */
  lemma ShuttingTakesEffect(c: Crypto, r: Room)
    ensures var r' := After(c, r, Shut);
      r' == r.(phase := Closed, advert := r'.advert) && r'.advert.phase == Closed
  {
  }
}
