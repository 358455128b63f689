/** What goes into one tick of a hosted match, and into the record at its end. */
module Ticks {
  import opened Types
  import opened World
  import opened Roster
  import opened Records
  import opened Attestation
  import opened MatchReport
  import opened Lobby
  import opened LobbyInvariant
  import opened LobbyMoves
  import opened LobbyRuns
  import opened Drops
  import Bot
  import Runs
  import Soundness
  import Sorting
  import Store

  /** A heading a bot may choose for this state. */
  ghost predicate Chosen(st: State, cfg: Config, id: PlayerID, d: Direction)
    requires cfg.wrap ==> st.arena.Width() > 0 && st.arena.Height() > 0
  {
    var k := SnakeIndex(st.snakes, id);
    if k < 0 || !st.snakes[k].alive || |st.snakes[k].body| == 0 then d == UP
    else if exists e :: Bot.Candidate(st, cfg.wrap, k, e) then Bot.Best(st, cfg.wrap, k, d)
    else d == st.snakes[k].dir
  }

  ghost predicate Playing(st: State, id: PlayerID) {
    var k := SnakeIndex(st.snakes, id);
    k >= 0 && st.snakes[k].alive
  }

  /** Every bot still playing chooses for the same state, the one at the top of the tick. */
  ghost predicate BotInputs(st: State, cfg: Config, bots: seq<Seat>, inputs: seq<Input>)
    requires cfg.wrap ==> st.arena.Width() > 0 && st.arena.Height() > 0
  {
    if |bots| == 0 then inputs == []
    else
      var b, init := bots[|bots|-1], bots[..|bots|-1];
      if Playing(st, b.id) then
        && |inputs| > 0 && inputs[|inputs|-1].0 == b.id && Chosen(st, cfg, b.id, inputs[|inputs|-1].1)
        && BotInputs(st, cfg, init, inputs[..|inputs|-1])
      else BotInputs(st, cfg, init, inputs)
  }

  /** Every pending input once, in whatever order. */
  ghost predicate PendingInputs(pending: map<PlayerID, Pending>, inputs: seq<Input>) {
    && (forall i :: 0 <= i < |inputs| ==> inputs[i].0 in pending && inputs[i].1 == pending[inputs[i].0].dir)
    && (forall i, j :: 0 <= i < j < |inputs| ==> inputs[i].0 != inputs[j].0)
    && (forall id :: id in pending ==> exists i :: 0 <= i < |inputs| && inputs[i].0 == id)
  }

  /** The headings of one tick: the bots' first, then people's. */
  ghost predicate TickInputs(r: Room, inputs: seq<Input>, n: nat) {
    && n <= |inputs| && r.world.Some?
    && (r.matchCfg.wrap ==> r.world.value.st.arena.Width() > 0 && r.world.value.st.arena.Height() > 0)
    && BotInputs(r.world.value.st, r.matchCfg, BotsOf(r.seats), inputs[..n])
    && PendingInputs(r.pending, inputs[n..])
  }

  lemma {:induction false} SteeredByMore(w: World, a: seq<Input>, b: seq<Input>)
    ensures SteeredBy(w, a + b) == SteeredBy(SteeredBy(w, a), b)
  {
    if |b| == 0 {
      assert a + b == a;
    } else {
      assert (a + b)[..|a + b| - 1] == a + b[..|b| - 1];
      SteeredByMore(w, a, b[..|b| - 1]);
    }
  }

  lemma SteeredByOne(w: World, a: seq<Input>, id: PlayerID, d: Direction)
    ensures SteeredBy(w, a + [(id, d)]) == Steer(SteeredBy(w, a), id, d)
  {
    assert (a + [(id, d)])[..|a|] == a;
  }

  lemma ArenaHasRoom(cfg: Config, w: World)
    requires Inv(cfg, w)
    ensures w.st.arena.Width() > 0 && w.st.arena.Height() > 0
  {
  }

  lemma BotInputsMore(st: State, cfg: Config, bots: seq<Seat>, i: nat, inputs: seq<Input>, d: Direction)
    requires cfg.wrap ==> st.arena.Width() > 0 && st.arena.Height() > 0
    requires i < |bots| && BotInputs(st, cfg, bots[..i], inputs)
    ensures var k := SnakeIndex(st.snakes, bots[i].id); Playing(st, bots[i].id) == (k >= 0 && st.snakes[k].alive)
    ensures !Playing(st, bots[i].id) ==> BotInputs(st, cfg, bots[..i + 1], inputs)
    ensures Playing(st, bots[i].id) && Chosen(st, cfg, bots[i].id, d) ==>
      BotInputs(st, cfg, bots[..i + 1], inputs + [(bots[i].id, d)])
  {
    hide Chosen;
    assert bots[..i + 1][..i] == bots[..i];
    assert (inputs + [(bots[i].id, d)])[..|inputs|] == inputs;
  }

  /** The pending inputs taken so far: all but those of `left`. */
  ghost predicate TakenInputs(pending: map<PlayerID, Pending>, left: set<PlayerID>, inputs: seq<Input>) {
    && (forall i :: 0 <= i < |inputs| ==>
          inputs[i].0 in pending && inputs[i].0 !in left && inputs[i].1 == pending[inputs[i].0].dir)
    && (forall i, j :: 0 <= i < j < |inputs| ==> inputs[i].0 != inputs[j].0)
    && (forall id :: id in pending && id !in left ==> exists i :: 0 <= i < |inputs| && inputs[i].0 == id)
  }

  lemma NoneTaken(pending: map<PlayerID, Pending>)
    ensures TakenInputs(pending, pending.Keys, [])
  {
  }

  lemma OneTaken(pending: map<PlayerID, Pending>, left: set<PlayerID>, inputs: seq<Input>, id: PlayerID)
    requires TakenInputs(pending, left, inputs) && id in pending && id in left
    ensures TakenInputs(pending, left - {id}, inputs + [(id, pending[id].dir)])
  {
    var more, rest := inputs + [(id, pending[id].dir)], left - {id};
    forall j | j in pending && j !in rest
      ensures exists i :: 0 <= i < |more| && more[i].0 == j
    {
      if j == id {
        assert more[|inputs|].0 == id;
      } else {
        var i :| 0 <= i < |inputs| && inputs[i].0 == j;
        assert more[i].0 == j;
      }
    }
  }

  lemma AllTaken(pending: map<PlayerID, Pending>, inputs: seq<Input>)
    requires TakenInputs(pending, {}, inputs)
    ensures PendingInputs(pending, inputs)
  {
  }

  /** The seats once all but the inputs of `left` are acknowledged. */
  ghost predicate AckedBut(seats: seq<Seat>, pending: map<PlayerID, Pending>, left: set<PlayerID>, a: seq<Seat>) {
    |a| == |seats| && forall k :: 0 <= k < |seats| ==>
      a[k] == if seats[k].id in pending && seats[k].id !in left
              then seats[k].(lastInput := pending[seats[k].id].tick) else seats[k]
  }

  lemma NoneAcked(seats: seq<Seat>, pending: map<PlayerID, Pending>)
    ensures AckedBut(seats, pending, pending.Keys, seats)
  {
  }

  lemma OneAcked(seats: seq<Seat>, pending: map<PlayerID, Pending>, left: set<PlayerID>, a: seq<Seat>,
                 id: PlayerID, b: seq<Seat>)
    requires Ascending(seats) && AckedBut(seats, pending, left, a) && id in pending && id in left
    requires var k := SeatIndex(a, id); b == if k < 0 then a else a[k := a[k].(lastInput := pending[id].tick)]
    ensures AckedBut(seats, pending, left - {id}, b)
  {
    var k := SeatIndex(a, id);
    forall j | 0 <= j < |seats|
      ensures b[j] == if seats[j].id in pending && seats[j].id !in left - {id}
                      then seats[j].(lastInput := pending[seats[j].id].tick) else seats[j]
    {
      assert a[j].id == seats[j].id;
      if j != k && k >= 0 {
        assert a[k].id == seats[k].id == id;
        AscendingDiffer(seats, j, k);
      }
    }
  }

  lemma AscendingDiffer(seats: seq<Seat>, j: nat, k: nat)
    requires Ascending(seats) && j < |seats| && k < |seats| && j != k
    ensures seats[j].id != seats[k].id
  {
  }

  lemma AllAcked(seats: seq<Seat>, pending: map<PlayerID, Pending>, a: seq<Seat>)
    requires AckedBut(seats, pending, {}, a)
    ensures a == Acked(seats, pending)
  {
  }

  // ---- Seats and the snakes built for them ----

  function SeatIds(seats: seq<Seat>): (ids: seq<PlayerID>)
    ensures |ids| == |seats| && forall k :: 0 <= k < |seats| ==> ids[k] == seats[k].id
  {
    seq<PlayerID>(|seats|, k requires 0 <= k < |seats| => seats[k].id)
  }

  /** Two ascending lists with the same members are the same list. */
  lemma {:induction false} SameAscending(ids: seq<PlayerID>, snakes: seq<Snake>)
    requires forall i, j :: 0 <= i < j < |ids| ==> ids[i] < ids[j]
    requires SortedIds(snakes) && |ids| == |snakes|
    requires forall id :: id in ids ==> exists k :: 0 <= k < |snakes| && snakes[k].id == id
    ensures forall k :: 0 <= k < |ids| ==> snakes[k].id == ids[k]
  {
    var n := |ids| - 1;
    if n >= 0 {
      LastMatches(ids, snakes);
      var init, rest := ids[..n], snakes[..n];
      forall id | id in init
        ensures exists k :: 0 <= k < |rest| && rest[k].id == id
      {
        var i :| 0 <= i < |init| && init[i] == id;
        assert ids[i] == id && id in ids && ids[i] < ids[n];
        var k :| 0 <= k < |snakes| && snakes[k].id == id;
        assert rest[k].id == id;
      }
      SameAscending(init, rest);
    }
  }

  lemma LastMatches(ids: seq<PlayerID>, snakes: seq<Snake>)
    requires forall i, j :: 0 <= i < j < |ids| ==> ids[i] < ids[j]
    requires SortedIds(snakes) && |ids| == |snakes| > 0
    requires forall id :: id in ids ==> exists k :: 0 <= k < |snakes| && snakes[k].id == id
    ensures snakes[|snakes|-1].id == ids[|ids|-1]
  {
    var n := |ids| - 1;
    assert ids[n] in ids;
    var k :| 0 <= k < |snakes| && snakes[k].id == ids[n];
    if k < n {
      Crowded(ids, snakes, n, k);
    }
  }

  /** n + 1 ascending numbers cannot all be among the first k + 1 of another ascending list. */
  lemma {:induction false} Crowded(ids: seq<PlayerID>, snakes: seq<Snake>, n: nat, k: nat)
    requires forall i, j :: 0 <= i < j < |ids| ==> ids[i] < ids[j]
    requires SortedIds(snakes) && n < |ids| && k < |snakes| && snakes[k].id == ids[n]
    requires forall id :: id in ids ==> exists j :: 0 <= j < |snakes| && snakes[j].id == id
    ensures k >= n
    decreases n
  {
    if n > 0 {
      assert ids[n - 1] in ids && ids[n - 1] < ids[n];
      var j :| 0 <= j < |snakes| && snakes[j].id == ids[n - 1];
      assert j < k;
      Crowded(ids, snakes, n - 1, j);
    }
  }

  lemma NewIsBuilt(c: Crypto, hostKey: string, r: Room, w: World)
    requires RoomInv(c, hostKey, r)
    requires |w.st.snakes| == |r.seats| && SortedIds(w.st.snakes)
    requires forall id :: id in SeatIds(r.seats) <==> SnakeIndex(w.st.snakes, id) >= 0
    ensures SnakesOf(PlayersOf(r.seats), w.st.snakes)
  {
    SeatsOkOf(c, hostKey, r);
    hide RoomInv, Runs.Started, SeatOk, Clash;
    var ids := SeatIds(r.seats);
    forall id | id in ids
      ensures exists k :: 0 <= k < |w.st.snakes| && w.st.snakes[k].id == id
    {
      assert SnakeIndex(w.st.snakes, id) >= 0;
    }
    SameAscending(ids, w.st.snakes);
    forall k | 0 <= k < |r.seats|
      ensures w.st.snakes[k].id == PlayersOf(r.seats)[k].seat
    {
      assert w.st.snakes[k].id == ids[k] == r.seats[k].id;
      assert r.seats[k] in r.seats;
      SeatOfPlayer(HouseOf(c, hostKey), r.seats, k);
    }
  }

  lemma SeatOfPlayer(e: House, seats: seq<Seat>, k: nat)
    requires SeatsOk(e, seats) && k < |seats|
    ensures seats[k].player.seat == seats[k].id
  {
    assert seats[k] in seats && SeatOk(e, seats[k]);
  }

  lemma SeatsAreFew(c: Crypto, hostKey: string, r: Room)
    requires RoomInv(c, hostKey, r)
    ensures 0 < |r.seats| <= MAX_PLAYERS && r.cfg.Valid() && Sorting.NoRepeats(SeatIds(r.seats))
  {
  }

  lemma AfterTickSame(c: Crypto, r: Room, m: Move)
    requires m.Step?
    ensures var q := After(c, r, m);
      && q.world == Some(m.w) && q.matchId == r.matchId && q.matchCfg == r.matchCfg
      && q.matchPlayers == r.matchPlayers && q.name == r.name && q.startedAt == r.startedAt
  {
    hide Acked;
  }

  // ---- The end of a match ----

  lemma SimHasValidConfig(cfg: Config, w: World)
    requires Inv(cfg, w)
    ensures cfg.Valid()
  {
  }

  lemma LineupReportValid(c: Crypto, h: Heading, r: Room)
    requires SimOk(HouseOf(c, h.hostKey), r) && r.world.Some? && h.matchId == r.matchId
    ensures ValidResult(c, Report(h, r.matchPlayers, r.world.value.st))
  {
    hide Inv, LineupOk, SnakesOf, Report, ValidResult;
    ReportIsValid(c, h, r.matchPlayers, r.world.value.st);
  }

  lemma ReportTwice(h: Heading, players: seq<Player>, final: State)
    ensures Normalize(Report(h, players, final)) == Report(h, players, final)
  {
    hide Normalize, Arranged;
    NormalFormIsArranged(Drafted(h, players, final));
    ArrangedIsFixed(Drafted(h, players, final), Report(h, players, final));
  }

  /** The record depends on the match alone. */
  lemma SameMatchFiled(c: Crypto, hostKey: string, r: Room, q: Room, rec: Record, now: int)
    requires FiledFor(c, hostKey, r, rec, now)
    requires q.world == r.world && q.matchId == r.matchId && q.matchCfg == r.matchCfg
    requires q.matchPlayers == r.matchPlayers && q.name == r.name && q.startedAt == r.startedAt
    ensures FiledFor(c, hostKey, q, rec, now)
  {
  }

  lemma ReopenedOpen(r: Room)
    ensures var o := Reopened(r);
      && o.phase == Open && o.world == r.world && o.matchId == r.matchId && o.matchCfg == r.matchCfg
      && o.matchPlayers == r.matchPlayers && o.record == r.record && o.name == r.name && o.startedAt == r.startedAt
  {
  }

  lemma OverKeepsMatch(r: Room, q: Room)
    requires SameBut(Reopened(r), q)
    ensures q.phase == Open && q.world == r.world && q.matchId == r.matchId && q.matchCfg == r.matchCfg
    ensures q.matchPlayers == r.matchPlayers && q.name == r.name && q.startedAt == r.startedAt
  {
    ReopenedOpen(r);
    hide Reopened;
  }

  /** Dropping seats from an open lobby leaves the rest as it is. */
  lemma OpenFrame(r: Room, q: Room)
    requires SameBut(r, q) && r.phase == Open
    ensures q.phase == Open && q.world == r.world && q.record == r.record
  {
  }

  lemma SignedFrame(q: Room, r: Room, id: PlayerID, signed: bool)
    requires q == SignedSet(r, id, signed)
    ensures q == r.(seats := q.seats)
  {
  }

  lemma ThreeLegalRuns(c: Crypto, hostKey: string, r: Room, a: seq<Move>, b: seq<Move>, d: seq<Move>)
    ensures Ran(c, r, a + b + d) == Ran(c, Ran(c, Ran(c, r, a), b), d)
    ensures LegalRun(c, hostKey, r, a + b + d) <==>
      && LegalRun(c, hostKey, r, a) && LegalRun(c, hostKey, Ran(c, r, a), b)
      && LegalRun(c, hostKey, Ran(c, Ran(c, r, a), b), d)
  {
    RanOn(c, hostKey, r, a, b);
    RanOn(c, hostKey, r, a + b, d);
  }

  // ---- The clock ----

  /** Whole seconds left, rounded up. */
  function Remaining(end: int, now: int): int {
    -((now - end) / SECOND)
  }

  lemma RemainingMeans(end: int, now: int)
    ensures Remaining(end, now) <= 0 <==> now >= end
    ensures now < end ==> (Remaining(end, now) - 1) * SECOND < end - now <= Remaining(end, now) * SECOND
  {
  }

  /** What the clock and the ready flags call for, and who is dropped for not hearing of it. */
  ghost predicate NextStep(r: Room, now: int, ms: seq<Move>) {
    var none := ms == [];
    match r.phase
    case Open => if EveryoneReady(r.seats) then |ms| > 0 && ms[0].Begin? && OnlyDrops(ms[1..]) else none
    case Countdown =>
      if !EveryoneReady(r.seats) then |ms| > 0 && ms[0] == Abort && OnlyDrops(ms[1..])
      else if now >= r.countdownEnd then |ms| > 0 && ms[0] == Play(now) && OnlyDrops(ms[1..])
      else if Remaining(r.countdownEnd, now) != r.lastCount then
        |ms| > 0 && ms[0] == Count(Remaining(r.countdownEnd, now)) && OnlyDrops(ms[1..])
      else none
    case _ => none
  }

  /** The seats have been gone through for silence. */
  ghost predicate Swept(c: Crypto, r: Room, now: int, chunks: seq<seq<Move>>, swept: Room) {
    && |chunks| == |r.seats| && swept == Ran(c, r, Flat(chunks))
    && forall i :: 0 <= i < |chunks| ==> Heeds(r.seats[i], now, chunks[i])
  }

  lemma RecordFrame(r: Room, q: Room)
    requires SameBut(r, q)
    ensures q.record == r.record
  {
  }

  lemma ClosedOpen(r: Room, lost: seq<PlayerID>, q: Room)
    requires q == Reopened(Lost(r.(record := None), lost)) && q.record.None?
    ensures q == RecordClosed(r, lost) && q.phase == Open
  {
    hide Lost;
  }

  lemma TickInputsOf(r: Room, bots: seq<Input>, people: seq<Input>)
    requires r.world.Some?
    requires r.matchCfg.wrap ==> r.world.value.st.arena.Width() > 0 && r.world.value.st.arena.Height() > 0
    requires BotInputs(r.world.value.st, r.matchCfg, BotsOf(r.seats), bots) && PendingInputs(r.pending, people)
    ensures TickInputs(r, bots + people, |bots|)
  {
    hide BotInputs, PendingInputs;
    assert (bots + people)[..|bots|] == bots && (bots + people)[|bots|..] == people;
  }

  lemma TickIsLegal(c: Crypto, hostKey: string, r: Room, inputs: seq<Input>, w: World)
    requires r.phase == InGame && r.world.Some? && r.matchCfg.Valid()
    requires Stepped(r.matchCfg, SteeredBy(r.world.value, inputs), w)
    ensures Legal(c, hostKey, r, Step(inputs, w))
  {
  }

  lemma WorldSteppedIs(r: Room, w: World, q: Room)
    requires q == r.(world := Some(w), seats := Acked(r.seats, r.pending), pending := map[])
    ensures q == WorldStepped(r, w)
  {
  }

  lemma AfterTick(c: Crypto, r: Room, m: Move)
    requires m.Step?
    ensures After(c, r, m) == WorldStepped(r, m.w)
  {
  }

  // ---- Single moves, and that they keep the invariant ----

  lemma OverMove(c: Crypto, hostKey: string, r: Room)
    requires RoomInv(c, hostKey, r) && r.phase == InGame && r.world.Some? && r.world.value.st.over
    ensures Legal(c, hostKey, r, Over) && After(c, r, Over) == Reopened(r) && RoomInv(c, hostKey, Reopened(r))
  {
    hide RoomInv, Reopened;
    MoveKeeps(c, hostKey, r, Over);
  }

  lemma AbortMove(c: Crypto, hostKey: string, r: Room)
    requires RoomInv(c, hostKey, r) && r.phase == Countdown
    ensures Legal(c, hostKey, r, Abort) && After(c, r, Abort) == Aborted(r) && RoomInv(c, hostKey, Aborted(r))
  {
    hide RoomInv, Aborted;
    MoveKeeps(c, hostKey, r, Abort);
  }

  lemma CloseMove(c: Crypto, hostKey: string, r: Room, now: int, lost: seq<PlayerID>)
    requires RoomInv(c, hostKey, r) && Due(r, now)
    ensures Legal(c, hostKey, r, Close(now, lost)) && After(c, r, Close(now, lost)) == RecordClosed(r, lost)
    ensures RoomInv(c, hostKey, RecordClosed(r, lost))
  {
    hide RoomInv, RecordClosed, Due;
    MoveKeeps(c, hostKey, r, Close(now, lost));
  }

  lemma ForgetMove(c: Crypto, hostKey: string, r: Room)
    requires RoomInv(c, hostKey, r) && r.phase == Open
    ensures Legal(c, hostKey, r, Forget) && After(c, r, Forget) == r.(world := None)
    ensures RoomInv(c, hostKey, r.(world := None))
  {
    hide RoomInv;
    MoveKeeps(c, hostKey, r, Forget);
  }

  lemma CountMove(c: Crypto, hostKey: string, r: Room, n: int)
    requires RoomInv(c, hostKey, r) && r.phase == Countdown
    ensures Legal(c, hostKey, r, Count(n)) && After(c, r, Count(n)) == r.(lastCount := n)
    ensures RoomInv(c, hostKey, r.(lastCount := n))
  {
    hide RoomInv;
    MoveKeeps(c, hostKey, r, Count(n));
  }

  lemma PlayMove(c: Crypto, hostKey: string, r: Room, now: int)
    requires RoomInv(c, hostKey, r) && r.phase == Countdown && EveryoneReady(r.seats) && now >= r.countdownEnd
    ensures Legal(c, hostKey, r, Play(now)) && After(c, r, Play(now)) == PlayBegun(r, now)
    ensures RoomInv(c, hostKey, PlayBegun(r, now))
  {
    hide RoomInv, PlayBegun, EveryoneReady;
    MoveKeeps(c, hostKey, r, Play(now));
  }

  lemma BeginMove(c: Crypto, hostKey: string, r: Room, w: World, matchId: string, seed: int, now: int)
    requires RoomInv(c, hostKey, r) && r.phase == Open && EveryoneReady(r.seats)
    requires Built(r.cfg.(seed := seed), r.seats, w) && Store.ValidMatchId(matchId)
    ensures Legal(c, hostKey, r, Begin(w, matchId, seed, now))
    ensures After(c, r, Begin(w, matchId, seed, now)) == CountdownBegun(r, w, matchId, seed, now)
    ensures RoomInv(c, hostKey, CountdownBegun(r, w, matchId, seed, now))
  {
    hide RoomInv, CountdownBegun, EveryoneReady, Built, Store.ValidMatchId;
    MoveKeeps(c, hostKey, r, Begin(w, matchId, seed, now));
  }

  lemma UnsignMove(c: Crypto, hostKey: string, r: Room, id: PlayerID)
    requires RoomInv(c, hostKey, r)
    ensures Legal(c, hostKey, r, Unsign(id)) && After(c, r, Unsign(id)) == SignedSet(r, id, false)
    ensures RoomInv(c, hostKey, SignedSet(r, id, false))
  {
    hide RoomInv, SignedSet;
    MoveKeeps(c, hostKey, r, Unsign(id));
  }

  lemma FileMove(c: Crypto, hostKey: string, r: Room, rec: Record, now: int)
    requires RoomInv(c, hostKey, r) && r.phase == Open && FiledFor(c, hostKey, r, rec, now)
    requires r.world.Some? && r.world.value.st.over
    ensures Legal(c, hostKey, r, File(rec, now)) && After(c, r, File(rec, now)) == Filed(r, rec, now)
    ensures RoomInv(c, hostKey, Filed(r, rec, now))
  {
    hide RoomInv, Filed, FiledFor;
    MoveKeeps(c, hostKey, r, File(rec, now));
  }

  lemma ShutMove(c: Crypto, hostKey: string, r: Room)
    requires RoomInv(c, hostKey, r)
    ensures Legal(c, hostKey, r, Shut) && After(c, r, Shut) == Refreshed(r.(phase := Closed))
    ensures RoomInv(c, hostKey, Refreshed(r.(phase := Closed)))
  {
    hide RoomInv;
    MoveKeeps(c, hostKey, r, Shut);
  }

  lemma ReadyMove(c: Crypto, hostKey: string, r: Room, id: PlayerID, ready: bool, gen: int)
    requires RoomInv(c, hostKey, r) && OfPerson(r.seats, id)
    ensures Legal(c, hostKey, r, Ready(id, ready, gen))
    ensures After(c, r, Ready(id, ready, gen)) == ReadySet(r, id, ready, gen)
    ensures RoomInv(c, hostKey, ReadySet(r, id, ready, gen))
  {
    hide RoomInv, ReadySet, OfPerson;
    MoveKeeps(c, hostKey, r, Ready(id, ready, gen));
  }

  lemma QueueMove(c: Crypto, hostKey: string, r: Room, id: PlayerID, dir: Direction, tick: int)
    requires RoomInv(c, hostKey, r) && NoBotPlays(r, id)
    ensures Legal(c, hostKey, r, Queue(id, dir, tick))
    ensures After(c, r, Queue(id, dir, tick))
      == if r.phase == InGame then r.(pending := r.pending[id := Pending(dir, tick)]) else r
    ensures RoomInv(c, hostKey, After(c, r, Queue(id, dir, tick)))
  {
    hide RoomInv;
    MoveKeeps(c, hostKey, r, Queue(id, dir, tick));
  }

  lemma AttestMove(c: Crypto, hostKey: string, r: Room, id: PlayerID, seatKey: string, matchId: string, s: Signature)
    ensures Legal(c, hostKey, r, Attest(id, seatKey, matchId, s))
    ensures After(c, r, Attest(id, seatKey, matchId, s)) == AttestedBy(c, r, id, seatKey, matchId, s)
  {
    hide AttestedBy;
  }

  lemma QuietMove(c: Crypto, hostKey: string, r: Room, id: PlayerID)
    requires RoomInv(c, hostKey, r) && OfPerson(r.seats, id) && NoBotPlays(r, id)
    ensures Legal(c, hostKey, r, Quiet(id)) && After(c, r, Quiet(id)) == Quieted(r, id)
    ensures RoomInv(c, hostKey, Quieted(r, id))
  {
    hide RoomInv, Quieted;
    MoveKeeps(c, hostKey, r, Quiet(id));
  }

  lemma JoinMove(c: Crypto, hostKey: string, r: Room, who: Joiner, now: int)
    requires RoomInv(c, hostKey, r) && Admission(HouseOf(c, hostKey), r, who) == Granted && who.conn > 0
    ensures Legal(c, hostKey, r, Join(who, now)) && After(c, r, Join(who, now)) == Seated(r, who, now)
    ensures RoomInv(c, hostKey, Seated(r, who, now))
  {
    hide RoomInv, Seated, Admission;
    MoveKeeps(c, hostKey, r, Join(who, now));
  }

  lemma HearMove(c: Crypto, hostKey: string, r: Room, id: PlayerID, now: int)
    requires RoomInv(c, hostKey, r) && OfPerson(r.seats, id)
    ensures Legal(c, hostKey, r, Hear(id, now)) && After(c, r, Hear(id, now)) == Heard(r, id, now)
    ensures RoomInv(c, hostKey, Heard(r, id, now))
  {
    hide RoomInv, Heard;
    MoveKeeps(c, hostKey, r, Hear(id, now));
  }
}
