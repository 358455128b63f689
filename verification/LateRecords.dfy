/**
 A record that is still waiting for signatures when the next match is on (internal/netplay/host.go):
 what closing it does to that match, and what the end of that match does to it.
*/
module LateRecords {
  import opened Types
  import opened World
  import opened Roster
  import opened Records
  import opened Attestation
  import opened MatchReport
  import opened Lobby
  import opened LobbyInvariant
  import opened LobbyMoves
  import opened LobbyRuns
  import opened Drops
  import opened Guarantees
  import opened Filing
  import opened Samples
  import Runs
  import Sorting
  import Store

  // ---- Closing it ends the match that is on ----

  lemma Starting(r: Room, w: World, matchId: string, seed: int, now: int, later: int)
    ensures var begun := CountdownBegun(r, w, matchId, seed, now); var on := PlayBegun(begun, later);
      && begun.phase == Countdown && begun.seats == r.seats && begun.countdownEnd == now + COUNTDOWN_SECONDS * SECOND
      && on.phase == InGame && on.seats == r.seats && on.world == Some(w)
      && on.record == r.record && on.attestUntil == r.attestUntil
      && on.cfg == r.cfg && on.gen == r.gen
  {
    hide AdvertOf;
  }

  lemma ClosingReopens(r: Room)
    ensures var q := RecordClosed(r, []);
      && q.phase == Open && q.world == r.world && q.record.None?
      && forall s :: s in q.seats && !s.bot ==> !s.player.ready
  {
    assert Lost(r.(record := None), []) == r.(record := None);
  }

  lemma NotOverYet(cfg: Config, seats: seq<Seat>, w: World)
    requires Built(cfg, seats, w)
    ensures !w.st.over
  {
  }

  lemma OneMore(c: Crypto, hostKey: string, r: Room, ms: seq<Move>, m: Move)
    ensures Ran(c, r, ms + [m]) == After(c, Ran(c, r, ms), m)
    ensures LegalRun(c, hostKey, r, ms + [m]) <==> LegalRun(c, hostKey, r, ms) && Legal(c, hostKey, Ran(c, r, ms), m)
  {
    hide After, Legal;
    assert (ms + [m])[..|ms|] == ms;
  }

  /** The next match is started when it may be, and is on when the pending record is closed; the
      record is not due before that, not even as the match gets under way. */
  ghost predicate ClosedDuring(c: Crypto, hostKey: string, r: Room, begin: Move, later: int, late: int) {
    var start := [begin, Play(later)];
    && LegalRun(c, hostKey, r, start + [Close(late, [])]) && later <= late
    && !Due(Ran(c, r, start), later)
  }

  /** Exactly when a match started now can be under way before the pending record is due: somebody
      still here has not signed, and the countdown ends within the record's time. */
  lemma LateRecordIff(c: Crypto, hostKey: string, r: Room, w: World, matchId: string, seed: int, now: int)
    requires RoomInv(c, hostKey, r) && r.phase == Open && r.record.Some? && EveryoneReady(r.seats)
    requires Built(r.cfg.(seed := seed), r.seats, w) && Store.ValidMatchId(matchId)
    ensures (exists later: int, late: int :: ClosedDuring(c, hostKey, r, Begin(w, matchId, seed, now), later, late))
      <==> !AllSigned(r.seats) && now + COUNTDOWN_SECONDS * SECOND <= r.attestUntil
  {
    hide RoomInv, Ran, LegalRun, Built, EveryoneReady, AllSigned, CountdownBegun, PlayBegun;
    hide RecordClosed, Store.ValidMatchId;
    var begin := Begin(w, matchId, seed, now);
    if !AllSigned(r.seats) && now + COUNTDOWN_SECONDS * SECOND <= r.attestUntil {
      StartThenClose(c, hostKey, r, begin, r.attestUntil, r.attestUntil + 1);
      assert ClosedDuring(c, hostKey, r, begin, r.attestUntil, r.attestUntil + 1);
    }
    if later: int, late: int :| ClosedDuring(c, hostKey, r, begin, later, late) {
      StartThenClose(c, hostKey, r, begin, later, late);
    }
  }

  lemma StartThenClose(c: Crypto, hostKey: string, r: Room, begin: Move, later: int, late: int)
    requires RoomInv(c, hostKey, r) && r.phase == Open && EveryoneReady(r.seats) && begin.Begin?
    requires Legal(c, hostKey, r, begin)
    ensures var start := [begin, Play(later)];
      var on := PlayBegun(CountdownBegun(r, begin.w, begin.matchId, begin.seed, begin.now), later);
      && Ran(c, r, start) == on && Ran(c, r, start + [Close(late, [])]) == RecordClosed(on, [])
      && on.seats == r.seats && on.record == r.record && on.attestUntil == r.attestUntil && on.phase == InGame
      && (LegalRun(c, hostKey, r, start) <==> later >= begin.now + COUNTDOWN_SECONDS * SECOND)
      && (LegalRun(c, hostKey, r, start + [Close(late, [])]) <==> LegalRun(c, hostKey, r, start) && Due(on, late))
  {
    hide RoomInv, Ran, LegalRun, Built, EveryoneReady, AllSigned, CountdownBegun, PlayBegun, RecordClosed, Due;
    hide Store.ValidMatchId;
    Starting(r, begin.w, begin.matchId, begin.seed, begin.now, later);
    RunOfOne(c, hostKey, r, begin);
    OneMore(c, hostKey, r, [begin], Play(later));
    OneMore(c, hostKey, r, [begin, Play(later)], Close(late, []));
    assert [begin] + [Play(later)] == [begin, Play(later)];
  }

  /** Closing a record then throws away the match that is on: whatever its state, the lobby is open
      again, everybody unready, and the simulation is left standing where it was. */
  lemma LateRecordEndsNextMatch(c: Crypto, hostKey: string, r: Room, begin: Move, later: int, late: int)
    requires RoomInv(c, hostKey, r) && begin.Begin? && ClosedDuring(c, hostKey, r, begin, later, late)
    ensures var start := [begin, Play(later)]; var on, end := Ran(c, r, start), Ran(c, r, start + [Close(late, [])]);
      && on.phase == InGame && on.record == r.record && !Due(on, later) && Due(on, late)
      && end.phase == Open && end.record.None? && end.world == Some(begin.w) && !begin.w.st.over
      && forall s :: s in end.seats && !s.bot ==> !s.player.ready
  {
    hide RoomInv, Ran, Built, EveryoneReady, AllSigned, CountdownBegun, PlayBegun, RecordClosed, Due, LegalRun;
    hide Store.ValidMatchId;
    RunOfOne(c, hostKey, r, begin);
    OneMore(c, hostKey, r, [begin], Play(later));
    OneMore(c, hostKey, r, [begin, Play(later)], Close(late, []));
    assert [begin] + [Play(later)] == [begin, Play(later)];
    StartThenClose(c, hostKey, r, begin, later, late);
    Starting(r, begin.w, begin.matchId, begin.seed, begin.now, later);
    ClosingReopens(Ran(c, r, [begin, Play(later)]));
    NotOverYet(r.cfg.(seed := begin.seed), r.seats, begin.w);
  }

  // ---- One round of a match of two, left by the guest ----

  predicate AnnsSeat(h: Seat) {
    && h.id == h.player.seat == 0 && h.player.host && h.player.palette == 0 && !h.bot
    && h.player.pubKey == "ann"
  }

  /** The host, Ann, sits alone in an open lobby and is not ready. */
  ghost predicate Alone(r: Room) {
    && r.phase == Open && r.cfg == FRIENDLY && r.gen == 0
    && |r.seats| == 1 && AnnsSeat(r.seats[0]) && !r.seats[0].player.ready
  }

  ghost function Guest(h: Seat, now: int): Seat { NewSeat([h], GUEST, now) }

  function ReadySeat(s: Seat): Seat { s.(player := s.player.(ready := true)) }

  lemma GuestIs(h: Seat, now: int)
    requires h.id == 0 && h.player.palette == 0
    ensures var g := Guest(h, now);
      g.id == g.player.seat == 1 && !g.player.ready && !g.bot && !g.player.host && !g.signed && Admit([h], g) == [h, g]
  {
    hide LowestUnused, Admit;
    NextInOrder([h], Guest(h, now));
  }

  /** What a round leaves alone until its record is filed. */
  ghost predicate SameTerms(r: Room, q: Room) {
    q.cfg == r.cfg && q.gen == r.gen && q.record == r.record && q.attestUntil == r.attestUntil
  }

  lemma GuestJoins(r: Room, now: int)
    requires Alone(r)
    ensures Legal(PLAIN, "ann", r, Join(GUEST, now))
    ensures var q, h := Seated(r, GUEST, now), r.seats[0];
      q.phase == Open && SameTerms(r, q) && q.seats == [h, Guest(h, now)]
  {
    var h := r.seats[0];
    assert r.seats == [h];
    GuestIs(h, now);
    hide NewSeat, Admit;
    assert !KeySeated(r.seats, "ben");
  }

  lemma BothGetReady(r: Room, h: Seat, g: Seat)
    requires r.phase == Open && r.gen == 0 && r.seats == [h, g] && h.id == 0 && g.id == 1
    requires !h.player.ready && !g.player.ready && !h.bot && !g.bot
    ensures Legal(PLAIN, "ann", r, Ready(0, true, 0))
    ensures var q := ReadySet(r, 0, true, 0);
      && Legal(PLAIN, "ann", q, Ready(1, true, 0))
      && var q' := ReadySet(q, 1, true, 0);
         && q'.phase == Open && SameTerms(r, q') && q'.seats == [ReadySeat(h), ReadySeat(g)]
         && EveryoneReady(q'.seats)
  {
    assert r.seats[1..] == [g];
    assert SeatIndex(r.seats, 0) == 0;
    var q := ReadySet(r, 0, true, 0);
    assert q.seats == [ReadySeat(h), g] && q.seats[1..] == [g];
    assert SeatIndex([g], 1) == 0;
    assert SeatIndex(q.seats, 1) == 1;
    var q' := ReadySet(q, 1, true, 0);
    assert q'.seats == [ReadySeat(h), ReadySeat(g)];
    BotCountHead(q'.seats);
    BotCountHead(q'.seats[1..]);
    assert q'.seats[1..][1..] == [];
  }

  /** The guest joins, both ready up, and the match is on three seconds later. */
  ghost function StartMoves(matchId: string, now: int): seq<Move> {
    [Join(GUEST, now), Ready(0, true, 0), Ready(1, true, 0), Begin(BOARD, matchId, 0, now),
     Play(now + COUNTDOWN_SECONDS * SECOND)]
  }

  ghost predicate RoundOn(r: Room, matchId: string, q: Room) {
    && q.phase == InGame && SameTerms(r, q) && q.world == Some(BOARD) && q.matchCfg == FRIENDLY && q.matchId == matchId
    && |q.seats| == 2 && AnnsSeat(q.seats[0])
    && var g := q.seats[1]; g.id == 1 && !g.bot && !g.player.host && !g.signed
  }

  lemma BoardForTwo(seats: seq<Seat>)
    requires |seats| == 2 && seats[0].player.seat == 0 && seats[1].player.seat == 1
    ensures Built(FRIENDLY.(seed := 0), seats, BOARD)
  {
    BoardIsStarted(0);
    hide Runs.Started;
  }

  lemma RoundBegins(r: Room, matchId: string, now: int)
    requires r.phase == Open && r.cfg == FRIENDLY && |r.seats| == 2 && EveryoneReady(r.seats)
    requires r.seats[0].player.seat == 0 && r.seats[1].player.seat == 1 && Store.ValidMatchId(matchId)
    ensures var begin := Begin(BOARD, matchId, 0, now); var q := CountdownBegun(r, BOARD, matchId, 0, now);
      var later := now + COUNTDOWN_SECONDS * SECOND; var q' := PlayBegun(q, later);
      && Legal(PLAIN, "ann", r, begin) && Legal(PLAIN, "ann", q, Play(later))
      && q'.phase == InGame && SameTerms(r, q') && q'.world == Some(BOARD) && q'.matchCfg == FRIENDLY
      && q'.matchId == matchId && q'.seats == r.seats
  {
    hide EveryoneReady, Store.ValidMatchId, Built, PlayersOf, AdvertOf;
    BoardForTwo(r.seats);
  }

  lemma RoundStarts(r: Room, matchId: string, now: int)
    requires Alone(r) && Store.ValidMatchId(matchId)
    ensures LegalRun(PLAIN, "ann", r, StartMoves(matchId, now))
    ensures RoundOn(r, matchId, Ran(PLAIN, r, StartMoves(matchId, now)))
  {
    hide EveryoneReady, Store.ValidMatchId, Legal, Ran, LegalRun, Seated, ReadySet, CountdownBegun, PlayBegun, NewSeat;
    var h := r.seats[0];
    var g := Guest(h, now);
    var later := now + COUNTDOWN_SECONDS * SECOND;
    GuestIs(h, now);
    GuestJoins(r, now);
    var r1 := Seated(r, GUEST, now);
    BothGetReady(r1, h, g);
    var r2 := ReadySet(r1, 0, true, 0);
    var r3 := ReadySet(r2, 1, true, 0);
    RoundBegins(r3, matchId, now);
    var r4 := CountdownBegun(r3, BOARD, matchId, 0, now);
    var m := StartMoves(matchId, now);
    FiveMoves(PLAIN, "ann", r, m, r1, r2, r3, r4, PlayBegun(r4, later));
  }

  lemma FiveMoves(c: Crypto, hostKey: string, r: Room, m: seq<Move>, r1: Room, r2: Room, r3: Room, r4: Room, r5: Room)
    requires |m| == 5
    requires r1 == After(c, r, m[0]) && r2 == After(c, r1, m[1]) && r3 == After(c, r2, m[2])
    requires r4 == After(c, r3, m[3]) && r5 == After(c, r4, m[4])
    ensures Ran(c, r, m) == r5
    requires Legal(c, hostKey, r, m[0]) && Legal(c, hostKey, r1, m[1]) && Legal(c, hostKey, r2, m[2])
    requires Legal(c, hostKey, r3, m[3]) && Legal(c, hostKey, r4, m[4])
    ensures LegalRun(c, hostKey, r, m)
  {
    hide After, Legal, Ran, LegalRun;
    RunOfOne(c, hostKey, r, m[0]);
    OneMore(c, hostKey, r, [m[0]], m[1]);
    OneMore(c, hostKey, r, [m[0], m[1]], m[2]);
    OneMore(c, hostKey, r, [m[0], m[1], m[2]], m[3]);
    OneMore(c, hostKey, r, [m[0], m[1], m[2], m[3]], m[4]);
    assert [m[0]] + [m[1]] == [m[0], m[1]] && [m[0], m[1]] + [m[2]] == [m[0], m[1], m[2]];
    assert [m[0], m[1], m[2]] + [m[3]] == [m[0], m[1], m[2], m[3]] && [m[0], m[1], m[2], m[3]] + [m[4]] == m;
  }

  // ---- Its end ----

  ghost const LEFT_ALONE := Eliminated(BOARD, 1)

  /** The record of a match left by the guest, as the host signs it. */
  ghost function RecordOf(r: Room, now: int): Record
    requires r.world.Some?
  {
    FiledRecord(PLAIN, "ann", r, now)
  }

  /** The guest has left and the match is over. */
  ghost function Ended(q: Room): Room { Reopened(WorldStepped(Dropped(q, 1), Ticked(LEFT_ALONE))) }

  ghost function EndMoves(q: Room, now: int): seq<Move> {
    [Drop(1), Step([], Ticked(LEFT_ALONE)), Over, File(RecordOf(Ended(q), now), now), Forget]
  }

  lemma GuestLeaves(r: Room, matchId: string, q: Room)
    requires RoundOn(r, matchId, q)
    ensures Legal(PLAIN, "ann", q, Drop(1))
    ensures var q' := Dropped(q, 1);
      && q'.phase == InGame && SameTerms(r, q') && q'.world == Some(LEFT_ALONE) && q'.matchCfg == FRIENDLY
      && q'.matchId == matchId && q'.seats == [q.seats[0]] && AnnsSeat(q'.seats[0])
      && Legal(PLAIN, "ann", q', Step([], Ticked(LEFT_ALONE)))
  {
    LoneSurvivor();
    hide Eliminated;
    assert SeatIndex(q.seats[1..], 1) == 0;
    assert SeatIndex(q.seats, 1) == 1;
    assert WithoutAt(q.seats, 1) == [q.seats[0]];
    assert SteeredBy(LEFT_ALONE, []) == LEFT_ALONE;
  }

  lemma RoundIsOver(r: Room, q: Room, matchId: string)
    requires Alone(r) && q.phase == InGame && SameTerms(r, q) && q.world == Some(LEFT_ALONE) && q.matchCfg == FRIENDLY
    requires q.matchId == matchId && |q.seats| == 1 && AnnsSeat(q.seats[0])
    ensures var w := Ticked(LEFT_ALONE); var q' := WorldStepped(q, w);
      && Legal(PLAIN, "ann", q', Over) && Reopened(q').world.Some? && Reopened(q').world.value.st.over
      && var q'' := Reopened(q'); q''.world == Some(w) && q''.matchId == matchId && Alone(q'') && SameTerms(r, q'')
  {
    LoneSurvivor();
    hide Eliminated;
  }

  lemma RoundIsFiled(q: Room, matchId: string, now: int)
    requires Alone(q) && q.world.Some? && q.world.value.st.over && q.matchId == matchId
    ensures var rec := RecordOf(q, now); var q' := Filed(q, rec, now);
      && Legal(PLAIN, "ann", q, File(rec, now)) && Legal(PLAIN, "ann", q', Forget)
      && var q'' := q'.(world := None);
         && Alone(q'') && q''.record == Some(rec) && q''.attestUntil == now + ATTEST_WINDOW
         && rec.result.matchId == matchId
  {
    hide Report, HashHex, WithSignature, Accepts;
    var h := HeadingOf(PLAIN, "ann", q, now);
    assert Report(h, q.matchPlayers, q.world.value.st).matchId == q.matchId by { ReportIsOf(h, q); }
  }

  lemma ReportIsOf(h: Heading, q: Room)
    requires q.world.Some?
    ensures Report(h, q.matchPlayers, q.world.value.st).matchId == h.matchId
  {
    hide Participants, Placements, BotsAmong, Sorting.SortBy;
  }

  lemma EndAfters(q: Room, q1: Room, q2: Room, q3: Room, rec: Record, now: int)
    ensures var w := Ticked(LEFT_ALONE);
      && After(PLAIN, q, Drop(1)) == Dropped(q, 1) && After(PLAIN, q1, Step([], w)) == WorldStepped(q1, w)
      && After(PLAIN, q2, Over) == Reopened(q2) && After(PLAIN, q3, File(rec, now)) == Filed(q3, rec, now)
      && After(PLAIN, Filed(q3, rec, now), Forget) == Filed(q3, rec, now).(world := None)
  {
    hide Dropped, WorldStepped, Reopened, Filed, Ticked, Resettled, Clamped, AdvertOf, BotCount;
    hide Accepts, Signed, Unready,
      SeatIndex, NewSeat, Admit, Coast, Eliminated;
  }

  lemma RoundEnds(r: Room, matchId: string, q: Room, now: int)
    requires Alone(r) && RoundOn(r, matchId, q)
    ensures LegalRun(PLAIN, "ann", q, EndMoves(q, now))
    ensures var e := Ran(PLAIN, q, EndMoves(q, now)); var rec := RecordOf(Ended(q), now);
      Alone(e) && e.record == Some(rec) && e.attestUntil == now + ATTEST_WINDOW && rec.result.matchId == matchId
  {
    hide Legal, After, Ran, LegalRun, RecordOf, Filed, Reopened, WorldStepped, Dropped, Ticked, Alone, RoundOn;
    GuestLeaves(r, matchId, q);
    var q1 := Dropped(q, 1);
    RoundIsOver(r, q1, matchId);
    var q2 := WorldStepped(q1, Ticked(LEFT_ALONE));
    var q3 := Reopened(q2);
    RoundIsFiled(q3, matchId, now);
    var q4 := Filed(q3, RecordOf(q3, now), now);
    EndAfters(q, q1, q2, q3, RecordOf(q3, now), now);
    FiveMoves(PLAIN, "ann", q, EndMoves(q, now), q1, q2, q3, q4, q4.(world := None));
  }

  // ---- The clock of a run ----

  function TimeOf(m: Move): Option<int> {
    match m
    case Hear(_, now) => Some(now)
    case Join(_, now) => Some(now)
    case Reconfigure(_, _, now, _) => Some(now)
    case Begin(_, _, _, now) => Some(now)
    case Play(now) => Some(now)
    case File(_, now) => Some(now)
    case Close(now, _) => Some(now)
    case _ => None
  }

  /** Time does not run backwards in a run, nor leave the given span. */
  ghost predicate Clocked(ms: seq<Move>, from: int, to: int) {
    && from <= to
    && (forall i :: 0 <= i < |ms| && TimeOf(ms[i]).Some? ==> from <= TimeOf(ms[i]).value <= to)
    && (forall i, j :: 0 <= i < j < |ms| && TimeOf(ms[i]).Some? && TimeOf(ms[j]).Some? ==>
          TimeOf(ms[i]).value <= TimeOf(ms[j]).value)
  }

  lemma ClocksJoin(a: seq<Move>, b: seq<Move>, from: int, then': int, to: int)
    requires Clocked(a, from, then') && Clocked(b, then', to)
    ensures Clocked(a + b, from, to)
  {
    hide TimeOf;
  }

  lemma StartClocked(matchId: string, now: int)
    ensures Clocked(StartMoves(matchId, now), now, now + COUNTDOWN_SECONDS * SECOND)
  {
  }

  lemma EndClocked(q: Room, now: int, from: int)
    requires from <= now
    ensures Clocked(EndMoves(q, now), from, now)
  {
    hide Ended, RecordOf;
  }

  lemma ClosingClocked(from: int, now: int)
    requires from <= now
    ensures Clocked([Close(now, [])], from, now)
  {
  }

  lemma TwoRoundsClocked(q: Room)
    ensures var round := StartMoves(FIRST, 0) + EndMoves(q, 4 * SECOND);
      Clocked(round + StartMoves(SECOND_MATCH, 4 * SECOND), 0, 7 * SECOND)
  {
    hide Clocked, StartMoves, EndMoves;
    var start, end, next := StartMoves(FIRST, 0), EndMoves(q, 4 * SECOND), StartMoves(SECOND_MATCH, 4 * SECOND);
    StartClocked(FIRST, 0);
    EndClocked(q, 4 * SECOND, 3 * SECOND);
    StartClocked(SECOND_MATCH, 4 * SECOND);
    ClocksJoin(start, end, 0, 3 * SECOND, 4 * SECOND);
    ClocksJoin(start + end, next, 0, 4 * SECOND, 7 * SECOND);
  }

  lemma RoundsClocked()
    ensures Clocked(ROUND + NEXT, 0, 7 * SECOND)
  {
    hide Clocked, StartMoves, EndMoves, Ran;
    TwoRoundsClocked(Ran(PLAIN, LOBBY, StartMoves(FIRST, 0)));
  }

  // ---- Two rounds in a row ----

  const FIRST := "00000000-0000-0000-0000-000000000001"
  const SECOND_MATCH := "00000000-0000-0000-0000-000000000002"

  lemma ProperIds()
    ensures Store.ValidMatchId(FIRST) && Store.ValidMatchId(SECOND_MATCH) && FIRST != SECOND_MATCH
  {
    assert FIRST[35] == '1' && SECOND_MATCH[35] == '2';
  }

  /** Ann's lobby, just opened. */
  ghost const LOBBY := Refreshed(OpeningRoom("ann", "Ann", "friendly", FRIENDLY, 0, []))

  lemma LobbyIsOpened()
    ensures Opened("ann", "Ann", "friendly", FRIENDLY, 0, LOBBY) && Alone(LOBBY) && LOBBY.record.None?
    ensures FRIENDLY.Valid() && PLAIN.keyOk("ann")
  {
    var first := [HostSeat("ann", "Ann", 0)];
    assert BotCount(first) == 0 by { assert first[1..] == []; }
    assert OnlyComings([]);
  }

  /** The first match is filed at four seconds; a second guest joins at once, and the next match is
      on at seven. */
  ghost const ROUND := StartMoves(FIRST, 0) + EndMoves(Ran(PLAIN, LOBBY, StartMoves(FIRST, 0)), 4 * SECOND)
  ghost const NEXT := StartMoves(SECOND_MATCH, 4 * SECOND)

  lemma FirstRound()
    ensures LegalRun(PLAIN, "ann", LOBBY, ROUND)
    ensures var r := Ran(PLAIN, LOBBY, ROUND);
      && Alone(r) && r.record.Some? && r.attestUntil == 8 * SECOND && r.record.value.result.matchId == FIRST
      && ROUND[8] == File(r.record.value, 4 * SECOND)
  {
    hide Legal, Ran, LegalRun, Alone, RoundOn, RecordOf, Ended, Store.ValidMatchId;
    LobbyIsOpened();
    ProperIds();
    var q := Ran(PLAIN, LOBBY, StartMoves(FIRST, 0));
    RoundStarts(LOBBY, FIRST, 0);
    RoundEnds(LOBBY, FIRST, q, 4 * SECOND);
    RanOn(PLAIN, "ann", LOBBY, StartMoves(FIRST, 0), EndMoves(q, 4 * SECOND));
  }

  lemma NextRound()
    ensures LegalRun(PLAIN, "ann", LOBBY, ROUND + NEXT)
    ensures var r, q := Ran(PLAIN, LOBBY, ROUND), Ran(PLAIN, LOBBY, ROUND + NEXT);
      RoundOn(r, SECOND_MATCH, q) && Alone(r)
  {
    hide Legal, Ran, LegalRun, Alone, RoundOn, Store.ValidMatchId;
    ProperIds();
    FirstRound();
    RoundStarts(Ran(PLAIN, LOBBY, ROUND), SECOND_MATCH, 4 * SECOND);
    RanOn(PLAIN, "ann", LOBBY, ROUND, NEXT);
  }

  /** It does happen, from a lobby just opened: the record of the first match is not due when the
      second gets under way, and closing it a second later ends the second match. */
  lemma ALateRecordEndsAMatch()
    ensures Opened("ann", "Ann", "friendly", FRIENDLY, 0, LOBBY)
    ensures var close := [Close(8 * SECOND + 1, [])];
      var on, end := Ran(PLAIN, LOBBY, ROUND + NEXT), Ran(PLAIN, LOBBY, ROUND + NEXT + close);
      && LegalRun(PLAIN, "ann", LOBBY, ROUND + NEXT + close) && Clocked(ROUND + NEXT + close, 0, 8 * SECOND + 1)
      && NEXT[4] == Play(7 * SECOND) && !Due(on, 7 * SECOND) && Due(on, 8 * SECOND + 1)
      && on.phase == InGame && on.world == Some(BOARD) && on.matchId == SECOND_MATCH
      && end.phase == Open && end.world == Some(BOARD) && !BOARD.st.over && end.record.None?
  {
    hide Legal, After, Ran, LegalRun, RecordClosed, Alone, RoundOn, Due, Clocked;
    LobbyIsOpened();
    FirstRound();
    NextRound();
    var r, on := Ran(PLAIN, LOBBY, ROUND), Ran(PLAIN, LOBBY, ROUND + NEXT);
    NotDueYet(r, on, SECOND_MATCH, 7 * SECOND, 8 * SECOND + 1);
    RoundsClocked();
    ClosingClocked(7 * SECOND, 8 * SECOND + 1);
    ClocksJoin(ROUND + NEXT, [Close(8 * SECOND + 1, [])], 0, 7 * SECOND, 8 * SECOND + 1);
    OneMore(PLAIN, "ann", LOBBY, ROUND + NEXT, Close(8 * SECOND + 1, []));
    ClosingReopens(on);
  }

  lemma NotDueYet(r: Room, q: Room, matchId: string, early: int, late: int)
    requires RoundOn(r, matchId, q) && r.record.Some? && early <= r.attestUntil < late
    ensures !Due(q, early) && Due(q, late) && Legal(PLAIN, "ann", q, Close(late, []))
    ensures After(PLAIN, q, Close(late, [])) == RecordClosed(q, [])
    ensures q.phase == InGame && q.world == Some(BOARD) && q.matchId == matchId
  {
    hide RecordClosed;
    assert q.seats[1] in q.seats;
  }

  /** And when the second match is over before that, its record takes the place of the first,
      which however the run goes on never reaches the store. */
  lemma ARecordIsOverwritten(more: seq<Move>)
    ensures var on := Ran(PLAIN, LOBBY, ROUND + NEXT);
      var ms := ROUND + NEXT + EndMoves(on, 7 * SECOND + 1);
      && LegalRun(PLAIN, "ann", LOBBY, ms) && Clocked(ms, 0, 7 * SECOND + 1)
      && ms[8].File? && ms[8].rec.result.matchId == FIRST
      && Ran(PLAIN, LOBBY, ms).record.Some?
      && Ran(PLAIN, LOBBY, ms).record.value.result.matchId == SECOND_MATCH
      && (LegalRun(PLAIN, "ann", LOBBY, ms + more) && OnlyFiling(LOBBY, ms + more, 8) ==>
            !exists i: nat, rec: Record ::
               HandedOver(PLAIN, LOBBY, ms + more, i, rec) && rec.result == ms[8].rec.result)
  {
    hide Legal, Ran, LegalRun, Alone, RoundOn, RecordOf, Ended, HandedOver, OnlyFiling, Clocked;
    FirstRound();
    NextRound();
    var on := Ran(PLAIN, LOBBY, ROUND + NEXT);
    var last := EndMoves(on, 7 * SECOND + 1);
    RoundEnds(Ran(PLAIN, LOBBY, ROUND), SECOND_MATCH, on, 7 * SECOND + 1);
    RanOn(PLAIN, "ann", LOBBY, ROUND + NEXT, last);
    var ms := ROUND + NEXT + last;
    RoundsClocked();
    EndClocked(on, 7 * SECOND + 1, 7 * SECOND);
    ClocksJoin(ROUND + NEXT, last, 0, 7 * SECOND, 7 * SECOND + 1);
    if LegalRun(PLAIN, "ann", LOBBY, ms + more) && OnlyFiling(LOBBY, ms + more, 8) {
      NeverHandedOver(on, more);
    }
  }

  lemma NeverHandedOver(on: Room, more: seq<Move>)
    requires LegalRun(PLAIN, "ann", LOBBY, ROUND + NEXT + EndMoves(on, 7 * SECOND + 1) + more)
    requires OnlyFiling(LOBBY, ROUND + NEXT + EndMoves(on, 7 * SECOND + 1) + more, 8)
    ensures var ms := ROUND + NEXT + EndMoves(on, 7 * SECOND + 1) + more;
      !exists i: nat, rec: Record :: HandedOver(PLAIN, LOBBY, ms, i, rec) && rec.result == ms[8].rec.result
  {
    hide Legal, Ran, LegalRun, RecordOf, Ended, HandedOver, RoomInv, OnlyFiling;
    LobbyIsOpened();
    OpenedKeeps(PLAIN, "ann", "Ann", "friendly", FRIENDLY, 0, LOBBY);
    var ms := ROUND + NEXT + EndMoves(on, 7 * SECOND + 1) + more;
    NextFiling(ROUND, NEXT, EndMoves(on, 7 * SECOND + 1), more);
    FiledIsHandedOverIff(PLAIN, "ann", LOBBY, ms, 8);
  }

  lemma NextFiling(a: seq<Move>, b: seq<Move>, e: seq<Move>, more: seq<Move>)
    requires |a| == 10 && |b| == 5 && |e| == 5 && e[3].File?
    requires !SetsRecord(a[9]) && !SetsRecord(e[0]) && !SetsRecord(e[1]) && !SetsRecord(e[2])
    requires forall i :: 0 <= i < 5 ==> !SetsRecord(b[i])
    ensures NextSetting(a + b + e + more, 9) == 18 && (a + b + e + more)[18].File?
  {
    NoneSince(a + b + e + more, 9, 18);
  }
}
