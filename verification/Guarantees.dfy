/** What a lobby promises its players, over every run of it. */
module Guarantees {
  import opened Types
  import opened World
  import opened Roster
  import opened Records
  import opened Attestation
  import opened MatchReport
  import opened Lobby
  import opened Consent
  import opened LobbyInvariant
  import opened LobbyMoves
  import opened LobbyRuns
  import opened Samples
  import Bookkeeping
  import Drops
  import Soundness
  import Runs
  import Sorting
  import Store

  // ---- A new lobby ----

  const NO_CONFIG := Config("", 0, 0, 0, 0, 0, false, 0, 0, 0)

  function HostSeat(hostKey: string, hostName: string, now: int): Seat {
    Seat(0, Player(0, hostKey, hostName, "", "", 0, false, true, true, false), false, 0, now, false, 0, false)
  }

  /** The lobby `newHost` opens, with the bots it asks for already seated. */
  ghost predicate Opened(hostKey: string, hostName: string, name: string, cfg: Config, now: int, r: Room) {
    && cfg.maxPlayers >= 0
    && exists comings :: OnlyComings(comings) && r == Refreshed(OpeningRoom(hostKey, hostName, name, cfg, now, comings))
  }

  ghost function OpeningRoom(hostKey: string, hostName: string, name: string, cfg: Config, now: int,
                             comings: seq<Event>): Room
    requires cfg.maxPlayers >= 0
  {
    var first := [HostSeat(hostKey, hostName, now)];
    Room(name, cfg, 0, Open, MoreBots(FewerBots(first, BotsWanted(cfg)), BotsWanted(cfg), cfg.maxPlayers, now), None,
         NO_CONFIG, [], "", 0, map[], 0, 0, None, 0, Advert("", NO_CONFIG, 0, 0, 0, Open), [Settings(0, cfg)] + comings)
  }

  lemma HostAloneOk(e: House, hostName: string, now: int)
    requires e.hostKey != "" && e.keyOk(e.hostKey)
    ensures SeatsOk(e, [HostSeat(e.hostKey, hostName, now)])
    ensures BotCount([HostSeat(e.hostKey, hostName, now)]) == 0
  {
  }

  lemma {:induction false} MoreBotsUnready(seats: seq<Seat>, want: nat, room: nat, now: int)
    requires forall s :: s in seats && !s.bot ==> !s.player.ready
    ensures forall s :: s in MoreBots(seats, want, room, now) && !s.bot ==> !s.player.ready
  {
    forall s | s in MoreBots(seats, want, room, now) && !s.bot
      ensures !s.player.ready
    {
      MoreBotsPeople(seats, want, room, now, s);
    }
  }

  lemma OpenedKeeps(c: Crypto, hostKey: string, hostName: string, name: string, cfg: Config, now: int, r: Room)
    requires cfg.Valid() && hostKey != "" && c.keyOk(hostKey) && Opened(hostKey, hostName, name, cfg, now, r)
    ensures RoomInv(c, hostKey, r)
  {
    hide OpeningRoom, RoomInv;
    var comings :| OnlyComings(comings) && r == Refreshed(OpeningRoom(hostKey, hostName, name, cfg, now, comings));
    OpeningSeats(HouseOf(c, hostKey), hostName, cfg, now);
    OpeningKeeps(c, hostKey, OpeningRoom(hostKey, hostName, name, cfg, now, comings), cfg, comings) by {
      OpeningIs(hostKey, hostName, name, cfg, now, comings);
    }
  }

  lemma OpeningIs(hostKey: string, hostName: string, name: string, cfg: Config, now: int, comings: seq<Event>)
    requires cfg.maxPlayers >= 0
    ensures var r := OpeningRoom(hostKey, hostName, name, cfg, now, comings);
      && r.cfg == cfg && r.gen == 0 && r.phase == Open && r.world.None? && r.record.None?
      && r.log == [Settings(0, cfg)] + comings
      && r.seats == MoreBots(FewerBots([HostSeat(hostKey, hostName, now)], BotsWanted(cfg)),
                             BotsWanted(cfg), cfg.maxPlayers, now)
  {
    hide HostSeat, MoreBots, FewerBots, BotsWanted;
  }

  lemma OpeningSeats(e: House, hostName: string, cfg: Config, now: int)
    requires cfg.Valid() && e.hostKey != "" && e.keyOk(e.hostKey)
    ensures var seats :=
        MoreBots(FewerBots([HostSeat(e.hostKey, hostName, now)], BotsWanted(cfg)),
                 BotsWanted(cfg), cfg.maxPlayers, now);
      SeatsOk(e, seats) && Fits(cfg, seats) && forall s :: s in seats && !s.bot ==> !s.player.ready
  {
    var first := [HostSeat(e.hostKey, hostName, now)];
    HostAloneOk(e, hostName, now);
    HostNotReady(e.hostKey, hostName, now);
    hide SeatsOk, MoreBots, FewerBots, BotCount, HostSeat;
    FewerBotsKeepsSeats(e, first, BotsWanted(cfg));
    MoreBotsKeepsSeats(e, first, BotsWanted(cfg), cfg.maxPlayers, now);
    MoreBotsUnready(first, BotsWanted(cfg), cfg.maxPlayers, now);
  }

  lemma HostNotReady(hostKey: string, hostName: string, now: int)
    ensures !HostSeat(hostKey, hostName, now).player.ready
  {
  }

  lemma OpeningKeeps(c: Crypto, hostKey: string, r: Room, cfg: Config, comings: seq<Event>)
    requires r.cfg == cfg && r.gen == 0 && r.phase == Open && r.world.None? && r.record.None?
    requires r.log == [Settings(0, cfg)] + comings && OnlyComings(comings)
    requires SeatsOk(HouseOf(c, hostKey), r.seats) && Fits(cfg, r.seats)
    requires forall s :: s in r.seats && !s.bot ==> !s.player.ready
    ensures RoomInv(c, hostKey, Refreshed(r))
  {
    OpeningLog(cfg, comings);
    hide SeatsOk, Consented, InForce, Fits, BotCount, Standing;
  }

  lemma OpeningLog(cfg: Config, comings: seq<Event>)
    requires OnlyComings(comings)
    ensures Consented([Settings(0, cfg)] + comings) && InForce([Settings(0, cfg)] + comings) == Some((0, cfg))
  {
    assert Consented([]) && InForce([]).None? && [] + [Settings(0, cfg)] == [Settings(0, cfg)];
    SettingsKeepConsent([], 0, cfg);
    ComingsKeepConsent([Settings(0, cfg)], comings);
  }

  /** Every state of every run: the roster is in order, the advert agrees with it, the simulation
      is sound, readies stand, and a pending record would be taken by the store. */
  lemma EveryLobbyState(c: Crypto, hostKey: string, hostName: string, name: string, cfg: Config, now: int,
                        r: Room, ms: seq<Move>)
    requires cfg.Valid() && hostKey != "" && c.keyOk(hostKey) && Opened(hostKey, hostName, name, cfg, now, r)
    requires LegalRun(c, hostKey, r, ms)
    ensures RoomInv(c, hostKey, Ran(c, r, ms))
  {
    hide RoomInv, Opened, LegalRun;
    OpenedKeeps(c, hostKey, hostName, name, cfg, now, r);
    RunKeeps(c, hostKey, r, ms);
  }

  // ---- Consent ----

  lemma OnlyPlayEnters(c: Crypto, r: Room, m: Move)
    requires r.phase != InGame && After(c, r, m).phase == InGame
    ensures m.Play?
  {
    hide Resettled, Accepts, Eliminated, Admit, Clamped, BotCount, Lost;
  }

  /** A match is entered only out of a countdown, everybody ready and still there, on a board
      where nothing has moved; and the entry is on record. */
  lemma EnteredFromCountdown(c: Crypto, hostKey: string, r: Room, m: Move)
    requires RoomInv(c, hostKey, r) && Legal(c, hostKey, r, m)
    requires r.phase != InGame && After(c, r, m).phase == InGame
    ensures r.phase == Countdown && EveryoneReady(r.seats) && SeatedLineup(r.seats, r.matchPlayers)
    ensures SameButSeed(r.matchCfg, r.cfg) && r.world.Some? && Fresh(r.world.value)
    ensures After(c, r, m).log == r.log + [Entered(r.matchCfg, r.matchPlayers)]
  {
    OnlyPlayEnters(c, r, m);
    assert r.phase == Countdown && EveryoneReady(r.seats);
    hide SeatsOk, Fits, LogOk, RecordOk, SimOk, SeatedLineup, Fresh, SeatsPlay, LivingSeated, EveryoneReady;
    assert PhaseOk(r);
  }

  /** The history only grows. */
  lemma {:induction false} HistoryGrows(c: Crypto, r: Room, ms: seq<Move>)
    ensures Prolongs(r.log, Ran(c, r, ms).log)
  {
    if |ms| > 0 {
      var n := |ms| - 1;
      HistoryGrows(c, r, ms[..n]);
      hide Ran;
      MoveGrowsHistory(c, Ran(c, r, ms[..n]), ms[n]);
      assert Ran(c, r, ms) == After(c, Ran(c, r, ms[..n]), ms[n]) by { RanOnce(c, r, ms); }
    }
  }

  lemma RanOnce(c: Crypto, r: Room, ms: seq<Move>)
    requires |ms| > 0
    ensures Ran(c, r, ms) == After(c, Ran(c, r, ms[..|ms|-1]), ms[|ms|-1])
  {
  }

  ghost predicate Prolongs(log: seq<Event>, log': seq<Event>) {
    |log'| >= |log| && log'[..|log|] == log
  }

  lemma MoveGrowsHistory(c: Crypto, r: Room, m: Move)
    ensures Prolongs(r.log, After(c, r, m).log)
  {
    hide Dropped, Reconfigured, RecordClosed, ReadySet, Quieted, Heard, Seated, CountdownBegun;
    hide PlayBegun, AttestedBy, Filed, SignedSet,
      WorldStepped, Reopened, Aborted, Prolongs;
    match m
    case Drop(id) => DropGrowsHistory(r, id);
    case Reconfigure(name, cfg, now, comings) =>
      if cfg.maxPlayers >= 0 {
        ReconfigureGrowsHistory(r, name, cfg, now, comings);
      } else {
        SameHistory(r.log);
      }
    case Close(_, lost) => ClosingGrowsHistory(r, lost);
    case _ => OtherMovesGrowHistory(c, r, m);
  }

  lemma SameHistory(log: seq<Event>)
    ensures Prolongs(log, log)
  {
  }

  lemma DropGrowsHistory(r: Room, id: PlayerID)
    ensures Prolongs(r.log, Dropped(r, id).log)
  {
    hide Eliminated, WithoutAt, Unready, BotCount;
  }

  lemma {:induction false} LosingGrowsHistory(r: Room, ids: seq<PlayerID>)
    ensures Prolongs(r.log, Lost(r, ids).log)
  {
    hide Dropped;
    if |ids| > 0 {
      LosingGrowsHistory(r, ids[..|ids|-1]);
      DropGrowsHistory(Lost(r, ids[..|ids|-1]), ids[|ids|-1]);
    }
  }

  lemma ClosingGrowsHistory(r: Room, lost: seq<PlayerID>)
    ensures Prolongs(r.log, RecordClosed(r, lost).log)
  {
    hide Lost, Unready, BotCount;
    LosingGrowsHistory(r.(record := None), lost);
  }

  lemma ReconfigureGrowsHistory(r: Room, name: string, cfg: Config, now: int, comings: seq<Event>)
    requires cfg.maxPlayers >= 0
    ensures Prolongs(r.log, Reconfigured(r, name, cfg, now, comings).log)
  {
    hide Resettled, Clamped, Unready, BotCount;
  }

  lemma OtherMovesGrowHistory(c: Crypto, r: Room, m: Move)
    requires !m.Drop? && !m.Reconfigure? && !m.Close?
    ensures Prolongs(r.log, After(c, r, m).log)
  {
    hide Accepts, Signed, Admit, NewSeat, BotCount, Unready, Acked, PlayersOf, Coast, SeatIndex;
  }

  /** In every run, whoever is in a match that was entered had readied up for the settings that
      match is played with, quoting their generation, and had not taken it back; and nobody joined,
      left or changed anything between the start of its countdown and its first tick. */
  lemma NobodyPlaysUnasked(c: Crypto, hostKey: string, hostName: string, name: string, cfg: Config, now: int,
                           r: Room, ms: seq<Move>, n: nat)
    requires cfg.Valid() && hostKey != "" && c.keyOk(hostKey) && Opened(hostKey, hostName, name, cfg, now, r)
    requires LegalRun(c, hostKey, r, ms) && n < |Ran(c, r, ms).log| && Ran(c, r, ms).log[n].Entered?
    ensures var log := Ran(c, r, ms).log;
      && (exists b: nat :: CountdownFrom(log, b, n, log[n].cfg, log[n].roster))
      && (exists s: nat :: s < n && log[s].Settings? && SettingsAt(log, s, n, log[s].gen, log[s].cfg)
                           && SameButSeed(log[n].cfg, log[s].cfg) && AllReadySince(log, s, n, log[n].roster))
  {
    hide RoomInv, Opened, LegalRun, Ran, CountdownFrom, SettingsAt, AllReadySince, SameButSeed;
    EveryLobbyState(c, hostKey, hostName, name, cfg, now, r, ms);
    ConsentedIn(c, hostKey, Ran(c, r, ms));
    EntryHadConsent(Ran(c, r, ms).log, n);
  }

  lemma ConsentedIn(c: Crypto, hostKey: string, r: Room)
    requires RoomInv(c, hostKey, r)
    ensures Consented(r.log)
  {
  }

  // ---- The roster ----

  /** Seat ids ascend below 8 from the host's 0, palettes and people's keys are distinct, bots are
      ready and no more than asked for, seats no more than there are; and the advert says so. */
  lemma RosterInOrder(c: Crypto, hostKey: string, r: Room, i: nat, j: nat)
    requires RoomInv(c, hostKey, r) && i < |r.seats| && j < |r.seats|
    ensures 0 <= r.seats[j].id < 8
    ensures r.seats[0].id == 0 && r.seats[0].player.host && r.seats[0].player.pubKey == hostKey
    ensures r.seats[j].player.host <==> j == 0
    ensures if r.seats[j].bot then r.seats[j].player.ready else c.keyOk(r.seats[j].player.pubKey)
    ensures i < j ==>
      && r.seats[i].id < r.seats[j].id
      && r.seats[i].player.palette != r.seats[j].player.palette
      && (!r.seats[i].bot && !r.seats[j].bot ==> r.seats[i].player.pubKey != r.seats[j].player.pubKey)
    ensures 0 < |r.seats| <= r.cfg.maxPlayers && BotCount(r.seats) <= r.cfg.bots
    ensures r.advert.config == r.cfg && r.advert.seats == r.cfg.maxPlayers && r.advert.taken == |r.seats|
    ensures r.advert.bots == BotCount(r.seats) && r.advert.phase == r.phase && r.advert.name == r.name
  {
    var s, t, z := r.seats[i], r.seats[j], r.seats[0];
    hide LogOk, RecordOk, SimOk, PhaseOk, Fits;
    assert s in r.seats && t in r.seats && z in r.seats;
    assert SeatOk(HouseOf(c, hostKey), t) && SeatOk(HouseOf(c, hostKey), z);
    if i < j {
      assert !Clash(s, t) && s.id < t.id;
    }
    if 0 < j {
      assert z.id < t.id;
    }
    FitsMeans(r.cfg, r.seats) by { RosterFits(c, hostKey, r); }
  }

  lemma RosterFits(c: Crypto, hostKey: string, r: Room)
    requires RoomInv(c, hostKey, r)
    ensures Fits(r.cfg, r.seats)
  {
  }

  lemma FitsMeans(cfg: Config, seats: seq<Seat>)
    requires Fits(cfg, seats)
    ensures |seats| <= cfg.maxPlayers && BotCount(seats) <= cfg.bots
  {
  }

  /** During a match its snakes are exactly the line-up at kickoff, every seat has one of them, and
      every living one still has its seat. */
  lemma SnakesAndSeats(c: Crypto, hostKey: string, r: Room, k: nat, s: Seat)
    requires RoomInv(c, hostKey, r) && r.phase == InGame && r.world.Some?
    requires k < |r.world.value.st.snakes| && s in r.seats
    ensures |r.world.value.st.snakes| == |r.matchPlayers|
    ensures r.world.value.st.snakes[k].id == r.matchPlayers[k].seat
    ensures exists i ::
      0 <= i < |r.matchPlayers| && r.world.value.st.snakes[i].id == s.id && SamePerson(s, r.matchPlayers[i])
    ensures r.world.value.st.snakes[k].alive ==>
      exists t :: t in r.seats && t.id == r.world.value.st.snakes[k].id && SamePerson(t, r.matchPlayers[k])
  {
    hide LogOk, RecordOk, RosterOk, Inv;
    var snakes, players := r.world.value.st.snakes, r.matchPlayers;
    assert SnakesOf(players, snakes) && SeatsPlay(r.seats, players) && LivingSeated(r.seats, snakes);
    assert TakesPart(s, players);
    var i :| 0 <= i < |players| && SamePerson(s, players[i]);
    assert snakes[i].id == s.id;
    if snakes[k].alive {
      var t := r.seats[SeatIndex(r.seats, snakes[k].id)];
      assert t in r.seats && TakesPart(t, players);
      var j :| 0 <= j < |players| && SamePerson(t, players[j]);
      LineupSeatsDiffer(HouseOf(c, hostKey), players, j, k);
    }
  }

  // ---- The record ----

  /** When a match is over its report passes validation, and everybody there at kickoff is in it
      once as a participant and once in the placements, no two with the same place. */
  lemma FinishedMatchIsRecorded(c: Crypto, hostKey: string, r: Room, h: Heading, j: nat, k: nat)
    requires RoomInv(c, hostKey, r) && r.world.Some? && r.world.value.finished
    requires h.matchId == r.matchId && h.hostKey == hostKey
    requires j < |r.matchPlayers| && k < |r.matchPlayers| && !r.matchPlayers[k].bot
    ensures var report, final := Report(h, r.matchPlayers, r.world.value.st), r.world.value.st;
      && ValidResult(c, report)
      && |final.snakes| == |r.matchPlayers|
      && (exists i :: OnlyAt(PubKeyOf, report.participants, i, ParticipantOf(r.matchPlayers[k])))
      && (exists i ::
            OnlyAt(PlacementKey, report.placements, i, PlacementOf(r.matchPlayers[k], final.snakes[k], final.tick)))
      && final.snakes[k].id == r.matchPlayers[k].seat
      && 1 <= final.snakes[k].placement <= |r.matchPlayers|
      && (j != k ==> final.snakes[j].placement != final.snakes[k].placement)
  {
    var players, w := r.matchPlayers, r.world.value;
    assert LineupOk(HouseOf(c, hostKey), players) && SnakesOf(players, w.st.snakes) && Inv(r.matchCfg, w);
    hide RoomInv, Report, OnlyAt, ValidResult, Ledger, Soundness.Sound;
    ReportIsValid(c, h, players, w.st);
    EverybodyRecordedOnce(h, players, w.st, k);
    Bookkeeping.PlacementsRankEverybody(w, k, j);
  }

  // ---- Losing a seat to new settings ----

  lemma {:induction false} UnreadyCounts(seats: seq<Seat>)
    ensures BotCount(Unready(seats)) == BotCount(seats)
  {
    if |seats| > 0 {
      UnreadyCounts(seats[1..]);
      assert Unready(seats)[1..] == Unready(seats[1..]);
    }
  }

  /** New settings cost a person their seat exactly when the people below them and those of the
      bots below them that stay fill the new seat count by themselves. */
  lemma SettingsCostASeat(c: Crypto, hostKey: string, r: Room, name: string, cfg: Config, now: int, es: seq<Event>,
                          k: nat)
    requires RoomInv(c, hostKey, r) && cfg.Valid() && k < |r.seats| && !r.seats[k].bot
    ensures var applied := Clamped(cfg, People(r.seats));
      applied.maxPlayers >= People(r.seats)
      && (Unready(r.seats)[k] !in Reconfigured(r, name, cfg, now, es).seats
          <==> k - BotCount(r.seats[..k]) + Min(BotCount(r.seats[..k]), applied.bots) >= applied.maxPlayers)
  {
    var e, applied := HouseOf(c, hostKey), Clamped(cfg, People(r.seats));
    SeatsOkOf(c, hostKey, r);
    RosterFits(c, hostKey, r);
    FitsMeans(r.cfg, r.seats);
    RoomSize(r.cfg, r.seats);
    ClampedFits(e, r.seats, cfg);
    BotsAreReady(e, r.seats);
    UnreadyHolders(r.seats);
    SameHoldersSeatsOk(e, r.seats, Unready(r.seats));
    UnreadyCounts(r.seats[..k]);
    assert Unready(r.seats)[..k] == Unready(r.seats[..k]);
    assert BotsWanted(applied) == applied.bots;
    hide RoomInv, SeatsOk, Resettled, Clamped, BotCount, BotsWanted, SameHolders;
    PersonKeptIff(e, Unready(r.seats), applied, now, k);
  }

  lemma RoomSize(cfg: Config, seats: seq<Seat>)
    requires Fits(cfg, seats)
    ensures |seats| <= MAX_PLAYERS
  {
  }

  /** Seats and palettes taken in order from 0 on. */
  predicate InOrder(seats: seq<Seat>) {
    forall i :: 0 <= i < |seats| ==> seats[i].id as int == i && seats[i].player.palette == i
  }

  lemma UsedInOrder(seats: seq<Seat>)
    requires InOrder(seats)
    ensures forall i :: i in Ids(seats) <==> 0 <= i < |seats|
    ensures forall i :: i in Palettes(seats) <==> 0 <= i < |seats|
  {
    forall i
      ensures i in Ids(seats) <==> 0 <= i < |seats|
      ensures i in Palettes(seats) <==> 0 <= i < |seats|
    {
      if 0 <= i < |seats| {
        assert seats[i] in seats;
      }
    }
  }

  lemma LowestAfter(used: set<int>, n: nat)
    requires n < MAX_PLAYERS && forall i :: i in used <==> 0 <= i < n
    ensures LowestUnused(used, 0, MAX_PLAYERS) == n
  {
    hide LowestUnused;
    var r := LowestUnused(used, 0, MAX_PLAYERS);
    assert n !in used && (r < n ==> r in used);
  }

  lemma NextInOrder(seats: seq<Seat>, s: Seat)
    requires InOrder(seats) && |seats| < MAX_PLAYERS
    ensures FreeSeatId(seats) as int == |seats| && FreePaletteId(seats) == |seats|
    ensures s.id as int == |seats| && s.player.palette == |seats| ==>
      Admit(seats, s) == seats + [s] && InOrder(Admit(seats, s))
  {
    hide Ids, Palettes, LowestUnused, InOrder, Admit;
    UsedInOrder(seats);
    LowestAfter(Ids(seats), |seats|);
    LowestAfter(Palettes(seats), |seats|);
    if s.id as int == |seats| && s.player.palette == |seats| {
      AdmitInOrder(seats, s);
    }
  }

  lemma AdmitInOrder(seats: seq<Seat>, s: Seat)
    requires InOrder(seats) && s.id as int == |seats| && s.player.palette == |seats|
    ensures Admit(seats, s) == seats + [s] && InOrder(Admit(seats, s))
  {
    hide Sorting.SortBy;
    Sorting.SortFixes(ById, seats + [s]);
  }

  /** Two people at the ends of two bots, in a lobby of four that asks for the two bots. */
  const CROWDED := FRIENDLY.(maxPlayers := 4, bots := 2)

  const GUEST := Joiner(1, "ben", "Ben", "", "")

  ghost const CROWDED_LOBBY := Refreshed(OpeningRoom("ann", "Ann", "friendly", CROWDED, 0, []))

  lemma BotInOrder(seats: seq<Seat>)
    requires InOrder(seats) && |seats| < MAX_PLAYERS
    ensures var b := NewBot(seats, 0); var more := Admit(seats, b);
      more == seats + [b] && InOrder(more) && BotCount(more) == BotCount(seats) + 1 && b.bot && b.player.pubKey == ""
  {
    var b := NewBot(seats, 0);
    NextInOrder(seats, b);
    BotCountHead([b]);
    BotCountAppend(seats, [b]);
  }

  lemma TwoBotsSeated(h: Seat)
    requires InOrder([h]) && !h.bot
    ensures var seats := MoreBots([h], 2, 4, 0);
      && InOrder(seats) && |seats| == 3 && BotCount(seats) == 2
      && seats[0] == h && seats[1].player.pubKey == "" && seats[2].player.pubKey == ""
  {
    hide Admit, NewBot, BotCount, InOrder;
    var two := Admit([h], NewBot([h], 0));
    BotInOrder([h]);
    BotInOrder(two);
    BotCountHead([h]);
    assert BotCount([]) == 0 by { NoBots(); }
    assert MoreBots([h], 2, 4, 0) == MoreBots(two, 2, 4, 0);
  }

  lemma NoBots()
    ensures BotCount([]) == 0
  {
  }

  lemma CrowdedIsOpened()
    ensures CROWDED.Valid() && PLAIN.keyOk("ann")
    ensures Opened("ann", "Ann", "friendly", CROWDED, 0, CROWDED_LOBBY) && CROWDED_LOBBY.phase == Open
    ensures CROWDED_LOBBY.cfg == CROWDED && CROWDED_LOBBY.seats == MoreBots([HostSeat("ann", "Ann", 0)], 2, 4, 0)
  {
    var first := [HostSeat("ann", "Ann", 0)];
    hide MoreBots;
    assert BotCount(first) == 0 by { assert first[1..] == []; }
    assert OnlyComings([]);
  }

  lemma GuestSits(r: Room, now: int)
    requires InOrder(r.seats) && |r.seats| < MAX_PLAYERS
    ensures var s := NewSeat(r.seats, GUEST, now);
      && Seated(r, GUEST, now).seats == r.seats + [s]
      && !s.bot && s.player.pubKey == "ben" && BotCount(r.seats + [s]) == BotCount(r.seats)
  {
    var s := NewSeat(r.seats, GUEST, now);
    NextInOrder(r.seats, s);
    BotCountHead([s]);
    BotCountAppend(r.seats, [s]);
  }

  lemma GuestMayJoin()
    ensures Legal(PLAIN, "ann", CROWDED_LOBBY, Join(GUEST, 0))
    ensures var seats := Seated(CROWDED_LOBBY, GUEST, 0).seats;
      && |seats| == 4 && !seats[3].bot && seats[3].player.pubKey == "ben"
      && BotCount(seats) == 2 && BotCount(seats[..3]) == 2
  {
    hide Seated, BotCount, InOrder, Admit, NewSeat, MoreBots, Opened;
    var h := HostSeat("ann", "Ann", 0);
    assert InOrder([h]) by { HostInOrder(h); }
    CrowdedIsOpened();
    TwoBotsSeated(h);
    var seats := CROWDED_LOBBY.seats;
    GuestSits(CROWDED_LOBBY, 0);
    assert (seats + [NewSeat(seats, GUEST, 0)])[..3] == seats;
    assert !KeySeated(seats, "ben");
  }

  lemma HostInOrder(h: Seat)
    requires h.id == 0 && h.player.palette == 0
    ensures InOrder([h])
  {
  }

  lemma JoinSeats(c: Crypto, r: Room, who: Joiner, now: int)
    ensures After(c, r, Join(who, now)) == Seated(r, who, now)
  {
    hide Seated;
  }

  /** It does happen, in a lobby one guest has joined since it was opened: new settings for two
      seats and one bot are valid, and they cost the guest the seat although two people fit. */
  lemma SettingsCanCostASeat(es: seq<Event>)
    ensures Opened("ann", "Ann", "friendly", CROWDED, 0, CROWDED_LOBBY)
    ensures LegalRun(PLAIN, "ann", CROWDED_LOBBY, [Join(GUEST, 0)])
    ensures var r := Ran(PLAIN, CROWDED_LOBBY, [Join(GUEST, 0)]); var cfg := FRIENDLY.(bots := 1);
      && RoomInv(PLAIN, "ann", r) && cfg.Valid() && People(r.seats) == cfg.maxPlayers == 2
      && |r.seats| == 4 && r.seats[3].player.pubKey == "ben"
      && Unready(r.seats)[3] !in Reconfigured(r, "", cfg, 0, es).seats
  {
    hide RoomInv, Opened, Seated, Reconfigured, Unready, SeatsOk, BotCount, Legal, After, Ran, LegalRun;
    CrowdedIsOpened();
    Drops.RunOfOne(PLAIN, "ann", CROWDED_LOBBY, Join(GUEST, 0));
    JoinSeats(PLAIN, CROWDED_LOBBY, GUEST, 0);
    GuestMayJoin();
    EveryLobbyState(PLAIN, "ann", "Ann", "friendly", CROWDED, 0, CROWDED_LOBBY, [Join(GUEST, 0)]);
    var r := Seated(CROWDED_LOBBY, GUEST, 0);
    SettingsCostASeat(PLAIN, "ann", r, "", FRIENDLY.(bots := 1), 0, es, 3);
  }
}
