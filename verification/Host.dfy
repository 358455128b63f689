/**
 The host as it runs: one object, updated in place by one command after another
 (internal/netplay/host.go). Each method is proved to be a run of the moves in `Lobby`, and so keeps
 what every run keeps. The moves are ghost results; so is the history they write.
 */
module Hosting {
  import opened Types
  import opened World
  import opened Roster
  import opened Records
  import opened Attestation
  import opened MatchReport
  import opened Lobby
  import opened Consent
  import opened LobbyInvariant
  import opened LobbyMoves
  import opened LobbyRuns
  import opened Guarantees
  import opened Drops
  import opened Effects
  import opened Ticks
  import Bot
  import Runs
  import Simulation
  import Soundness
  import Sorting
  import Names
  import Store

  class Host {
    const crypto: Crypto
    const hostKey: string
    const hostName: string
    const store: Store.MatchStore

    var name: string
    var cfg: Config
    var gen: int
    var phase: Phase
    var seats: seq<Seat>
    var sim: Simulation.Sim?
    var matchCfg: Config
    var matchPlayers: seq<Player>
    var matchId: string
    var startedAt: int
    var pending: map<PlayerID, Pending>
    var countdownEnd: int
    var lastCount: int
    var record: Option<Record>
    var attestUntil: int
    var advert: Advert
    ghost var log: seq<Event>

    ghost function View(): Room
      reads this, sim
    {
      Room(name, cfg, gen, phase, seats, if sim == null then None else Some(sim.View()), matchCfg, matchPlayers,
           matchId, startedAt, pending, countdownEnd, lastCount, record, attestUntil, advert, log)
    }

    ghost predicate Valid()
      reads this, sim
    {
      && RoomInv(crypto, hostKey, View())
      && (sim != null ==> sim.cfg == matchCfg)
      && store.crypto == crypto
    }

    /** A seat may be dropped here: in an open lobby nothing else depends on it. */
    ghost predicate CanDrop()
      reads this, sim
    {
      phase == Open || phase == Closed || Valid()
    }

    /** The lobby before its bots are seated. */
    constructor Empty(crypto: Crypto, hostKey: string, hostName: string, store: Store.MatchStore, name: string,
                      cfg: Config, now: int)
      ensures this.crypto == crypto && this.hostKey == hostKey && this.hostName == hostName && this.store == store
      ensures sim == null
      ensures View() == Room(name, cfg, 0, Open, [HostSeat(hostKey, hostName, now)], None, NO_CONFIG, [], "", 0, map[],
                             0, 0, None, 0, Advert("", NO_CONFIG, 0, 0, 0, Open), [Settings(0, cfg)])
    {
      this.crypto, this.hostKey, this.hostName, this.store := crypto, hostKey, hostName, store;
      this.name, this.cfg, gen, phase := name, cfg, 0, Open;
      seats := [HostSeat(hostKey, hostName, now)];
      sim, matchCfg, matchPlayers, matchId, startedAt := null, NO_CONFIG, [], "", 0;
      pending, countdownEnd, lastCount, record, attestUntil := map[], 0, 0, None, 0;
      advert := Advert("", NO_CONFIG, 0, 0, 0, Open);
      log := [Settings(0, cfg)];
    }

    // ---- Small changes ----

    method RefreshAdvert()
      modifies this`advert
      ensures View() == Refreshed(old(View()))
    {
      var bots := CountBots(seats);
      advert := Advert(name, cfg, cfg.maxPlayers, |seats|, bots, phase);
    }

    /** A bot has nothing to decide, so it stays ready. */
    method ClearReady()
      modifies this`seats, this`lastCount, this`log
      ensures View() == ReadyCleared(old(View()))
    {
      var n := |seats|;
      for k := 0 to n
        invariant |seats| == n && lastCount == old(lastCount) && log == old(log)
        invariant forall j :: 0 <= j < k ==> seats[j] == Unready(old(seats))[j]
        invariant forall j :: k <= j < n ==> seats[j] == old(seats)[j]
      {
        var s := seats[k];
        seats := seats[k := s.(player := s.player.(ready := s.bot))];
      }
      assert seats == Unready(old(seats));
      lastCount := 0;
      log := log + [Cleared];
    }

    /** `abortCountdown` up to telling everybody; also how `resetAfterMatch` and `endMatch` open up. */
    method Reopen()
      modifies this`phase, this`seats, this`lastCount, this`log, this`advert
      ensures View() == Reopened(old(View()))
    {
      phase := Open;
      ClearReady();
      RefreshAdvert();
    }

    // ---- Sending, and losing seats by it ----

    /** `sendTo`: a client that cannot take a message that must arrive loses its seat. */
    method SendTo(s: Seat, droppable: bool) returns (ghost ms: seq<Move>)
      requires CanDrop()
      modifies this, sim
      ensures OnlyDrops(ms) && View() == Ran(crypto, old(View()), ms)
      ensures s.Local() || droppable ==> ms == []
      ensures ms != [] ==> ms[0] == Drop(s.id)
      ensures old(phase) != Countdown ==> ms == [] || ms == [Drop(s.id)]
      ensures old(Valid()) ==> Valid()
      ensures CanDrop() && (sim == old(sim) || sim == null) && |seats| <= old(|seats|)
      decreases |seats|, 1
    {
      ms := [];
      NothingRan(crypto, hostKey, View());
      hide RoomInv, Ran;
      if s.Local() || droppable {
        return;
      }
      var behind: bool := *;
      if behind {
        ms := RemoveSeat(s.id);
      }
    }

    /** A loop that sends to everybody with a connection, over a copy of the seats. */
    method SendToAll() returns (ghost ms: seq<Move>)
      requires CanDrop()
      modifies this, sim
      ensures OnlyDrops(ms) && View() == Ran(crypto, old(View()), ms)
      ensures old(Valid()) ==> Valid()
      ensures CanDrop() && (sim == old(sim) || sim == null) && |seats| <= old(|seats|)
      ensures phase == old(phase) || (old(phase) == Countdown && phase == Open)
      decreases |seats|, 2
    {
      hide RoomInv, Ran;
      ghost var was := View();
      var snapshot := seats;
      ms := [];
      assert View() == Ran(crypto, was, ms) by { NothingRan(crypto, hostKey, was); }
      for i := 0 to |snapshot|
        invariant OnlyDrops(ms) && View() == Ran(crypto, was, ms)
        invariant old(Valid()) ==> Valid()
        invariant CanDrop() && (sim == old(sim) || sim == null) && |seats| <= |snapshot|
      {
        if !snapshot[i].Local() {
          ghost var drops := SendTo(snapshot[i], false);
          RanOn(crypto, hostKey, was, ms, drops);
          ms := ms + drops;
        }
      }
      DropsFrame(crypto, was, ms);
    }

    /** `broadcastLobby`. */
    method BroadcastLobby() returns (ghost ms: seq<Move>)
      requires CanDrop()
      modifies this, sim
      ensures OnlyDrops(ms) && View() == Ran(crypto, old(View()), ms)
      ensures old(Valid()) ==> Valid()
      ensures CanDrop() && (sim == old(sim) || sim == null) && |seats| <= old(|seats|)
      ensures phase == old(phase) || (old(phase) == Countdown && phase == Open)
      decreases |seats|, 3
    {
      ms := SendToAll();
    }

    method AbortCountdown() returns (ghost ms: seq<Move>)
      modifies this, sim
      ensures OnlyDrops(ms) && View() == Ran(crypto, Aborted(old(View())), ms)
      ensures old(RoomInv(crypto, hostKey, Aborted(View()))) && store.crypto == crypto ==> Valid()
      ensures sim == null && phase == Open && |seats| <= old(|seats|)
      decreases |seats|, 4
    {
      hide RoomInv, Ran;
      sim := null;
      Reopen();
      assert View() == Aborted(old(View()));
      ghost var was := View();
      ms := BroadcastLobby();
      DropsFrame(crypto, was, ms);
    }

    /** `removeSeat`. */
    method RemoveSeat(id: PlayerID) returns (ghost ms: seq<Move>)
      requires CanDrop()
      modifies this, sim
      ensures |ms| > 0 && ms[0] == Drop(id) && OnlyDrops(ms) && View() == Ran(crypto, old(View()), ms)
      ensures old(phase) != Countdown ==> ms == [Drop(id)]
      ensures old(Valid()) ==> Valid()
      ensures CanDrop() && (sim == old(sim) || sim == null) && |seats| <= old(|seats|)
      decreases |seats|, 0
    {
      hide RoomInv, Ran, Forfeited, Vacated, Aborted, Dropped, OnlyDrops, After, Legal, SameBut;
      ghost var was := View();
      OneDrop(crypto, hostKey, was, id);
      DroppedIs(was, id);
      if Valid() {
        DropKeeps(crypto, hostKey, was, id);
      }
      ms := [Drop(id)];
      var k := FindSeat(seats, id);
      if k < 0 || seats[k].player.host {
        return;
      }
      var counting := phase == Countdown;
      Forfeit(id);
      Vacate(k);
      if counting {
        ghost var drops := AbortCountdown();
        DropThenDrops(crypto, hostKey, was, id, drops);
        ms := ms + drops;
      }
    }

    /** Leaving a match in progress forfeits it. */
    method Forfeit(id: PlayerID)
      requires CanDrop()
      modifies sim
      ensures View() == Forfeited(old(View()), id)
    {
      hide RoomInv, Eliminated;
      if sim != null && phase == InGame {
        SimIsValid(crypto, hostKey, View());
        sim.Eliminate(id);
      }
    }

    /** The seat goes, and its connection with it. */
    method Vacate(k: nat)
      requires k < |seats|
      modifies this`seats, this`log, this`advert
      ensures View() == Vacated(old(View()), k)
    {
      log := log + [Left(seats[k].id)];
      seats := seats[..k] + seats[k + 1..];
      RefreshAdvert();
    }

    // ---- Bots and settings ----

    /** `syncBots`. */
    method SyncBots(now: int) returns (ghost comings: seq<Event>)
      requires phase == Open && SeatsOk(HouseOf(crypto, hostKey), seats) && 0 <= cfg.maxPlayers <= MAX_PLAYERS
      modifies this, sim
      ensures OnlyComings(comings) && sim == old(sim)
      ensures View() == old(View()).(
        seats := MoreBots(FewerBots(old(seats), BotsWanted(old(cfg))), BotsWanted(old(cfg)), old(cfg).maxPlayers, now),
        advert := advert, log := old(log) + comings)
    {
      hide SeatsOk, FewerBots, MoreBots, OnlyComings, RoomInv;
      var want := cfg.bots;
      if want > cfg.maxPlayers - 1 {
        want := cfg.maxPlayers - 1;
      }
      if want < 0 {
        want := 0;
      }
      assert want == BotsWanted(cfg);
      ghost var left := UnseatBots(want);
      ghost var joined := SeatBots(want, now);
      comings := left + joined;
      ComingsJoined(old(log), left, joined);
    }

    method UnseatBots(want: nat) returns (ghost comings: seq<Event>)
      requires phase == Open && SeatsOk(HouseOf(crypto, hostKey), seats)
      modifies this, sim
      ensures OnlyComings(comings) && sim == old(sim) && SeatsOk(HouseOf(crypto, hostKey), seats)
      ensures View() == old(View()).(seats := FewerBots(old(seats), want), advert := advert, log := old(log) + comings)
    {
      hide SeatsOk, LastBot, BotCount, OnlyComings, WithoutAt, RoomInv, BotsOf;
      NoComings();
      ghost var was := View();
      comings := [];
      var current := BotSeats(seats);
      while |current| > want
        invariant |current| == BotCount(seats) && (|current| > 0 ==> current[|current|-1] == seats[LastBot(seats)])
        invariant SeatsOk(HouseOf(crypto, hostKey), seats) && OnlyComings(comings) && sim == old(sim)
        invariant View() == was.(seats := seats, advert := advert, log := was.log + comings)
        invariant FewerBots(seats, want) == FewerBots(was.seats, want)
        decreases |seats|
      {
        var last := current[|current|-1];
        comings := UnseatBot(last, comings, was);
        current := BotSeats(seats);
      }
    }

    method SeatBots(want: nat, now: int) returns (ghost comings: seq<Event>)
      requires SeatsOk(HouseOf(crypto, hostKey), seats) && 0 <= cfg.maxPlayers <= MAX_PLAYERS && phase == Open
      modifies this`seats, this`log
      ensures View()
        == old(View()).(seats := MoreBots(old(seats), want, cfg.maxPlayers, now), log := old(log) + comings)
      ensures OnlyComings(comings)
    {
      hide SeatsOk, LastBot, Admit, NewBot, BotCount, OnlyComings, RoomInv, BotsOf;
      NoComings();
      comings := [];
      var current := BotSeats(seats);
      while |current| < want && |seats| < cfg.maxPlayers
        invariant |current| == BotCount(seats)
        invariant SeatsOk(HouseOf(crypto, hostKey), seats) && OnlyComings(comings) && log == old(log) + comings
        invariant MoreBots(seats, want, cfg.maxPlayers, now) == MoreBots(old(seats), want, cfg.maxPlayers, now)
        decreases cfg.maxPlayers - |seats|
      {
        comings := SeatBot(|current|, now, comings);
        current := BotSeats(seats);
      }
    }

    /** One bot the fewer. */
    method UnseatBot(last: Seat, ghost before: seq<Event>, ghost was: Room) returns (ghost comings: seq<Event>)
      requires phase == Open && SeatsOk(HouseOf(crypto, hostKey), seats) && BotCount(seats) > 0
      requires last == seats[LastBot(seats)] && OnlyComings(before)
      requires View() == was.(seats := seats, advert := advert, log := was.log + before)
      modifies this, sim
      ensures OnlyComings(comings) && sim == old(sim)
      ensures View()
        == was.(seats := WithoutAt(old(seats), LastBot(old(seats))), advert := advert, log := was.log + comings)
      ensures SeatsOk(HouseOf(crypto, hostKey), seats)
    {
      ghost var r, k := View(), LastBot(seats);
      ghost var e := HouseOf(crypto, hostKey);
      HostIsNoBot(e, seats);
      WithoutKeepsSeats(e, seats, k);
      RunOfOne(crypto, hostKey, r, Drop(last.id));
      OpenDrop(e, r, k, was, before);
      hide SeatsOk, WithoutAt, BotCount, Ran, RoomInv, LastBot, Dropped;
      ghost var ms := RemoveSeat(last.id);
      comings := before + [Left(last.id)];
    }

    /** `dropSeatsBeyondCapacity`. */
    method DropSeatsBeyondCapacity() returns (ghost es: seq<Event>)
      requires phase == Open && SeatsOk(HouseOf(crypto, hostKey), seats) && cfg.maxPlayers > 0
      modifies this, sim
      ensures OnlyComings(es) && sim == old(sim)
      ensures View()
        == old(View()).(seats := Shrunk(old(seats), old(cfg).maxPlayers), advert := advert, log := old(log) + es)
    {
      hide SeatsOk, BotCount, RoomInv;
      ghost var was, e := View(), HouseOf(crypto, hostKey);
      es := [];
      while |seats| > cfg.maxPlayers
        invariant SeatsOk(e, seats) && OnlyComings(es) && sim == old(sim)
        invariant View() == was.(seats := seats, advert := advert, log := was.log + es)
        invariant Shrunk(seats, cfg.maxPlayers) == Shrunk(was.seats, was.cfg.maxPlayers)
        decreases |seats|
      {
        if seats[|seats|-1].player.host {
          break;
        }
        es := DropLast(es, was);
      }
    }

    /** The highest seat goes, told why if it is somebody's. */
    method DropLast(ghost before: seq<Event>, ghost was: Room) returns (ghost es: seq<Event>)
      requires phase == Open && SeatsOk(HouseOf(crypto, hostKey), seats)
      requires |seats| > 0 && !seats[|seats|-1].player.host && OnlyComings(before)
      requires View() == was.(seats := seats, advert := advert, log := was.log + before)
      modifies this, sim
      ensures OnlyComings(es) && sim == old(sim) && phase == Open && SeatsOk(HouseOf(crypto, hostKey), seats)
      ensures View() == was.(seats := old(seats)[..|old(seats)|-1], advert := advert, log := was.log + es)
    {
      hide SeatsOk, WithoutAt, BotCount, Ran, RoomInv, Dropped;
      ghost var r, k, e := View(), |seats| - 1, HouseOf(crypto, hostKey);
      var victim := seats[|seats|-1];
      OnlySeatZeroIsHost(e, seats, k);
      WithoutKeepsSeats(e, seats, k);
      WithoutLast(seats);
      OpenDrop(e, r, k, was, before);
      RunOfOne(crypto, hostKey, r, Drop(victim.id));
      NothingRan(crypto, hostKey, r);
      RunOfOne(crypto, hostKey, Dropped(r, victim.id), Drop(victim.id));
      if !victim.Local() {
        ghost var sent := SendTo(victim, false);
      }
      ghost var ms := RemoveSeat(victim.id);
      es := before + [Left(victim.id)];
    }

    /** `Reconfigure`. */
    method Reconfigure(newName: string, newCfg: Config, now: int) returns (ghost ms: seq<Move>)
      requires Valid()
      modifies this, sim
      ensures Valid() && (sim == null || sim == old(sim))
      ensures LegalRun(crypto, hostKey, old(View()), ms) && View() == Ran(crypto, old(View()), ms)
      ensures if (old(phase) == Open || old(phase) == Countdown) && newCfg.Valid()
        then |ms| > 0 && ms[0].Reconfigure? && OnlyDrops(ms[1..])
             && ms[0].name == newName && ms[0].cfg == newCfg && ms[0].now == now
        else OnlyDrops(ms)
    {
      ghost var was := View();
      hide RoomInv, Ran, LegalRun, Resettled, Clamped, BotCount, Unready;
      if (phase != Open && phase != Countdown) || !newCfg.Valid() {
        ms := BroadcastLobby();
        DropsAreLegal(crypto, hostKey, was, ms);
        return;
      }
      ghost var comings := ApplySettings(newName, newCfg, now);
      ghost var m := Move.Reconfigure(newName, newCfg, now, comings);
      MoveKeeps(crypto, hostKey, was, m);
      ghost var drops := BroadcastLobby();
      MoveThenDrops(crypto, hostKey, was, m, drops);
      ms := [m] + drops;
      assert ms[1..] == drops;
    }

    /** Seats already taken by people put a floor under the seat count. */
    method ClampSettings(newCfg: Config) returns (applied: Config)
      ensures applied == Clamped(newCfg, People(seats))
    {
      var bots := CountBots(seats);
      var humans := |seats| - bots;
      applied := newCfg;
      if applied.maxPlayers < humans {
        applied := applied.(maxPlayers := humans);
      }
      if applied.bots > applied.maxPlayers - 1 {
        applied := applied.(bots := applied.maxPlayers - 1);
      }
    }

    /** New settings, which nobody has agreed to yet. */
    method TakeSettings(newName: string, applied: Config)
      modifies this`cfg, this`gen, this`log, this`name, this`phase, this`seats, this`lastCount
      ensures View() == SettingsTaken(old(View()), newName, applied)
    {
      hide Unready, BotCount, AdvertOf;
      SetSettings(newName, applied);
      ClearReady();
      assert log == old(log) + [Settings(old(gen) + 1, applied), Cleared];
    }

    method SetSettings(newName: string, applied: Config)
      modifies this`cfg, this`gen, this`log, this`name, this`phase
      ensures cfg == applied && gen == old(gen) + 1 && phase == Open
      ensures log == old(log) + [Settings(old(gen) + 1, applied)]
      ensures name == Names.Renamed(old(name), newName)
    {
      cfg := applied;
      gen := gen + 1;
      log := log + [Settings(gen, applied)];
      var shown := Names.DisplayName(newName);
      if shown != "" {
        name := shown;
      }
      phase := Open;
    }

    /** Bots to order, then whoever no longer fits. */
    method SettleSeats(now: int) returns (ghost es: seq<Event>)
      requires phase == Open && SeatsOk(HouseOf(crypto, hostKey), seats) && cfg.Valid()
      modifies this, sim
      ensures OnlyComings(es) && sim == old(sim)
      ensures View()
        == old(View()).(seats := Resettled(old(seats), old(cfg), now), advert := advert, log := old(log) + es)
    {
      BotsSynced(HouseOf(crypto, hostKey), seats, cfg, now);
      hide SeatsOk, MoreBots, FewerBots, Shrunk, BotsWanted, OnlyComings, BotCount;
      ghost var first := SyncBots(now);
      ghost var more := DropSeatsBeyondCapacity();
      es := first + more;
      ComingsJoined(old(log), first, more);
    }

    /** The settings, and what they do to the seats. */
    method ApplySettings(newName: string, newCfg: Config, now: int) returns (ghost comings: seq<Event>)
      requires Valid() && newCfg.Valid()
      modifies this, sim
      ensures OnlyComings(comings) && sim == old(sim)
      ensures View() == Reconfigured(old(View()), newName, newCfg, now, comings)
    {
      ghost var was := View();
      SettingsSeats(crypto, hostKey, was, newCfg);
      hide RoomInv, SeatsOk, Resettled, Clamped, Unready, OnlyComings, BotCount, SettingsTaken, Reconfigured, Refreshed;
      var applied := ClampSettings(newCfg);
      TakeSettings(newName, applied);
      TakenFields(was, newName, applied);
      ghost var taken := View();
      comings := SettleSeats(now);
      SettingsApplied(was, newName, newCfg, now, comings, taken, View());
      RefreshAdvert();
    }

    /** One bot more, the n-th. */
    method SeatBot(n: nat, now: int, ghost before: seq<Event>) returns (ghost comings: seq<Event>)
      requires phase == Open && SeatsOk(HouseOf(crypto, hostKey), seats)
      requires n == BotCount(seats) && |seats| < cfg.maxPlayers <= MAX_PLAYERS && OnlyComings(before)
      modifies this`seats, this`log
      ensures seats == Admit(old(seats), NewBot(old(seats), now)) && SeatsOk(HouseOf(crypto, hostKey), seats)
      ensures exists e :: comings == before + [e] && log == old(log) + [e]
      ensures OnlyComings(comings)
    {
      ghost var e := HouseOf(crypto, hostKey);
      NewBotFits(e, seats, now);
      AdmitKeepsSeats(e, seats, NewBot(seats, now));
      hide SeatsOk, SeatOk, Clash, LowestUnused, FreeSeatId, FreePaletteId, Admit, Decimal, BotCount;
      var id := FreeSeat(seats);
      var palette := FreePalette(seats);
      var s := Seat(id, Player(id, "", "bot " + Decimal(n + 1), "", "", palette, true, false, true, true),
                    true, 0, now, false, 0, false);
      assert s == NewBot(seats, now);
      seats := Admit(seats, s);
      log := log + [Joined(id)];
      comings := before + [Joined(id)];
    }

    /** `newHost`. The error is an invalid configuration. */
    static method NewHost(crypto: Crypto, hostKey: string, hostName: string, store: Store.MatchStore, name: string,
                          cfg: Config, now: int)
        returns (h: Host?)
      requires hostKey != "" && crypto.keyOk(hostKey) && store.crypto == crypto
      ensures h == null <==> !cfg.Valid()
      ensures h != null ==> fresh(h) && h.Valid() && h.sim == null && h.store == store
      ensures h != null ==> Opened(hostKey, hostName, Names.DisplayName(name), cfg, now, h.View())
    {
      if !cfg.Valid() {
        return null;
      }
      HostAloneOk(HouseOf(crypto, hostKey), hostName, now);
      hide SeatsOk, MoreBots, FewerBots, BotsWanted, HostSeat, RoomInv, OnlyComings, BotCount;
      var shown := Names.DisplayName(name);
      var host := new Host.Empty(crypto, hostKey, hostName, store, shown, cfg, now);
      ghost var comings := host.SyncBots(now);
      assert host.View() == OpeningRoom(hostKey, hostName, shown, cfg, now, comings).(advert := host.advert);
      host.RefreshAdvert();
      assert host.View() == Refreshed(OpeningRoom(hostKey, hostName, shown, cfg, now, comings));
      OpenedKeeps(crypto, hostKey, hostName, shown, cfg, now, host.View());
      return host;
    }

    // ---- Commands from people ----

    /** `setReady`: a ready that quotes an older generation is stale and is refused. */
    method SetReady(id: PlayerID, ready: bool, quoted: int) returns (ghost ms: seq<Move>)
      requires Valid() && OfPerson(seats, id)
      modifies this, sim
      ensures Valid() && (sim == null || sim == old(sim))
      ensures LegalRun(crypto, hostKey, old(View()), ms) && View() == Ran(crypto, old(View()), ms)
      ensures |ms| > 0 && ms[0] == Ready(id, ready, quoted) && OnlyDrops(ms[1..])
      ensures forall k: nat :: Flagged(old(View()), k, id, quoted) ==>
        FlagSet(old(View()), After(crypto, old(View()), ms[0]), k, ready)
    {
      ghost var was, m := View(), Ready(id, ready, quoted);
      forall k: nat | Flagged(was, k, id, quoted)
        ensures FlagSet(was, After(crypto, was, m), k, ready)
      {
        ReadyTakesEffect(crypto, hostKey, was, k, ready);
      }
      hide RoomInv, Ran, LegalRun, OnlyDrops, SameBut, Legal, After, ReadySet, OfPerson;
      ReadyMove(crypto, hostKey, was, id, ready, quoted);
      RunOfOne(crypto, hostKey, was, m);
      ms := [m];
      var tell := MarkReady(id, ready, quoted);
      NoDrops();
      assert ms[1..] == [];
      if tell {
        ghost var drops := BroadcastLobby();
        MoveThenDrops(crypto, hostKey, was, m, drops);
        ms := [m] + drops;
        assert ms[1..] == drops;
      }
    }

    /** The flag itself, and whether everybody is told; a stale ready is answered with the present state. */
    method MarkReady(id: PlayerID, ready: bool, quoted: int) returns (tell: bool)
      modifies this`seats, this`log
      ensures View() == ReadySet(old(View()), id, ready, quoted)
    {
      var k := FindSeat(seats, id);
      if k < 0 {
        return false;
      }
      var s := seats[k];
      if quoted != gen {
        return true;
      }
      if s.player.ready == ready || (phase != Open && phase != Countdown) {
        return false;
      }
      seats := seats[k := s.(player := s.player.(ready := ready))];
      log := log + [if ready then Readied(id, s.player.pubKey, quoted) else Unreadied(id)];
      return true;
    }

    /** The host is always looking at the current settings. */
    method SetHostReady(ready: bool) returns (ghost ms: seq<Move>)
      requires Valid()
      modifies this, sim
      ensures Valid() && (sim == null || sim == old(sim))
      ensures LegalRun(crypto, hostKey, old(View()), ms) && View() == Ran(crypto, old(View()), ms)
      ensures |ms| > 0 && ms[0] == Ready(0, ready, old(gen)) && OnlyDrops(ms[1..])
    {
      SeatZeroIsPerson(crypto, hostKey, View());
      ms := SetReady(0, ready, gen);
    }

    /** `queueInput`: the latest input in a tick counts. */
    method QueueInput(id: PlayerID, dir: Direction, clientTick: int)
      requires Valid() && NoBotPlays(View(), id)
      modifies this`pending
      ensures Valid() && View() == After(crypto, old(View()), Queue(id, dir, clientTick))
    {
      hide RoomInv, After, Legal, NoBotPlays;
      QueueMove(crypto, hostKey, View(), id, dir, clientTick);
      if phase != InGame {
        return;
      }
      pending := pending[id := Pending(dir, clientTick)];
    }

    /** `Input`, for the local player. */
    method HostInput(dir: Direction)
      requires Valid()
      modifies this`pending
      ensures Valid() && View() == After(crypto, old(View()), Queue(0, dir, 0))
    {
      SeatZeroIsPerson(crypto, hostKey, View());
      QueueInput(0, dir, 0);
    }

    /** `Kick`. The host cannot kick itself. */
    method Kick(target: PlayerID) returns (ghost ms: seq<Move>)
      requires Valid()
      modifies this, sim
      ensures Valid() && (sim == null || sim == old(sim))
      ensures OnlyDrops(ms) && View() == Ran(crypto, old(View()), ms)
      ensures if target != 0 && SeatIndex(old(seats), target) >= 0
        then |ms| > 0 && ms[0] == Drop(target) && SeatIndex(seats, target) < 0 else ms == []
    {
      ghost var was := View();
      hide RoomInv, Ran, OnlyDrops;
      ms := [];
      NothingRan(crypto, hostKey, was);
      NoDrops();
      if target == 0 {
        return;
      }
      var k := FindSeat(seats, target);
      if k < 0 {
        return;
      }
      ms := SendTo(seats[k], false);
      ghost var gone := RemoveSeat(target);
      ghost var mid := View();
      ghost var drops := BroadcastLobby();
      ThreeRuns(crypto, hostKey, was, ms, gone, drops);
      DroppedIsGone(crypto, hostKey, Ran(crypto, was, ms), gone, target);
      StillGone(crypto, Ran(crypto, Ran(crypto, was, ms), gone), drops, target);
      assert (ms + gone + drops)[0] == Drop(target);
      ms := ms + gone + drops;
    }

    /** A connection that ended gives its seat up, if it still holds it. */
    method Disconnect(id: PlayerID, conn: nat) returns (ghost ms: seq<Move>)
      requires Valid() && conn > 0
      modifies this, sim
      ensures Valid() && (sim == null || sim == old(sim))
      ensures OnlyDrops(ms) && View() == Ran(crypto, old(View()), ms)
      ensures if SeatIndex(old(seats), id) >= 0 && old(seats)[SeatIndex(old(seats), id)].conn == conn
        then |ms| > 0 && ms[0] == Drop(id) else ms == []
    {
      ghost var was := View();
      hide RoomInv, Ran, OnlyDrops;
      NothingRan(crypto, hostKey, was);
      NoDrops();
      ms := [];
      var k := FindSeat(seats, id);
      if k < 0 || seats[k].conn != conn {
        return;
      }
      ms := RemoveSeat(id);
      ghost var drops := BroadcastLobby();
      TwoRuns(crypto, hostKey, was, ms, drops);
      ms := ms + drops;
    }

    /** `allocate`. */
    method Allocate(who: Joiner, now: int) returns (answer: Refusal, ghost ms: seq<Move>)
      requires Valid() && who.conn > 0
      modifies this, sim
      ensures Valid() && (sim == null || sim == old(sim))
      ensures answer == Admission(HouseOf(crypto, hostKey), old(View()), who)
      ensures LegalRun(crypto, hostKey, old(View()), ms) && View() == Ran(crypto, old(View()), ms)
      ensures if answer == Granted then |ms| > 0 && ms[0] == Join(who, now) && OnlyDrops(ms[1..]) else ms == []
    {
      ghost var was, m := View(), Join(who, now);
      hide RoomInv, Ran, LegalRun, OnlyDrops, SameBut, Legal, After, Seated;
      NothingRan(crypto, hostKey, was);
      ms := [];
      if phase == Closed {
        return LobbyGone, [];
      } else if phase == InGame || phase == Countdown {
        return InProgress, [];
      } else if |seats| >= cfg.maxPlayers {
        return LobbyFull, [];
      }
      if who.key == "" {
        return NoKey, [];
      }
      if !crypto.keyOk(who.key) {
        return BadKey, [];
      }
      for i := 0 to |seats|
        invariant forall s :: s in seats[..i] ==> s.player.pubKey != who.key
      {
        if seats[i].player.pubKey == who.key {
          assert seats[i] in seats;
          return AlreadySeated, [];
        }
        assert seats[..i + 1] == seats[..i] + [seats[i]];
      }
      assert seats[..|seats|] == seats;
      answer := Granted;
      JoinMove(crypto, hostKey, was, who, now);
      var s := TakeFreeSeat(who, now);
      ghost var sent := SendTo(s, false);
      ghost var drops := BroadcastLobby();
      MoveThenTwoDrops(crypto, hostKey, was, m, sent, drops);
      ms := [m] + (sent + drops);
      assert ms[1..] == sent + drops;
    }

    method TakeFreeSeat(who: Joiner, now: int) returns (s: Seat)
      modifies this`seats, this`log, this`advert
      ensures View() == Seated(old(View()), who, now)
    {
      var id := FreeSeat(seats);
      var palette := FreePalette(seats);
      s := Seat(id, Player(id, who.key, Names.DisplayName(who.displayName), who.login, who.node, palette,
                           false, false, true, false),
                false, who.conn, now, false, 0, false);
      assert s == NewSeat(seats, who, now);
      seats := Admit(seats, s);
      log := log + [Joined(id)];
      RefreshAdvert();
    }

    /** `shutdown`. */
    method Shutdown() returns (ghost ms: seq<Move>)
      requires Valid()
      modifies this, sim
      ensures Valid() && (sim == null || sim == old(sim)) && phase == Closed
      ensures LegalRun(crypto, hostKey, old(View()), ms) && View() == Ran(crypto, old(View()), ms)
      ensures |ms| > 0 && ms[0] == Shut && OnlyDrops(ms[1..])
    {
      ghost var was := View();
      hide RoomInv, Ran, LegalRun, OnlyDrops, SameBut, Legal, After;
      ShutMove(crypto, hostKey, was);
      phase := Closed;
      RefreshAdvert();
      ghost var drops := SendToAll();
      MoveThenDrops(crypto, hostKey, was, Shut, drops);
      ms := [Shut] + drops;
      assert ms[1..] == drops;
    }

    // ---- Clients heard from ----

    /** `handleClient`: one message from the connection that holds a seat. */
    method HandleClient(id: PlayerID, conn: nat, msg: Message, now: int)
        returns (ghost ms: seq<Move>, ghost first: seq<Move>, ghost last: seq<Move>)
      requires Valid() && conn > 0
      modifies this, sim
      ensures Valid() && (sim == null || sim == old(sim))
      ensures LegalRun(crypto, hostKey, old(View()), ms) && View() == Ran(crypto, old(View()), ms)
      ensures OnlyDrops(first) && OnlyDrops(last)
      ensures var k := SeatIndex(old(seats), id);
        if k < 0 || old(seats)[k].conn != conn then ms == []
        else
          && (!old(seats)[k].coasting ==> first == [])
          && ms == [Hear(id, now)] + first + (Asked(msg, id, old(seats)[k].player.pubKey) + last)
          && (msg.ReadyMsg? ==> Ready(id, msg.ready, msg.gen) in ms)
          && (msg.InputMsg? ==> Queue(id, msg.dir, msg.tick) in ms)
          && (msg.AttestMsg? ==> Attest(id, old(seats)[k].player.pubKey, msg.matchId, msg.sig) in ms)
          && (msg.LeaveMsg? ==> SeatIndex(seats, id) < 0)
    {
      ghost var was := View();
      NothingRan(crypto, hostKey, was);
      NoDrops();
      hide RoomInv, Ran, LegalRun, OnlyDrops, SameBut, Legal, After, Heard;
      ms, first, last := [], [], [];
      var k := FindSeat(seats, id);
      if k < 0 || seats[k].conn != conn {
        return;
      }
      var s := seats[k];
      ConnectedIsPerson(crypto, hostKey, was, k);
      RemoteIsNotHost(crypto, hostKey, was, seats[k]);
      HearMove(crypto, hostKey, was, id, now);
      HeardPerson(was, id, now);
      NoteHeard(k, now);
      if s.coasting {
        first := BroadcastLobby();
      }
      NothingRan(crypto, hostKey, Heard(was, id, now));
      MoveThenDrops(crypto, hostKey, was, Hear(id, now), first);
      PersonKept(crypto, Heard(was, id, now), first, id);
      ghost var mid := View();
      ghost var asked: seq<Move>;
      asked, last := Answer(id, s.player.pubKey, msg);
      ms := [Hear(id, now)] + first + (asked + last);
      RanOn(crypto, hostKey, was, [Hear(id, now)] + first, asked + last);
    }

    method NoteHeard(k: nat, now: int)
      requires k < |seats| && SeatIndex(seats, seats[k].id) == k
      modifies this`seats, sim
      ensures View() == Heard(old(View()), old(seats)[k].id, now)
    {
      var s := seats[k].(lastSeen := now);
      if s.coasting {
        s := s.(coasting := false, player := s.player.(connected := true));
        if sim != null {
          sim.SetCoasting(s.id, false);
        }
      }
      seats := seats[k := s];
    }

    method Answer(id: PlayerID, seatKey: string, msg: Message) returns (ghost asked: seq<Move>, ghost last: seq<Move>)
      requires Valid() && OfPerson(seats, id) && NoBotPlays(View(), id)
      modifies this, sim
      ensures Valid() && (sim == null || sim == old(sim))
      ensures asked == Asked(msg, id, seatKey) && OnlyDrops(last)
      ensures msg.LeaveMsg? && id != 0 ==> SeatIndex(seats, id) < 0
      ensures LegalRun(crypto, hostKey, old(View()), asked + last) && View() == Ran(crypto, old(View()), asked + last)
    {
      hide RoomInv, Ran, LegalRun, OnlyDrops, OfPerson, After, Legal, AttestedBy, NoBotPlays;
      ghost var was := View();
      NothingRan(crypto, hostKey, was);
      NoDrops();
      asked, last := Asked(msg, id, seatKey), [];
      match msg
      case ReadyMsg(ready, quoted) =>
        ghost var ms := SetReady(id, ready, quoted);
        last := ms[1..];
        assert asked + last == ms;
      case InputMsg(dir, clientTick) =>
        QueueInput(id, dir, clientTick);
        QueueMove(crypto, hostKey, was, id, dir, clientTick);
        RunOfOne(crypto, hostKey, was, Queue(id, dir, clientTick));
        assert asked + last == asked;
      case AttestMsg(forMatch, s) =>
        AddAttestation(id, seatKey, forMatch, s);
        AttestMove(crypto, hostKey, was, id, seatKey, forMatch, s);
        RunOfOne(crypto, hostKey, was, Attest(id, seatKey, forMatch, s));
        assert asked + last == asked;
      case LeaveMsg =>
        last := Leave(id);
      case OtherMsg =>
        assert asked + last == [];
    }

    method Leave(id: PlayerID) returns (ghost last: seq<Move>)
      requires Valid()
      modifies this, sim
      ensures Valid() && (sim == null || sim == old(sim)) && OnlyDrops(last)
      ensures LegalRun(crypto, hostKey, old(View()), [Drop(id)] + last)
      ensures View() == Ran(crypto, old(View()), [Drop(id)] + last)
      ensures id != 0 ==> SeatIndex(seats, id) < 0
    {
      ghost var was := View();
      hide RoomInv, Ran, LegalRun, OnlyDrops;
      ghost var gone := RemoveSeat(id);
      ghost var drops := BroadcastLobby();
      TwoRuns(crypto, hostKey, was, gone, drops);
      DropsAreLegal(crypto, hostKey, was, gone + drops);
      LaterDrops(gone + drops);
      if id != 0 {
        DroppedIsGone(crypto, hostKey, was, gone + drops, id);
      }
      last := (gone + drops)[1..];
      assert [Drop(id)] + last == gone + drops;
    }

    /** `addAttestation`. */
    method AddAttestation(id: PlayerID, seatKey: string, forMatch: string, s: Signature)
      requires Valid()
      modifies this`record, this`seats
      ensures View() == AttestedBy(crypto, old(View()), id, seatKey, forMatch, s)
      ensures Valid()
    {
      hide RoomInv, Accepts, Signed, SignedSet;
      AttestKeeps(crypto, hostKey, View(), id, seatKey, forMatch, s);
      if record.None? || forMatch != record.value.result.matchId {
        return;
      }
      if s.pubKey != seatKey {
        return;
      }
      var rec, ok := AddSignature(crypto, record.value, s);
      if !ok {
        return;
      }
      record := Some(rec);
      MarkSigned(id, true);
    }

    method MarkSigned(id: PlayerID, signed: bool)
      modifies this`seats
      ensures View() == SignedSet(old(View()), id, signed)
    {
      var k := FindSeat(seats, id);
      if k >= 0 {
        seats := seats[k := seats[k].(signed := signed)];
      }
    }

    // ---- Clients not heard from ----

    /** `checkLiveness`, seat by seat over a copy of the list: what becomes of each, and who is
        dropped for it not reaching them. */
    method CheckLiveness(now: int) returns (ghost ms: seq<Move>, ghost chunks: seq<seq<Move>>)
      requires Valid()
      modifies this, sim
      ensures Valid() && (sim == null || sim == old(sim))
      ensures LegalRun(crypto, hostKey, old(View()), ms) && View() == Ran(crypto, old(View()), ms)
      ensures old(phase) != Countdown ==> phase == old(phase)
      ensures phase == old(phase) || phase == Open
      ensures |chunks| == |old(seats)| && ms == Flat(chunks)
      ensures forall i :: 0 <= i < |chunks| ==> Heeds(old(seats)[i], now, chunks[i])
    {
      ghost var was := View();
      NothingRan(crypto, hostKey, was);
      hide RoomInv, Ran, LegalRun, OnlyDrops, Heeds, Remote;
      var snapshot := seats;
      forall s | s in snapshot && !s.Local()
        ensures Remote(View(), s.id)
      {
        RemoteSeat(crypto, hostKey, was, s);
      }
      ms, chunks := [], [];
      for i := 0 to |snapshot|
        invariant Valid() && (sim == null || sim == old(sim))
        invariant LegalRun(crypto, hostKey, was, ms) && View() == Ran(crypto, was, ms)
        invariant was.phase != Countdown ==> phase == was.phase
        invariant phase == was.phase || phase == Open
        invariant |chunks| == i && ms == Flat(chunks)
        invariant forall j :: 0 <= j < i ==> Heeds(snapshot[j], now, chunks[j])
        invariant forall s :: s in snapshot && !s.Local() ==> Remote(View(), s.id)
      {
        assert snapshot[i] in was.seats;
        RemoteIsNotHost(crypto, hostKey, was, snapshot[i]);
        ghost var mid := View();
        ghost var chunk := Heed(snapshot[i], now);
        forall s | s in snapshot && !s.Local()
          ensures Remote(View(), s.id)
        {
          HeedingKeepsRemote(crypto, hostKey, mid, snapshot[i], now, chunk, s.id);
        }
        RanOn(crypto, hostKey, was, ms, chunk);
        FlatMore(chunks, chunk);
        ms, chunks := ms + chunk, chunks + [chunk];
      }
    }

    method Heed(s: Seat, now: int) returns (ghost ms: seq<Move>)
      requires Valid() && (!s.Local() ==> s.id != 0 && Remote(View(), s.id))
      modifies this, sim
      ensures Valid() && (sim == null || sim == old(sim))
      ensures LegalRun(crypto, hostKey, old(View()), ms) && View() == Ran(crypto, old(View()), ms)
      ensures old(phase) != Countdown ==> phase == old(phase)
      ensures phase == old(phase) || phase == Open
      ensures Heeds(s, now, ms)
    {
      ghost var was := View();
      NothingRan(crypto, hostKey, was);
      ms := [];
      if s.Local() {
        return;
      }
      hide RoomInv, Ran, LegalRun, OnlyDrops, SameBut, Legal, After, Heeds, Quieted;
      var silence := now - s.lastSeen;
      if silence >= DROP_AFTER {
        ms := TimeOut(s.id);
        HeedsDrop(s, now, ms);
      } else if silence >= COAST_AFTER && !s.coasting {
        ms := GoQuiet(s, now);
      } else {
        HeedsNone(s, now);
      }
    }

    method GoQuiet(s: Seat, now: int) returns (ghost ms: seq<Move>)
      requires Valid() && !s.Local() && COAST_AFTER <= now - s.lastSeen < DROP_AFTER && !s.coasting
      requires Remote(View(), s.id)
      modifies this, sim
      ensures Valid() && (sim == null || sim == old(sim))
      ensures LegalRun(crypto, hostKey, old(View()), ms) && View() == Ran(crypto, old(View()), ms)
      ensures old(phase) != Countdown ==> phase == old(phase)
      ensures phase == old(phase) || phase == Open
      ensures Heeds(s, now, ms)
    {
      hide RoomInv, Ran, LegalRun, OnlyDrops, SameBut, Legal, After, Heeds, Quieted;
      ghost var was := View();
      QuietMove(crypto, hostKey, was, s.id);
      MarkQuiet(s.id);
      ghost var drops := BroadcastLobby();
      MoveThenDrops(crypto, hostKey, was, Quiet(s.id), drops);
      DropsFrame(crypto, Quieted(was, s.id), drops);
      QuietedPhase(was, s.id);
      ms := [Quiet(s.id)] + drops;
      HeedsQuiet(s, now, ms, drops);
    }

    /** A client gone for good: its snake is eliminated and its seat taken away. */
    method TimeOut(id: PlayerID) returns (ghost ms: seq<Move>)
      requires Valid() && id != 0
      modifies this, sim
      ensures Valid() && (sim == null || sim == old(sim))
      ensures LegalRun(crypto, hostKey, old(View()), ms) && View() == Ran(crypto, old(View()), ms)
      ensures old(phase) != Countdown ==> phase == old(phase)
      ensures phase == old(phase) || phase == Open
      ensures |ms| > 0 && ms[0] == Drop(id) && OnlyDrops(ms)
    {
      ghost var was := View();
      ForfeitKeeps(crypto, hostKey, was, id);
      ForfeitTwice(crypto, hostKey, was, id);
      hide RoomInv, Ran, LegalRun, OnlyDrops, Forfeited, Dropped;
      Forfeit(id);
      ghost var mid := View();
      ghost var gone := RemoveSeat(id);
      ghost var drops := BroadcastLobby();
      TwoRuns(crypto, hostKey, mid, gone, drops);
      ms := gone + drops;
      SameFromHere(crypto, hostKey, was, mid, ms, id);
      DropsAreLegal(crypto, hostKey, was, ms);
      DropsFrame(crypto, was, ms);
    }

    method MarkQuiet(id: PlayerID)
      modifies this`seats, sim
      ensures View() == Quieted(old(View()), id)
    {
      var k := FindSeat(seats, id);
      if k >= 0 {
        var s := seats[k];
        seats := seats[k := s.(coasting := true, player := s.player.(connected := false))];
      }
      if sim != null && phase == InGame {
        sim.SetCoasting(id, true);
      }
    }

    // ---- The countdown ----

    /** `everyoneReady`. */
    method CheckEveryoneReady() returns (ready: bool)
      ensures ready == EveryoneReady(seats)
    {
      if |seats| == 0 {
        return false;
      }
      var bots := CountBots(seats);
      if |seats| - bots == 0 {
        return false;
      }
      for i := 0 to |seats|
        invariant forall s :: s in seats[..i] ==> s.player.ready
      {
        assert seats[..i + 1] == seats[..i] + [seats[i]];
        if !seats[i].player.ready {
          assert seats[i] in seats;
          return false;
        }
      }
      assert seats[..|seats|] == seats;
      return true;
    }

    /** `beginCountdown`. The simulation is built here so the board can be shown meanwhile. */
    method BeginCountdown(newId: string, seed: int, ring: nat -> (Point, Direction), now: int)
        returns (ghost ms: seq<Move>)
      requires Valid() && phase == Open && EveryoneReady(seats) && Store.ValidMatchId(newId)
      requires forall i: nat :: ring(i).1 <= LEFT
      modifies this, sim
      ensures Valid() && (sim == null || fresh(sim)) && phase != InGame
      ensures LegalRun(crypto, hostKey, old(View()), ms) && View() == Ran(crypto, old(View()), ms)
      ensures |ms| > 0 && ms[0].Begin? && OnlyDrops(ms[1..])
      ensures ms[0].matchId == newId && ms[0].seed == seed && ms[0].now == now
    {
      ghost var was := View();
      hide RoomInv, Ran, LegalRun, OnlyDrops, SameBut, Legal, After, EveryoneReady;
      hide Store.ValidMatchId, Built, CountdownBegun;
      BuildMatch(newId, seed, ring, now);
      ghost var m := Begin(sim.View(), newId, seed, now);
      BeginMove(crypto, hostKey, was, sim.View(), newId, seed, now);
      ghost var drops := SendToAll();
      ghost var more := BroadcastLobby();
      MoveThenTwoDrops(crypto, hostKey, was, m, drops, more);
      ms := [m] + (drops + more);
      assert ms[1..] == drops + more;
    }

    /** The match that will be played, and the clock before it. */
    method BuildMatch(newId: string, seed: int, ring: nat -> (Point, Direction), now: int)
      requires Valid() && forall i: nat :: ring(i).1 <= LEFT
      modifies this
      ensures sim != null && fresh(sim) && sim.cfg == matchCfg
      ensures Built(old(cfg).(seed := seed), old(seats), sim.View())
      ensures View() == CountdownBegun(old(View()), sim.View(), newId, seed, now) && phase == Countdown
    {
      hide RoomInv, Built, PlayersOf, BotCount, AdvertOf;
      var s := NewSim(seed, ring);
      sim := s;
      matchCfg := cfg.(seed := seed);
      matchPlayers := PlayersOf(seats);
      matchId := newId;
      pending := map[];
      phase := Countdown;
      countdownEnd := now + COUNTDOWN_SECONDS * SECOND;
      lastCount := COUNTDOWN_SECONDS;
      log := log + [Began(matchCfg, matchPlayers)];
      RefreshAdvert();
    }

    /** With seats in order there is always a simulation to be had. */
    method NewSim(seed: int, ring: nat -> (Point, Direction)) returns (s: Simulation.Sim)
      requires Valid() && forall i: nat :: ring(i).1 <= LEFT
      ensures fresh(s) && s.cfg == cfg.(seed := seed) && Built(cfg.(seed := seed), seats, s.View())
    {
      ghost var was := View();
      SeatsAreFew(crypto, hostKey, was);
      hide RoomInv, Runs.Started, Sorting.NoRepeats;
      var chosen := cfg.(seed := seed);
      assert chosen.Valid();
      var ids := SeatIds(seats);
      s := Simulation.Sim.New(chosen, ids, ring);
      StartedIsSorted(chosen, s.View());
      NewIsBuilt(crypto, hostKey, was, s.View());
    }

    /** `beginPlay`. */
    method BeginPlay(now: int) returns (ghost ms: seq<Move>)
      requires Valid() && phase == Countdown && EveryoneReady(seats) && now >= countdownEnd
      modifies this, sim
      ensures Valid() && (sim == null || sim == old(sim)) && phase == InGame
      ensures LegalRun(crypto, hostKey, old(View()), ms) && View() == Ran(crypto, old(View()), ms)
      ensures |ms| > 0 && ms[0] == Play(now) && OnlyDrops(ms[1..])
    {
      ghost var was := View();
      hide RoomInv, Ran, LegalRun, OnlyDrops, SameBut, Legal, After, EveryoneReady, PlayBegun;
      PlayMove(crypto, hostKey, was, now);
      StartClock(now);
      ghost var drops := BroadcastLobby();
      MoveThenDrops(crypto, hostKey, was, Play(now), drops);
      ms := [Play(now)] + drops;
      assert ms[1..] == drops;
    }

    method StartClock(now: int)
      modifies this`startedAt, this`phase, this`lastCount, this`log, this`advert
      ensures View() == PlayBegun(old(View()), now) && phase == InGame
    {
      startedAt := now;
      phase := InGame;
      lastCount := 0;
      log := log + [Entered(matchCfg, matchPlayers)];
      RefreshAdvert();
    }

    /** The countdown is called off: somebody un-readied. */
    method CallOff() returns (ghost ms: seq<Move>)
      requires Valid() && phase == Countdown
      modifies this, sim
      ensures Valid() && sim == null && phase == Open
      ensures LegalRun(crypto, hostKey, old(View()), ms) && View() == Ran(crypto, old(View()), ms)
      ensures |ms| > 0 && ms[0] == Abort && OnlyDrops(ms[1..])
    {
      ghost var was := View();
      hide RoomInv, Ran, LegalRun, OnlyDrops, SameBut, Legal, After, Aborted;
      AbortMove(crypto, hostKey, was);
      ghost var drops := AbortCountdown();
      MoveThenDrops(crypto, hostKey, was, Abort, drops);
      ms := [Abort] + drops;
      assert ms[1..] == drops;
    }

    // ---- A tick ----

    /** Bots decide from the state as it stands at the top of the tick. */
    method SteerBots() returns (ghost inputs: seq<Input>)
      requires Valid() && phase == InGame
      modifies sim
      ensures sim != null && sim.Valid() && Inv(matchCfg, old(sim.View()))
      ensures matchCfg.wrap ==> old(sim.state.arena).Width() > 0 && old(sim.state.arena).Height() > 0
      ensures BotInputs(old(sim.state), matchCfg, BotsOf(seats), inputs)
      ensures sim.View() == SteeredBy(old(sim.View()), inputs)
    {
      hide RoomInv, Inv, BotInputs, Steer, SteeredBy, BotsOf, Chosen, BotCount, LastBot, Playing;
      MatchHasSim(crypto, hostKey, View());
      ArenaHasRoom(matchCfg, sim.View());
      ghost var was := sim.View();
      var bots := BotSeats(seats);
      var st := sim.state;
      inputs := [];
      assert sim.View() == SteeredBy(was, []) by { NotSteered(was); }
      NoBotInputs(st, matchCfg, bots);
      for i := 0 to |bots|
        invariant sim == old(sim) && sim.Valid()
        invariant BotInputs(st, matchCfg, bots[..i], inputs) && sim.View() == SteeredBy(was, inputs)
      {
        var id := bots[i].id;
        var k := FindSnake(st.snakes, id);
        var d := UP;
        if k >= 0 && st.snakes[k].alive {
          d := Choose(st, id);
          sim.SetDirection(id, d);
          SteeredByOne(was, inputs, id, d);
        }
        BotInputsMore(st, matchCfg, bots, i, inputs, d);
        if k >= 0 && st.snakes[k].alive {
          inputs := inputs + [(id, d)];
        }
      }
      assert bots[..|bots|] == bots;
    }

    method Choose(st: State, id: PlayerID) returns (d: Direction)
      requires matchCfg.wrap ==> st.arena.Width() > 0 && st.arena.Height() > 0
      ensures Chosen(st, matchCfg, id, d)
    {
      d := Bot.ChooseDirection(st, matchCfg, id);
    }

    /** People's inputs, in whatever order the map gives them. */
    method ApplyPending() returns (ghost inputs: seq<Input>)
      requires sim != null && sim.Valid() && Ascending(seats)
      modifies this`seats, this`pending, sim
      ensures sim.Valid() && PendingInputs(old(pending), inputs)
      ensures sim.View() == SteeredBy(old(sim.View()), inputs)
      ensures seats == Acked(old(seats), old(pending)) && pending == map[]
    {
      hide Inv, Steer, SteeredBy, TakenInputs, AckedBut, PendingInputs, Ascending, Acked, SeatIndex;
      ghost var was, given := sim.View(), seats;
      NoneAcked(given, pending);
      NoneTaken(pending);
      NotSteered(was);
      inputs := [];
      var left := pending.Keys;  // the map's own order is any order
      while left != {}
        invariant sim.Valid() && pending == old(pending) && left <= pending.Keys
        invariant sim.View() == SteeredBy(was, inputs)
        invariant TakenInputs(pending, left, inputs) && AckedBut(given, pending, left, seats)
        decreases |left|
      {
        var id :| id in left;
        ghost var acked := seats;
        ApplyOne(id, pending[id]);
        SteeredByOne(was, inputs, id, pending[id].dir);
        OneTaken(pending, left, inputs, id);
        OneAcked(given, pending, left, acked, id, seats);
        inputs := inputs + [(id, pending[id].dir)];
        left := left - {id};
      }
      AllTaken(pending, inputs);
      AllAcked(given, pending, seats);
      pending := map[];
    }

    method ApplyOne(id: PlayerID, p: Pending)
      requires sim != null && sim.Valid()
      modifies this`seats, sim
      ensures sim.Valid() && sim.View() == Steer(old(sim.View()), id, p.dir)
      ensures var k := SeatIndex(old(seats), id);
        seats == if k < 0 then old(seats) else old(seats)[k := old(seats)[k].(lastInput := p.tick)]
    {
      hide Inv, Steer;
      sim.SetDirection(id, p.dir);
      var k := FindSeat(seats, id);
      if k >= 0 {
        seats := seats[k := seats[k].(lastInput := p.tick)];
      }
    }

    /** Everything steered for this tick. */
    method GatherInputs() returns (ghost inputs: seq<Input>, ghost n: nat)
      requires Valid() && phase == InGame
      modifies this`seats, this`pending, sim
      ensures sim != null && sim.Valid() && matchCfg.Valid() && TickInputs(old(View()), inputs, n)
      ensures old(View()).world.Some?
      ensures View() == old(View()).(world := Some(SteeredBy(old(View()).world.value, inputs)),
        seats := Acked(old(seats), old(pending)), pending := map[])
    {
      hide RoomInv, Inv, SteeredBy, BotInputs, PendingInputs, BotsOf, SeatsOk, Ascending, Acked, TickInputs;
      ghost var was := View();
      SeatsOkOf(crypto, hostKey, was);
      ghost var bots := SteerBots();
      ghost var people := ApplyPending();
      SimHasValidConfig(matchCfg, sim.View());
      SteeredByMore(was.world.value, bots, people);
      inputs, n := bots + people, |bots|;
      TickInputsOf(was, bots, people);
    }

    /** The part of a tick that moves the simulation. */
    method Advance() returns (ghost m: Move, ghost n: nat)
      requires Valid() && phase == InGame
      modifies this`seats, this`pending, sim
      ensures Valid() && phase == InGame && sim != null
      ensures m.Step? && m.w == sim.View() && TickInputs(old(View()), m.inputs, n)
      ensures Legal(crypto, hostKey, old(View()), m) && View() == After(crypto, old(View()), m)
    {
      hide RoomInv, Inv, SteeredBy, Stepped, Acked, TickInputs, After, Legal, WorldStepped;
      ghost var was := View();
      ghost var inputs: seq<Input>;
      inputs, n := GatherInputs();
      var st := sim.Step();
      m := Step(inputs, sim.View());
      WorldSteppedIs(was, sim.View(), View());
      TickIsLegal(crypto, hostKey, was, inputs, sim.View());
      TickKeeps(crypto, hostKey, was, inputs, sim.View());
      AfterTick(crypto, was, m);
    }

    // ---- The end of a match ----

    /** `endMatch`: the lobby opens, the record is drawn up and signed, and everybody is asked to. */
    method EndMatch(now: int) returns (ghost ms: seq<Move>)
      requires Valid() && phase == InGame && sim != null && sim.state.over
      modifies this, sim
      ensures Valid() && sim == null && phase == Open && record.Some?
      ensures FiledFor(crypto, hostKey, old(View()), record.value, now)
      ensures record.value.hash == HashHex(crypto, record.value.result)
      ensures var hash := record.value.hash;
        if crypto.sigOk(hostKey, hash, crypto.sign(hash)) then Signers(record.value) == {hostKey}
        else record.value.signatures == []
      ensures LegalRun(crypto, hostKey, old(View()), ms) && View() == Ran(crypto, old(View()), ms)
      ensures |ms| > 0 && ms[0] == Over
    {
      hide RoomInv, Ran, LegalRun, FiledFor, HashHex, Signers;
      ghost var was := View();
      SimOkOf(crypto, hostKey, was);
      ghost var over := CallItOver();
      ghost var mid := View();
      ghost var rec, asked := FileRecord(now);
      SameMatchFiled(crypto, hostKey, mid, was, rec, now);
      HostSigns(crypto, hostKey, was, rec, now);
      ghost var closing := CloseMatch();
      ThreeLegalRuns(crypto, hostKey, was, over, asked, closing);
      ms := over + asked + closing;
    }

    /** The lobby is open again before anybody hears that the game is over. */
    method CallItOver() returns (ghost ms: seq<Move>)
      requires Valid() && phase == InGame && sim != null && sim.state.over
      modifies this, sim
      ensures Valid() && phase == Open && sim == old(sim)
      ensures View().world == old(View()).world && matchId == old(matchId) && matchCfg == old(matchCfg)
      ensures matchPlayers == old(matchPlayers) && name == old(name) && startedAt == old(startedAt)
      ensures LegalRun(crypto, hostKey, old(View()), ms) && View() == Ran(crypto, old(View()), ms)
      ensures |ms| > 0 && ms[0] == Over
    {
      hide RoomInv, Ran, LegalRun, OnlyDrops, SameBut, Legal, After, Reopened;
      ghost var was := View();
      OverMove(crypto, hostKey, was);
      Reopen();
      ReopenedOpen(was);
      ghost var told := SendToAll();
      MoveThenDrops(crypto, hostKey, was, Over, told);
      DropsFrame(crypto, Reopened(was), told);
      OverKeepsMatch(was, View());
      ms := [Over] + told;
    }

    /** The record of the match just over, and the requests to sign it. */
    method FileRecord(now: int) returns (ghost rec: Record, ghost ms: seq<Move>)
      requires Valid() && phase == Open && sim != null && sim.View().st.over
      modifies this, sim
      ensures Valid() && phase == Open && sim == old(sim)
      ensures FiledFor(crypto, hostKey, old(View()), rec, now) && record == Some(rec)
      ensures LegalRun(crypto, hostKey, old(View()), ms) && View() == Ran(crypto, old(View()), ms)
    {
      hide RoomInv, Ran, LegalRun, FiledFor, SignedSet, Store.Good, After, Legal;
      ghost var was := View();
      var signed := DrawUp(now);
      rec := signed;
      ghost var m := File(rec, now);
      FileMove(crypto, hostKey, was, rec, now);
      RunOfOne(crypto, hostKey, was, m);
      record := Some(signed);
      attestUntil := now + ATTEST_WINDOW;
      MarkSigned(0, true);
      SignedFrame(View(), was.(record := Some(rec), attestUntil := now + ATTEST_WINDOW), 0, true);
      ghost var asked := AskEverybody();
      RanOn(crypto, hostKey, was, [m], asked);
      ms := [m] + asked;
    }

    /** The result, its hash, and the host's own signature. */
    method DrawUp(now: int) returns (rec: Record)
      requires Valid() && sim != null
      ensures FiledFor(crypto, hostKey, View(), rec, now)
      ensures rec.hash == HashHex(crypto, rec.result)
      ensures if crypto.sigOk(hostKey, rec.hash, crypto.sign(rec.hash)) then Signers(rec) == {hostKey}
        else rec.signatures == []
    {
      SimOkOf(crypto, hostKey, View());
      var final := sim.state;
      var h := Heading(matchId, name, matchCfg, crypto.formatTime(startedAt), crypto.formatTime(now), hostKey);
      LineupReportValid(crypto, h, View());
      hide RoomInv, Report, ValidResult, HashHex, Accepts, Signed, Normalize;
      var result := BuildResult(h, matchPlayers, final);
      ReportTwice(h, matchPlayers, final);
      var plain, ok := NewAttestedRecord(crypto, result);
      assert ok;
      var s := Signature(hostKey, crypto.sign(plain.hash));
      var accepted: bool;
      rec, accepted := AddSignature(crypto, plain, s);
      assert plain == Unsigned(crypto, Report(h, matchPlayers, final));
      HostSigns(crypto, hostKey, View(), rec, now);
    }

    /** Everybody with a connection is asked to sign. */
    method AskEverybody() returns (ghost ms: seq<Move>)
      requires Valid() && phase == Open
      modifies this, sim
      ensures Valid() && phase == Open && sim == old(sim) && record == old(record)
      ensures LegalRun(crypto, hostKey, old(View()), ms) && View() == Ran(crypto, old(View()), ms)
    {
      hide RoomInv, Ran, LegalRun;
      ghost var was := View();
      NothingRan(crypto, hostKey, was);
      var snapshot := seats;
      ms := [];
      for i := 0 to |snapshot|
        invariant Valid() && phase == Open && sim == old(sim) && record == was.record
        invariant LegalRun(crypto, hostKey, was, ms) && View() == Ran(crypto, was, ms)
      {
        if !snapshot[i].Local() {
          ghost var one := Ask(snapshot[i]);
          RanOn(crypto, hostKey, was, ms, one);
          ms := ms + one;
        }
      }
    }

    method Ask(s: Seat) returns (ghost ms: seq<Move>)
      requires Valid() && phase == Open
      modifies this, sim
      ensures Valid() && phase == Open && sim == old(sim) && record == old(record)
      ensures LegalRun(crypto, hostKey, old(View()), ms) && View() == Ran(crypto, old(View()), ms)
      ensures |ms| > 0 && ms[0] == Unsign(s.id) && OnlyDrops(ms[1..])
    {
      hide RoomInv, Ran, LegalRun, OnlyDrops, SameBut, Legal, After, SignedSet;
      ghost var was, m := View(), Unsign(s.id);
      UnsignMove(crypto, hostKey, was, s.id);
      MarkSigned(s.id, false);
      SignedFrame(View(), was, s.id, false);
      ghost var drops := SendTo(s, false);
      MoveThenDrops(crypto, hostKey, was, m, drops);
      DropsFrame(crypto, SignedSet(was, s.id, false), drops);
      OpenFrame(SignedSet(was, s.id, false), View());
      ms := [m] + drops;
      assert ms[1..] == drops;
    }

    /** The simulation is done with. */
    method CloseMatch() returns (ghost ms: seq<Move>)
      requires Valid() && phase == Open
      modifies this, sim
      ensures Valid() && phase == Open && sim == null && record == old(record)
      ensures LegalRun(crypto, hostKey, old(View()), ms) && View() == Ran(crypto, old(View()), ms)
    {
      hide RoomInv, Ran, LegalRun, OnlyDrops, SameBut, Legal, After;
      ghost var was := View();
      ForgetMove(crypto, hostKey, was);
      sim := null;
      ghost var drops := BroadcastLobby();
      MoveThenDrops(crypto, hostKey, was, Forget, drops);
      DropsFrame(crypto, was.(world := None), drops);
      OpenFrame(was.(world := None), View());
      ms := [Forget] + drops;
    }

    // ---- Housekeeping ----

    method CheckAllSigned() returns (all: bool)
      ensures all == AllSigned(seats)
    {
      for i := 0 to |seats|
        invariant forall s :: s in seats[..i] && !s.bot ==> s.signed
      {
        assert seats[..i + 1] == seats[..i] + [seats[i]];
        if !seats[i].bot && !seats[i].signed {
          assert seats[i] in seats;
          return false;
        }
      }
      assert seats[..|seats|] == seats;
      return true;
    }

    /** `finalizeRecord`: the record goes to the store with whatever signatures it has, and the
        lobby is reset, whatever it was doing. */
    method FinalizeRecord(now: int) returns (ghost ms: seq<Move>)
      requires Valid() && record.Some? && Due(View(), now)
      modifies this, sim, store
      ensures Valid() && phase == Open && record.None? && (sim == null || sim == old(sim))
      ensures store.recs == Store.PutInto(crypto, old(store.recs), old(record).value).0
      ensures Store.Good(crypto, old(record).value)
      ensures LegalRun(crypto, hostKey, old(View()), ms) && View() == Ran(crypto, old(View()), ms)
      ensures |ms| > 0 && ms[0].Close? && ms[0].now == now && OnlyDrops(ms[1..])
    {
      hide RoomInv, Ran, LegalRun, OnlyDrops, SameBut, Legal, After, RecordClosed, Due, Store.Good, Store.PutInto;
      ghost var was := View();
      ghost var lost := StoreRecord(now);
      ResetAfterMatch();
      ClosedOpen(was, lost, View());
      CloseMove(crypto, hostKey, was, now, lost);
      ghost var drops := BroadcastLobby();
      MoveThenDrops(crypto, hostKey, was, Close(now, lost), drops);
      DropsFrame(crypto, RecordClosed(was, lost), drops);
      OpenFrame(RecordClosed(was, lost), View());
      ms := [Close(now, lost)] + drops;
      assert ms[1..] == drops;
    }

    /** The record is taken to the store and shared; some may be lost on being sent it. */
    method StoreRecord(now: int) returns (ghost lost: seq<PlayerID>)
      requires Valid() && record.Some?
      modifies this, sim, store
      ensures Valid() && record.None? && (sim == null || sim == old(sim))
      ensures store.recs == Store.PutInto(crypto, old(store.recs), old(record).value).0
      ensures Store.Good(crypto, old(record).value)
      ensures View() == Lost(old(View()).(record := None), lost)
    {
      hide RoomInv, Ran, LegalRun, OnlyDrops, SameBut, Lost, Store.Good, Store.PutInto;
      ghost var was := View();
      RecordOfInv(crypto, hostKey, was);
      RecordKeeps(crypto, hostKey, was, None, was.attestUntil);
      var rec := record.value;
      record := None;
      var outcome := store.Put(rec);
      ghost var told := SendToAll();
      DropsAreLosses(crypto, was.(record := None), told);
      DropsFrame(crypto, was.(record := None), told);
      RecordFrame(was.(record := None), View());
      lost := Droppings(told);
    }

    /** `resetAfterMatch`, up to telling everybody. */
    method ResetAfterMatch()
      requires Valid()
      modifies this`phase, this`seats, this`lastCount, this`log, this`advert
      ensures View() == Reopened(old(View())) && Valid()
    {
      hide RoomInv, Reopened;
      ReopenKeeps(crypto, hostKey, View());
      Reopen();
    }

    /** The lobby's next step by the clock. */
    method StepLobby(now: int, newId: string, seed: int, ring: nat -> (Point, Direction)) returns (ghost ms: seq<Move>)
      requires Valid() && Store.ValidMatchId(newId) && forall i: nat :: ring(i).1 <= LEFT
      modifies this, sim
      ensures Valid() && (sim == null || sim == old(sim) || fresh(sim))
      ensures LegalRun(crypto, hostKey, old(View()), ms) && View() == Ran(crypto, old(View()), ms)
      ensures NextStep(old(View()), now, ms)
      ensures old(phase) == InGame ==> phase == InGame
      ensures phase == InGame && old(phase) != InGame ==>
        old(phase) == Countdown && now >= old(countdownEnd) && EveryoneReady(old(seats))
      ensures old(phase) == Countdown && (exists s :: s in old(seats) && !s.player.ready) ==> |ms| > 0 && ms[0] == Abort
    {
      SomebodyUnready(seats);
      hide RoomInv, Ran, LegalRun, OnlyDrops, EveryoneReady, Store.ValidMatchId;
      ghost var was := View();
      NothingRan(crypto, hostKey, was);
      ms := [];
      match phase
      case Open =>
        var ready := CheckEveryoneReady();
        if ready {
          ms := BeginCountdown(newId, seed, ring, now);
        }
      case Countdown =>
        var ready := CheckEveryoneReady();
        if !ready {
          ms := CallOff();
        } else {
          var remaining := Remaining(countdownEnd, now);
          if remaining <= 0 {
            RemainingMeans(countdownEnd, now);
            ms := BeginPlay(now);
          } else if remaining != lastCount {
            ms := CountTo(remaining);
          }
        }
      case _ =>
    }

    method CountTo(n: int) returns (ghost ms: seq<Move>)
      requires Valid() && phase == Countdown
      modifies this, sim
      ensures Valid() && (sim == null || sim == old(sim)) && phase != InGame
      ensures LegalRun(crypto, hostKey, old(View()), ms) && View() == Ran(crypto, old(View()), ms)
      ensures |ms| > 0 && ms[0] == Count(n) && OnlyDrops(ms[1..])
    {
      hide RoomInv, Ran, LegalRun, OnlyDrops, SameBut, Legal, After;
      ghost var was := View();
      CountMove(crypto, hostKey, was, n);
      lastCount := n;
      ghost var drops := BroadcastLobby();
      MoveThenDrops(crypto, hostKey, was, Count(n), drops);
      ms := [Count(n)] + drops;
      assert ms[1..] == drops;
    }

    /** `housekeeping`: the silent, the clock, then a record whose time has come. A match in
        progress is left alone unless such a record is pending, and always ends if one is. */
    method Housekeeping(now: int, newId: string, seed: int, ring: nat -> (Point, Direction))
        returns (ghost ms: seq<Move>, ghost swept: Room, ghost stepped: Room)
      requires Valid() && Store.ValidMatchId(newId) && forall i: nat :: ring(i).1 <= LEFT
      modifies this, sim, store
      ensures Valid() && (sim == null || sim == old(sim) || fresh(sim))
      ensures LegalRun(crypto, hostKey, old(View()), ms) && View() == Ran(crypto, old(View()), ms)
      ensures exists chunks :: Swept(crypto, old(View()), now, chunks, swept)
      ensures exists step :: stepped == Ran(crypto, swept, step) && NextStep(swept, now, step)
      ensures Due(stepped, now) ==> phase == Open && record.None?
      ensures Due(stepped, now) ==> store.recs == Store.PutInto(crypto, old(store.recs), stepped.record.value).0
      ensures !Due(stepped, now) ==> View() == stepped && store.recs == old(store.recs)
      ensures old(phase) == InGame ==> stepped.phase == InGame && (phase == InGame <==> !Due(stepped, now))
      ensures phase == InGame && old(phase) != InGame ==> old(phase) == Countdown && EveryoneReady(swept.seats)
    {
      hide RoomInv, Ran, LegalRun, OnlyDrops, EveryoneReady, Store.ValidMatchId, NextStep, Heeds;
      hide Store.PutInto, AllSigned;
      ghost var was := View();
      ghost var quiet, chunks := CheckLiveness(now);
      swept := View();
      assert Swept(crypto, was, now, chunks, swept);
      ghost var step := StepLobby(now, newId, seed, ring);
      stepped := View();
      RanOn(crypto, hostKey, was, quiet, step);
      ms := quiet + step;
      if record.Some? {
        var signed := CheckAllSigned();
        if signed || now > attestUntil {
          ghost var closing := FinalizeRecord(now);
          RanOn(crypto, hostKey, was, quiet + step, closing);
          ms := quiet + step + closing;
        }
      }
    }

    /** `tick`. */
    method Tick(now: int) returns (ghost ms: seq<Move>, ghost n: nat)
      requires Valid() && phase == InGame
      modifies this, sim
      ensures Valid() && (sim == null || sim == old(sim))
      ensures LegalRun(crypto, hostKey, old(View()), ms) && View() == Ran(crypto, old(View()), ms)
      ensures |ms| > 0 && ms[0].Step? && TickInputs(old(View()), ms[0].inputs, n)
      ensures if ms[0].w.st.over
        then phase == Open && sim == null && |ms| > 1 && ms[1] == Over && record.Some?
             && FiledFor(crypto, hostKey, old(View()).(world := Some(ms[0].w)), record.value, now)
        else ms == [ms[0]] && phase == InGame
    {
      ghost var was := View();
      hide RoomInv, Ran, LegalRun, Legal, TickInputs, FiledFor, After, SteeredBy, Acked, WorldStepped;
      ghost var m: Move;
      m, n := Advance();
      RunOfOne(crypto, hostKey, was, m);
      ms := [m];
      if sim.state.over {
        ghost var mid := View();
        ghost var ending := EndMatch(now);
        RanOn(crypto, hostKey, was, [m], ending);
        ms := [m] + ending;
        assert ms[1] == ending[0];
        AfterTickSame(crypto, was, m);
        SameMatchFiled(crypto, hostKey, mid, was.(world := Some(m.w)), record.value, now);
      }
    }
  }

  lemma SomebodyUnready(seats: seq<Seat>)
    ensures (exists s :: s in seats && !s.player.ready) ==> !EveryoneReady(seats)
  {
  }

  lemma NoComings()
    ensures OnlyComings([])
  {
  }

  lemma StartedIsSorted(cfg: Config, w: World)
    requires Runs.Started(cfg, w)
    ensures SortedIds(w.st.snakes)
  {
  }

  lemma NotSteered(w: World)
    ensures SteeredBy(w, []) == w
  {
  }

  lemma NoBotInputs(st: State, cfg: Config, bots: seq<Seat>)
    requires cfg.wrap ==> st.arena.Width() > 0 && st.arena.Height() > 0
    ensures BotInputs(st, cfg, bots[..0], [])
  {
  }

  lemma WithoutLast(seats: seq<Seat>)
    requires |seats| > 0
    ensures WithoutAt(seats, |seats| - 1) == seats[..|seats|-1]
  {
  }

  lemma SettingsSeats(c: Crypto, hostKey: string, r: Room, cfg: Config)
    requires RoomInv(c, hostKey, r) && cfg.Valid()
    ensures SeatsOk(HouseOf(c, hostKey), Unready(r.seats)) && Clamped(cfg, People(r.seats)).Valid()
  {
    SeatsOkOf(c, hostKey, r);
    RosterFits(c, hostKey, r);
    RoomSize(r.cfg, r.seats);
    hide RoomInv;
    ClampedFits(HouseOf(c, hostKey), r.seats, cfg);
    BotsAreReady(HouseOf(c, hostKey), r.seats);
    UnreadyHolders(r.seats);
    SameHoldersSeatsOk(HouseOf(c, hostKey), r.seats, Unready(r.seats));
  }

  lemma ComingsJoined(log: seq<Event>, first: seq<Event>, more: seq<Event>)
    requires OnlyComings(first) && OnlyComings(more)
    ensures OnlyComings(first + more) && log + first + more == log + (first + more)
  {
  }

  /** The settings taken, u, and the seats settled, v. */
  lemma SettingsApplied(r: Room, name: string, cfg: Config, now: int, es: seq<Event>, u: Room, v: Room)
    requires Clamped(cfg, People(r.seats)).Valid() && cfg.Valid()
    requires u == SettingsTaken(r, name, Clamped(cfg, People(r.seats))).(advert := u.advert)
    requires v == u.(seats := Resettled(u.seats, u.cfg, now), advert := v.advert, log := u.log + es)
    ensures Refreshed(v) == Reconfigured(r, name, cfg, now, es)
  {
    hide Clamped, Resettled, Unready, BotCount;
  }

  ghost function SettingsTaken(r: Room, name: string, cfg: Config): Room {
    r.(cfg := cfg, gen := r.gen + 1, phase := Open, lastCount := 0, name := Names.Renamed(r.name, name),
       seats := Unready(r.seats), log := r.log + [Settings(r.gen + 1, cfg), Cleared])
  }

  lemma TakenFields(r: Room, name: string, cfg: Config)
    ensures SettingsTaken(r, name, cfg).phase == Open && SettingsTaken(r, name, cfg).cfg == cfg
    ensures SettingsTaken(r, name, cfg).seats == Unready(r.seats)
  {
  }

  lemma BotsSynced(e: House, seats: seq<Seat>, cfg: Config, now: int)
    requires SeatsOk(e, seats) && cfg.Valid()
    ensures SeatsOk(e, MoreBots(FewerBots(seats, BotsWanted(cfg)), BotsWanted(cfg), cfg.maxPlayers, now))
  {
    FewerBotsKeepsSeats(e, seats, BotsWanted(cfg));
    MoreBotsKeepsSeats(e, FewerBots(seats, BotsWanted(cfg)), BotsWanted(cfg), cfg.maxPlayers, now);
  }

  lemma MatchHasSim(c: Crypto, hostKey: string, r: Room)
    requires RoomInv(c, hostKey, r) && r.phase == InGame
    ensures r.world.Some? && Inv(r.matchCfg, r.world.value)
  {
  }

  lemma SimIsValid(c: Crypto, hostKey: string, r: Room)
    requires RoomInv(c, hostKey, r) && r.world.Some?
    ensures Inv(r.matchCfg, r.world.value)
  {
  }
}
