/** Every run of a lobby: its invariant, and what that means at the points that matter. */
module LobbyRuns {
  import opened Types
  import opened World
  import opened Roster
  import opened Records
  import opened Attestation
  import opened MatchReport
  import opened Lobby
  import opened Consent
  import opened LobbyInvariant
  import opened LobbyMoves
  import Bookkeeping
  import Runs
  import Sorting
  import Store

  // ---- Quiet clients ----

  lemma CoastKeeps(c: Crypto, hostKey: string, r: Room, id: PlayerID, coasting: bool)
    requires RoomInv(c, hostKey, r) && r.world.Some?
    requires coasting ==>
      forall k :: 0 <= k < |r.matchPlayers| && r.matchPlayers[k].bot ==> r.matchPlayers[k].seat != id
    ensures RoomInv(c, hostKey, r.(world := Some(Coast(r.world.value, id, coasting))))
  {
    hide Inv, LineupOk, SnakesOf, SeatsOk, Fits, Store.Good, Coast, LivingSeated, SeatsPlay, SeatedLineup, BotCount;
    hide Descends, Fresh, NoBotCoasts, Consented, InForce, Running, ReadiesStand;
    var w := r.world.value;
    CoastKeepsInv(r.matchCfg, w, id, coasting);
    CoastDescends(w, id, coasting);
    DescendantsPlay(HouseOf(c, hostKey), r.matchPlayers, r.seats, w.st.snakes, Coast(w, id, coasting).st.snakes);
    BotsKeepSteering(r.matchPlayers, w, id, coasting);
  }

  lemma BotsKeepSteering(players: seq<Player>, w: World, id: PlayerID, coasting: bool)
    requires SnakesOf(players, w.st.snakes) && NoBotCoasts(players, w.st.snakes)
    requires coasting ==> forall k :: 0 <= k < |players| && players[k].bot ==> players[k].seat != id
    ensures NoBotCoasts(players, Coast(w, id, coasting).st.snakes)
  {
  }

  /** Readiness untouched, holders untouched: the whole invariant is. */
  lemma SameReadinessKeeps(c: Crypto, hostKey: string, r: Room, r': Room)
    requires RoomInv(c, hostKey, r) && SameHolders(r.seats, r'.seats)
    requires forall k :: 0 <= k < |r.seats| ==> r'.seats[k].player.ready == r.seats[k].player.ready
    requires r' == r.(seats := r'.seats, pending := r'.pending, record := r'.record, attestUntil := r'.attestUntil)
    requires RecordOk(c, r') && PendingOk(r')
    ensures RoomInv(c, hostKey, r')
  {
    hide PendingOk;
    HoldersKeepRoom(c, hostKey, r, r');
    ReadinessKept(r.log, r.gen, r.seats, r'.seats);
    hide RosterOk, SimOk, PhaseOk, ReadiesStand, Consented, InForce, Running, SameHolders, Store.Good;
  }

  lemma ReadinessKept(log: seq<Event>, gen: int, seats: seq<Seat>, seats': seq<Seat>)
    requires ReadiesStand(log, gen, seats) && SameHolders(seats, seats')
    requires forall k :: 0 <= k < |seats| ==> seats'[k].player.ready == seats[k].player.ready
    ensures ReadiesStand(log, gen, seats')
  {
    forall t | t in seats' && !t.bot && t.player.ready
      ensures Standing(log, t.id) == Some((t.player.pubKey, gen))
    {
      var k :| 0 <= k < |seats'| && seats'[k] == t;
      assert seats[k] in seats && SameHolder(seats[k], t);
    }
  }

  /** One seat's bookkeeping changes, not who holds it or whether they are ready. */
  lemma SeatChangeKeeps(c: Crypto, hostKey: string, r: Room, k: nat, s: Seat)
    requires RoomInv(c, hostKey, r) && k < |r.seats| && SameHolder(r.seats[k], s)
    requires s.player.ready == r.seats[k].player.ready
    ensures RoomInv(c, hostKey, r.(seats := r.seats[k := s]))
  {
    RecordOfInv(c, hostKey, r);
    assert PendingOk(r.(seats := r.seats[k := s]));
    hide RoomInv, PendingOk;
    SameReadinessKeeps(c, hostKey, r, r.(seats := r.seats[k := s]));
  }

  lemma QuietKeeps(c: Crypto, hostKey: string, r: Room, id: PlayerID)
    requires RoomInv(c, hostKey, r) && NoBotPlays(r, id)
    ensures RoomInv(c, hostKey, Quieted(r, id))
  {
    hide RoomInv, Coast;
    var q := if r.world.Some? && r.phase == InGame then r.(world := Some(Coast(r.world.value, id, true))) else r;
    if r.world.Some? && r.phase == InGame {
      CoastKeeps(c, hostKey, r, id, true);
    }
    var k := SeatIndex(r.seats, id);
    if k >= 0 {
      var s := r.seats[k];
      SeatChangeKeeps(c, hostKey, q, k, s.(coasting := true, player := s.player.(connected := false)));
    }
  }

  lemma RecordOfInv(c: Crypto, hostKey: string, r: Room)
    requires RoomInv(c, hostKey, r)
    ensures RecordOk(c, r) && PendingOk(r)
  {
  }

  lemma HearKeeps(c: Crypto, hostKey: string, r: Room, id: PlayerID, now: int)
    requires RoomInv(c, hostKey, r)
    ensures RoomInv(c, hostKey, Heard(r, id, now))
  {
    hide RoomInv, Coast;
    var k := SeatIndex(r.seats, id);
    if k >= 0 {
      var s := r.seats[k];
      if !s.coasting {
        SeatChangeKeeps(c, hostKey, r, k, s.(lastSeen := now));
      } else {
        var q := r;
        if r.world.Some? {
          CoastKeeps(c, hostKey, r, id, false);
          q := r.(world := Some(Coast(r.world.value, id, false)));
        }
        SeatChangeKeeps(c, hostKey, q, k,
                        s.(lastSeen := now, coasting := false, player := s.player.(connected := true)));
      }
    }
  }

  lemma SignKeeps(c: Crypto, hostKey: string, r: Room, id: PlayerID, signed: bool)
    requires RoomInv(c, hostKey, r)
    ensures RoomInv(c, hostKey, SignedSet(r, id, signed))
  {
    hide RoomInv;
    var k := SeatIndex(r.seats, id);
    if k >= 0 {
      SeatChangeKeeps(c, hostKey, r, k, r.seats[k].(signed := signed));
    }
  }

  // ---- Joining ----

  lemma JoinKeeps(c: Crypto, hostKey: string, r: Room, who: Joiner, now: int)
    requires RoomInv(c, hostKey, r) && Admission(HouseOf(c, hostKey), r, who) == Granted && who.conn > 0
    ensures RoomInv(c, hostKey, Seated(r, who, now))
  {
    var e, s := HouseOf(c, hostKey), NewSeat(r.seats, who, now);
    hide SeatsOk, Consented, InForce, Running, ReadiesStand, Inv, LineupOk, SnakesOf, Store.Good, Admit, BotCount,
      KeySeated;
    JoinerFits(e, r.seats, who, now);
    NewSeatIs(r.seats, who, now);
    hide NewSeat;
    AdmitKeepsSeats(e, r.seats, s);
    NoteKeepsConsent(r.log, Joined(s.id));
    JoinerStands(r.log, r.gen, r.seats, s);
  }

  lemma NewSeatIs(seats: seq<Seat>, who: Joiner, now: int)
    ensures !NewSeat(seats, who, now).bot && !NewSeat(seats, who, now).player.ready
  {
  }

  lemma JoinerFits(e: House, seats: seq<Seat>, who: Joiner, now: int)
    requires SeatsOk(e, seats) && |seats| < MAX_PLAYERS
    requires who.key != "" && e.keyOk(who.key) && !KeySeated(seats, who.key) && who.conn > 0
    ensures SeatOk(e, NewSeat(seats, who, now))
    ensures forall t :: t in seats ==> Compatible(NewSeat(seats, who, now), t)
  {
    hide FreeSeatId, FreePaletteId;
    FreeMeansFree(seats);
    assert seats[0] in seats;
  }

  lemma JoinerStands(log: seq<Event>, gen: int, seats: seq<Seat>, s: Seat)
    requires ReadiesStand(log, gen, seats) && !s.player.ready && forall t :: t in seats ==> t.id != s.id
    ensures ReadiesStand(log + [Joined(s.id)], gen, Admit(seats, s))
  {
    forall t | t in Admit(seats, s) && !t.bot && t.player.ready
      ensures Standing(log + [Joined(s.id)], t.id) == Some((t.player.pubKey, gen))
    {
      AdmitMembers(seats, s, t);
      OtherStands(log, Joined(s.id), t.id);
    }
  }

  // ---- New settings ----

  lemma ClampedFits(e: House, seats: seq<Seat>, cfg: Config)
    requires cfg.Valid() && |seats| <= MAX_PLAYERS
    ensures Clamped(cfg, People(seats)).Valid() && Clamped(cfg, People(seats)).maxPlayers >= People(seats)
  {
  }

  lemma SettingsKeepConsent(log: seq<Event>, gen: int, cfg: Config)
    requires Consented(log) && (InForce(log).Some? ==> InForce(log).value.0 < gen)
    ensures Consented(log + [Settings(gen, cfg)]) && InForce(log + [Settings(gen, cfg)]) == Some((gen, cfg))
  {
    Grown(log, Settings(gen, cfg));
  }

  /** New settings leave a roster that fits them, and nobody ready but the bots. */
  lemma ResettledRoster(e: House, r: Room, cfg: Config, now: int, seats: seq<Seat>, applied: Config)
    requires RosterOk(e, r) && cfg.Valid() && applied == Clamped(cfg, People(r.seats))
    requires seats == Resettled(Unready(r.seats), applied, now)
    ensures SeatsOk(e, seats) && Fits(applied, seats)
    ensures forall s :: s in seats && !s.bot ==> !s.player.ready
  {
    ClampedFits(e, r.seats, cfg);
    BotsAreReady(e, r.seats);
    UnreadyHolders(r.seats);
    SameHoldersSeatsOk(e, r.seats, Unready(r.seats));
    ResettledFits(e, Unready(r.seats), applied, now);
    hide SeatsOk, Fits, Clamped, Resettled, SameHolders, BotCount, Unready;
    forall s | s in seats && !s.bot
      ensures !s.player.ready
    {
      ResettledPeople(Unready(r.seats), applied, now, s);
    }
  }

  lemma {:induction false} ComingsKeepConsent(log: seq<Event>, es: seq<Event>)
    requires Consented(log) && OnlyComings(es)
    ensures Consented(log + es) && InForce(log + es) == InForce(log)
  {
    if |es| == 0 {
      assert log + es == log;
    } else {
      var n := |es| - 1;
      ComingsKeepConsent(log, es[..n]);
      assert es[n] in es;
      NoteKeepsConsent(log + es[..n], es[n]);
      assert log + es == log + es[..n] + [es[n]];
    }
  }

  lemma NewSettingsLog(log: seq<Event>, gen: int, cfg: Config, es: seq<Event>)
    requires Consented(log) && (InForce(log).Some? ==> InForce(log).value.0 < gen) && OnlyComings(es)
    ensures Consented(log + [Settings(gen, cfg), Cleared] + es)
    ensures InForce(log + [Settings(gen, cfg), Cleared] + es) == Some((gen, cfg))
  {
    hide Consented, InForce;
    SettingsKeepConsent(log, gen, cfg);
    NoteKeepsConsent(log + [Settings(gen, cfg)], Cleared);
    assert log + [Settings(gen, cfg)] + [Cleared] == log + [Settings(gen, cfg), Cleared];
    ComingsKeepConsent(log + [Settings(gen, cfg), Cleared], es);
  }

  lemma ReconfigureKeeps(c: Crypto, hostKey: string, r: Room, name: string, cfg: Config, now: int, es: seq<Event>)
    requires RoomInv(c, hostKey, r) && cfg.Valid() && OnlyComings(es)
    ensures RoomInv(c, hostKey, Reconfigured(r, name, cfg, now, es))
  {
    var applied := Clamped(cfg, People(r.seats));
    var seats := Resettled(Unready(r.seats), applied, now);
    ResettledRoster(HouseOf(c, hostKey), r, cfg, now, seats, applied);
    NewSettingsLog(r.log, r.gen + 1, applied, es);
    hide SeatsOk, Consented, InForce, Running, Inv, LineupOk, SnakesOf, Store.Good, Resettled, Fits, Clamped, BotCount,
      Unready, Standing;
  }

  // ---- Countdown and play ----

  lemma SeatsLineUp(e: House, seats: seq<Seat>)
    requires SeatsOk(e, seats)
    ensures LineupOk(e, PlayersOf(seats)) && SeatedLineup(seats, PlayersOf(seats))
  {
    var players := PlayersOf(seats);
    forall k | 0 <= k < |seats|
      ensures SamePerson(seats[k], players[k]) && SeatOk(e, seats[k])
    {
      assert seats[k] in seats;
    }
    forall i, j | 0 <= i < j < |players| && !players[i].bot && !players[j].bot
      ensures players[i].pubKey != players[j].pubKey
    {
      assert seats[i] in seats && seats[j] in seats && seats[i].id != seats[j].id;
      assert !Clash(seats[i], seats[j]);
    }
  }

  lemma BeganKeepsReadies(r: Room, e: Event)
    requires ReadiesStand(r.log, r.gen, r.seats) && (e.Began? || e.Entered?)
    ensures ReadiesStand(r.log + [e], r.gen, r.seats)
  {
    forall s | s in r.seats && !s.bot && s.player.ready
      ensures Standing(r.log + [e], s.id) == Some((s.player.pubKey, r.gen))
    {
      OtherStands(r.log, e, s.id);
    }
  }

  lemma RunningNow(log: seq<Event>, cfg: Config, roster: seq<Player>)
    ensures Running(log + [Began(cfg, roster)]) == Some((cfg, roster))
  {
  }

  lemma StartedIsFresh(cfg: Config, w: World)
    requires Runs.Started(cfg, w)
    ensures Fresh(w)
  {
  }

  lemma BeginKeeps(c: Crypto, hostKey: string, r: Room, w: World, matchId: string, seed: int, now: int)
    requires RoomInv(c, hostKey, r) && Built(r.cfg.(seed := seed), r.seats, w) && Store.ValidMatchId(matchId)
    ensures RoomInv(c, hostKey, CountdownBegun(r, w, matchId, seed, now))
  {
    var e, cfg := HouseOf(c, hostKey), r.cfg.(seed := seed);
    SeatsLineUp(e, r.seats);
    Runs.StartedIsInv(cfg, w);
    StartedIsFresh(cfg, w);
    var began := Began(cfg, PlayersOf(r.seats));
    assert NoBotCoasts(PlayersOf(r.seats), w.st.snakes) by { StartedSteer(cfg, w, PlayersOf(r.seats)); }
    NoteKeepsConsent(r.log, began);
    BeganKeepsReadies(r, began);
    RunningNow(r.log, cfg, PlayersOf(r.seats));
    hide SeatsOk, Consented, InForce, Running, ReadiesStand, Inv, LineupOk, SnakesOf, Store.Good, SeatedLineup, Fresh,
      Fits, PlayersOf, Runs.Started, Store.ValidMatchId, BotCount;
  }

  lemma StartedSteer(cfg: Config, w: World, players: seq<Player>)
    requires Runs.Started(cfg, w)
    ensures NoBotCoasts(players, w.st.snakes)
  {
  }

  lemma LineupPlays(seats: seq<Seat>, players: seq<Player>, snakes: seq<Snake>)
    requires SeatedLineup(seats, players) && SnakesOf(players, snakes)
    ensures SeatsPlay(seats, players) && LivingSeated(seats, snakes)
  {
    forall s | s in seats
      ensures TakesPart(s, players)
    {
      var k :| 0 <= k < |seats| && seats[k] == s;
      assert SamePerson(seats[k], players[k]);
    }
    forall i | 0 <= i < |snakes| && snakes[i].alive
      ensures SeatIndex(seats, snakes[i].id) >= 0
    {
      assert SamePerson(seats[i], players[i]) && seats[i].id == snakes[i].id;
    }
  }

  lemma ReadyLineupStands(log: seq<Event>, gen: int, seats: seq<Seat>, players: seq<Player>)
    requires ReadiesStand(log, gen, seats) && SeatedLineup(seats, players) && EveryoneReady(seats)
    ensures AllStand(log, players, gen)
  {
    forall k | 0 <= k < |players| && !players[k].bot
      ensures Standing(log, players[k].seat) == Some((players[k].pubKey, gen))
    {
      assert SamePerson(seats[k], players[k]) && seats[k] in seats;
    }
  }

  lemma EntryKeepsConsent(log: seq<Event>, cfg: Config, roster: seq<Player>)
    requires Consented(log) && MayEnter(log, cfg, roster)
    ensures Consented(log + [Entered(cfg, roster)]) && InForce(log + [Entered(cfg, roster)]) == InForce(log)
  {
    Grown(log, Entered(cfg, roster));
  }

  lemma PlayKeeps(c: Crypto, hostKey: string, r: Room, now: int)
    requires RoomInv(c, hostKey, r) && r.phase == Countdown && EveryoneReady(r.seats)
    ensures RoomInv(c, hostKey, PlayBegun(r, now)) && MayEnter(r.log, r.matchCfg, r.matchPlayers)
  {
    LineupPlays(r.seats, r.matchPlayers, r.world.value.st.snakes);
    ReadyLineupStands(r.log, r.gen, r.seats, r.matchPlayers);
    assert MayEnter(r.log, r.matchCfg, r.matchPlayers);
    EntryKeepsConsent(r.log, r.matchCfg, r.matchPlayers);
    BeganKeepsReadies(r, Entered(r.matchCfg, r.matchPlayers));
    hide SeatsOk, Consented, InForce, Running, ReadiesStand, Inv, LineupOk, SnakesOf, Store.Good, SeatedLineup, Fresh,
      Fits, SeatsPlay, LivingSeated, EveryoneReady, MayEnter, BotCount;
  }

  // ---- Ticks ----

  lemma StepKeeps(c: Crypto, hostKey: string, r: Room, inputs: seq<Input>, w: World)
    requires RoomInv(c, hostKey, r) && r.phase == InGame && r.world.Some?
    requires r.matchCfg.Valid() && Stepped(r.matchCfg, SteeredBy(r.world.value, inputs), w)
    ensures RoomInv(c, hostKey, r.(world := Some(w)))
  {
    hide Stepped, SteeredBy, Inv, Descends, NoneCoastsAnew, NoBotCoasts, SeatsOk, Fits, LogOk, RecordOk, PendingOk;
    var was := r.world.value;
    SteeredByKeepsInv(r.matchCfg, was, inputs);
    Runs.NextKeepsInv(r.matchCfg, SteeredBy(was, inputs), Stepping, w);
    SteppedDescends(r.matchCfg, SteeredBy(was, inputs), w);
    DescendantsPlay(HouseOf(c, hostKey), r.matchPlayers, r.seats, was.st.snakes, SteeredBy(was, inputs).st.snakes);
    DescendantsPlay(HouseOf(c, hostKey), r.matchPlayers, r.seats, SteeredBy(was, inputs).st.snakes, w.st.snakes);
    BotsStillSteer(r.matchPlayers, was.st.snakes, SteeredBy(was, inputs).st.snakes);
    BotsStillSteer(r.matchPlayers, SteeredBy(was, inputs).st.snakes, w.st.snakes);
    NewWorldKeeps(c, hostKey, r, w);
  }

  lemma TickKeeps(c: Crypto, hostKey: string, r: Room, inputs: seq<Input>, w: World)
    requires RoomInv(c, hostKey, r) && r.phase == InGame && r.world.Some?
    requires r.matchCfg.Valid() && Stepped(r.matchCfg, SteeredBy(r.world.value, inputs), w)
    ensures RoomInv(c, hostKey, WorldStepped(r, w))
  {
    hide RoomInv, SameHolders, Acked, Stepped, SteeredBy;
    var q := r.(world := Some(w));
    StepKeeps(c, hostKey, r, inputs, w);
    RecordOfInv(c, hostKey, q);
    AckedHolders(r.seats, r.pending);
    assert PendingOk(WorldStepped(r, w));
    SameReadinessKeeps(c, hostKey, q, WorldStepped(r, w));
  }

  lemma NewWorldKeeps(c: Crypto, hostKey: string, r: Room, w: World)
    requires RoomInv(c, hostKey, r) && r.phase == InGame && Inv(r.matchCfg, w)
    requires SnakesOf(r.matchPlayers, w.st.snakes) && LivingSeated(r.seats, w.st.snakes)
    requires NoBotCoasts(r.matchPlayers, w.st.snakes)
    ensures RoomInv(c, hostKey, r.(world := Some(w)))
  {
    hide SeatsOk, Consented, InForce, Running, ReadiesStand, Inv, LineupOk, SnakesOf, Store.Good, LivingSeated, Fits,
      SeatsPlay, BotCount, Fresh;
  }

  lemma AckedHolders(seats: seq<Seat>, pending: map<PlayerID, Pending>)
    ensures SameHolders(seats, Acked(seats, pending))
    ensures forall k :: 0 <= k < |seats| ==> Acked(seats, pending)[k].player.ready == seats[k].player.ready
  {
  }

  // ---- Records ----

  lemma NewRecordIsGood(c: Crypto, h: Heading, players: seq<Player>, final: State, s: Signature)
    requires LineupOk(House(c.keyOk, h.hostKey), players) && SnakesOf(players, final.snakes)
    requires Store.ValidMatchId(h.matchId)
    ensures Store.Good(c, Signed(c, Unsigned(c, Report(h, players, final)), s))
    ensures Signed(c, Unsigned(c, Report(h, players, final)), s).result.matchId == h.matchId
  {
    ReportIsValid(c, h, players, final);
    assert Report(h, players, final).matchId == h.matchId;
    hide Report, ValidResult, LineupOk, SnakesOf, HashHex;
    UnsignedIsVerified(c, Report(h, players, final));
    hide Verified, Signed, Unsigned, Accepts;
    SignedStaysVerified(c, Unsigned(c, Report(h, players, final)), s);
    assert Unsigned(c, Report(h, players, final)).result == Report(h, players, final) by {
      UnsignedIsVerified(c, Report(h, players, final));
    }
  }

  lemma UnsignedIsVerified(c: Crypto, result: MatchResult)
    requires ValidResult(c, result)
    ensures Verified(c, Unsigned(c, result)) && Unsigned(c, result).result == result
  {
    hide ValidResult, HashHex;
  }

  /** The record of a finished match is one the store takes. */
  lemma FiledIsGood(c: Crypto, hostKey: string, r: Room, rec: Record, now: int)
    requires SimOk(HouseOf(c, hostKey), r) && FiledFor(c, hostKey, r, rec, now)
    ensures Store.Good(c, rec) && rec.result.matchId == r.matchId
  {
    hide Store.Good, Signed, Unsigned, Report, Inv, LineupOk, SnakesOf, Store.ValidMatchId;
    var h := HeadingOf(c, hostKey, r, now);
    var plain := Unsigned(c, Report(h, r.matchPlayers, r.world.value.st));
    NewRecordIsGood(c, h, r.matchPlayers, r.world.value.st, Signature(hostKey, c.sign(plain.hash)));
  }

  /** What is filed: the match's own ID, times and settings, under the hash of it all; and the host's
      signature, exactly if the host's key over that hash gives one that verifies. */
  lemma HostSigns(c: Crypto, hostKey: string, r: Room, rec: Record, now: int)
    requires SimOk(HouseOf(c, hostKey), r) && FiledFor(c, hostKey, r, rec, now)
    ensures rec.hash == HashHex(c, rec.result) && rec.result.hostPubKey == hostKey
    ensures rec.result.matchId == r.matchId && rec.result.lobbyName == r.name
    ensures rec.result.startedAt == c.formatTime(r.startedAt) && rec.result.endedAt == c.formatTime(now)
    ensures rec.result.config == r.matchCfg.(bots := BotsAmong(r.matchPlayers))
    ensures if c.sigOk(hostKey, rec.hash, c.sign(rec.hash)) then Signers(rec) == {hostKey} else rec.signatures == []
  {
    hide Inv, LineupOk, SnakesOf, Participants, Placements, Sorting.SortBy, HashHex, BotsAmong, WithSignature;
    var h := HeadingOf(c, hostKey, r, now);
    var result := Report(h, r.matchPlayers, r.world.value.st);
    ReportIsValid(c, h, r.matchPlayers, r.world.value.st);
    UnsignedIsVerified(c, result);
    var s := Signature(hostKey, c.sign(HashHex(c, result)));
    SignedStaysVerified(c, Unsigned(c, result), s);
    HostPlays(c, result);
    hide Verified, ValidResult;
    assert Signers(Unsigned(c, result)) == {};
  }

  lemma HostPlays(c: Crypto, r: MatchResult)
    requires ValidResult(c, r)
    ensures Plays(r, r.hostPubKey) && c.keyOk(r.hostPubKey)
  {
  }

  lemma RecordKeeps(c: Crypto, hostKey: string, r: Room, rec: Option<Record>, until: int)
    requires RoomInv(c, hostKey, r) && (rec.Some? ==> Store.Good(c, rec.value))
    ensures RoomInv(c, hostKey, r.(record := rec, attestUntil := until))
  {
    hide SeatsOk, Consented, InForce, Running, ReadiesStand, Inv, LineupOk, SnakesOf, Store.Good, LivingSeated, Fits,
      SeatsPlay, SeatedLineup, BotCount, Fresh;
  }

  lemma FileKeeps(c: Crypto, hostKey: string, r: Room, rec: Record, now: int)
    requires RoomInv(c, hostKey, r) && FiledFor(c, hostKey, r, rec, now)
    ensures RoomInv(c, hostKey, Filed(r, rec, now))
  {
    SimOkOf(c, hostKey, r);
    hide RoomInv, SignedSet;
    FiledIsGood(c, hostKey, r, rec, now);
    RecordKeeps(c, hostKey, r, Some(rec), now + ATTEST_WINDOW);
    SignKeeps(c, hostKey, r.(record := Some(rec), attestUntil := now + ATTEST_WINDOW), 0, true);
  }

  lemma SimOkOf(c: Crypto, hostKey: string, r: Room)
    requires RoomInv(c, hostKey, r)
    ensures SimOk(HouseOf(c, hostKey), r)
  {
  }

  lemma AttestKeeps(c: Crypto, hostKey: string, r: Room, id: PlayerID, seatKey: string, matchId: string, s: Signature)
    requires RoomInv(c, hostKey, r)
    ensures RoomInv(c, hostKey, AttestedBy(c, r, id, seatKey, matchId, s))
  {
    if r.record.Some? {
      RecordOfInv(c, hostKey, r);
      hide RoomInv, SignedSet, Verified, Signed, Accepts;
      var rec := Signed(c, r.record.value, s);
      SignedStaysVerified(c, r.record.value, s);
      RecordKeeps(c, hostKey, r, Some(rec), r.attestUntil);
      SignKeeps(c, hostKey, r.(record := Some(rec)), id, true);
    }
  }

  lemma {:induction false} LosingKeeps(c: Crypto, hostKey: string, r: Room, ids: seq<PlayerID>)
    requires RoomInv(c, hostKey, r)
    ensures RoomInv(c, hostKey, Lost(r, ids))
  {
    hide RoomInv, Dropped;
    if |ids| > 0 {
      LosingKeeps(c, hostKey, r, ids[..|ids|-1]);
      DropKeeps(c, hostKey, Lost(r, ids[..|ids|-1]), ids[|ids|-1]);
    }
  }

  lemma CloseKeeps(c: Crypto, hostKey: string, r: Room, lost: seq<PlayerID>)
    requires RoomInv(c, hostKey, r)
    ensures RoomInv(c, hostKey, RecordClosed(r, lost))
  {
    hide RoomInv, Reopened, Lost;
    RecordKeeps(c, hostKey, r, None, r.attestUntil);
    LosingKeeps(c, hostKey, r.(record := None), lost);
    ReopenKeeps(c, hostKey, Lost(r.(record := None), lost));
  }

  // ---- All moves ----

  lemma PlainKeeps(c: Crypto, hostKey: string, r: Room, m: Move)
    requires RoomInv(c, hostKey, r) && Legal(c, hostKey, r, m)
    requires m.Queue? || m.Count? || m.Forget? || m.Shut?
    ensures RoomInv(c, hostKey, After(c, r, m))
  {
    hide SeatsOk, Consented, InForce, Running, ReadiesStand, Inv, LineupOk, SnakesOf, Store.Good, LivingSeated, Fits,
      SeatsPlay, SeatedLineup, BotCount, Fresh;
  }

  lemma MoveKeeps(c: Crypto, hostKey: string, r: Room, m: Move)
    requires RoomInv(c, hostKey, r) && Legal(c, hostKey, r, m)
    ensures RoomInv(c, hostKey, After(c, r, m))
  {
    hide RoomInv;
    match m
    case Ready(id, ready, gen) => ReadyKeeps(c, hostKey, r, id, ready, gen);
    case Drop(id) => DropKeeps(c, hostKey, r, id);
    case Quiet(id) => QuietKeeps(c, hostKey, r, id);
    case Hear(id, now) => HearKeeps(c, hostKey, r, id, now);
    case Join(who, now) => JoinKeeps(c, hostKey, r, who, now);
    case Reconfigure(name, cfg, now, es) => ReconfigureKeeps(c, hostKey, r, name, cfg, now, es);
    case Begin(w, matchId, seed, now) => BeginKeeps(c, hostKey, r, w, matchId, seed, now);
    case Abort => ReopenKeeps(c, hostKey, r);
    case Play(now) => PlayKeeps(c, hostKey, r, now);
    case Step(inputs, w) => TickKeeps(c, hostKey, r, inputs, w);
    case Over => ReopenKeeps(c, hostKey, r);
    case File(rec, now) => FileKeeps(c, hostKey, r, rec, now);
    case Unsign(id) => SignKeeps(c, hostKey, r, id, false);
    case Attest(id, seatKey, matchId, s) => AttestKeeps(c, hostKey, r, id, seatKey, matchId, s);
    case Close(now, lost) => CloseKeeps(c, hostKey, r, lost);
    case _ => PlainKeeps(c, hostKey, r, m);
  }

  lemma {:induction false} RunKeeps(c: Crypto, hostKey: string, r: Room, ms: seq<Move>)
    requires RoomInv(c, hostKey, r) && LegalRun(c, hostKey, r, ms)
    ensures RoomInv(c, hostKey, Ran(c, r, ms))
  {
    hide RoomInv, Legal, After;
    if |ms| > 0 {
      var n := |ms| - 1;
      RunKeeps(c, hostKey, r, ms[..n]);
      MoveKeeps(c, hostKey, Ran(c, r, ms[..n]), ms[n]);
    }
  }
}
