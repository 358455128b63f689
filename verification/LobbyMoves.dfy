/** Every move of a lobby keeps its invariant. */
module LobbyMoves {
  import opened Types
  import opened World
  import opened Roster
  import opened Records
  import opened Attestation
  import opened MatchReport
  import opened Lobby
  import opened Consent
  import opened LobbyInvariant
  import Bookkeeping
  import Movement
  import Runs
  import Sorting
  import Store

  // ---- The simulation's side ----

  /** The same snakes, nobody revived. */
  ghost predicate Descends(s: seq<Snake>, t: seq<Snake>) {
    |t| == |s| && forall i :: 0 <= i < |s| ==> t[i].id == s[i].id && (t[i].alive ==> s[i].alive)
  }

  /** Nobody coasts who did not before. */
  ghost predicate NoneCoastsAnew(s: seq<Snake>, t: seq<Snake>) {
    |t| == |s| && forall i :: 0 <= i < |s| ==> t[i].coasting ==> s[i].coasting
  }

  lemma BotsStillSteer(players: seq<Player>, s: seq<Snake>, t: seq<Snake>)
    requires NoneCoastsAnew(s, t) && NoBotCoasts(players, s)
    ensures NoBotCoasts(players, t)
  {
  }

  ghost predicate NoneLives(snakes: seq<Snake>, id: PlayerID) {
    forall i :: 0 <= i < |snakes| && snakes[i].alive ==> snakes[i].id != id
  }

  lemma SteerDescends(w: World, id: PlayerID, d: Direction)
    ensures Descends(w.st.snakes, Steer(w, id, d).st.snakes)
    ensures NoneCoastsAnew(w.st.snakes, Steer(w, id, d).st.snakes)
  {
  }

  lemma CoastDescends(w: World, id: PlayerID, coasting: bool)
    ensures Descends(w.st.snakes, Coast(w, id, coasting).st.snakes)
    ensures Fresh(w) ==> Fresh(Coast(w, id, coasting))
  {
  }

  lemma EliminatedDescends(w: World, id: PlayerID)
    requires SortedIds(w.st.snakes)
    ensures Descends(w.st.snakes, Eliminated(w, id).st.snakes)
    ensures NoneCoastsAnew(w.st.snakes, Eliminated(w, id).st.snakes)
    ensures NoneLives(Eliminated(w, id).st.snakes, id)
  {
    forall i | 0 <= i < |w.st.snakes| && w.st.snakes[i].id == id
      ensures !Eliminated(w, id).st.snakes[i].alive
    {
      IndexOfMember(w.st.snakes, i);
    }
  }

  lemma SteppedDescends(cfg: Config, w: World, w': World)
    requires cfg.Valid() && Stepped(cfg, w, w')
    ensures Descends(w.st.snakes, w'.st.snakes) && NoneCoastsAnew(w.st.snakes, w'.st.snakes)
  {
    var t := Ticked(w);
    if MovesNow(cfg, w) {
      MovedDescends(t.st, cfg.wrap);
      hide Movement.Moved, Movement.Doomed, Movement.Playable, Rank, Movement.Replenished;
    }
  }

  lemma MovedDescends(st: State, wrap: bool)
    requires Movement.Playable(st, wrap)
    ensures Descends(st.snakes, Movement.Moved(st, wrap).snakes)
    ensures NoneCoastsAnew(st.snakes, Movement.Moved(st, wrap).snakes)
  {
    hide Movement.Doomed, Movement.Dies, Movement.Credits, Movement.Playable;
  }

  lemma {:induction false} SteeredByKeepsInv(cfg: Config, w: World, inputs: seq<Input>)
    requires Inv(cfg, w)
    ensures Inv(cfg, SteeredBy(w, inputs)) && Descends(w.st.snakes, SteeredBy(w, inputs).st.snakes)
    ensures NoneCoastsAnew(w.st.snakes, SteeredBy(w, inputs).st.snakes)
  {
    hide Inv;
    if |inputs| > 0 {
      var n := |inputs| - 1;
      SteeredByKeepsInv(cfg, w, inputs[..n]);
      SteerKeepsInv(cfg, SteeredBy(w, inputs[..n]), inputs[n].0, inputs[n].1);
      SteerDescends(SteeredBy(w, inputs[..n]), inputs[n].0, inputs[n].1);
      hide Steer;
    }
  }

  lemma DescendantsPlay(e: House, players: seq<Player>, seats: seq<Seat>, s: seq<Snake>, t: seq<Snake>)
    requires Descends(s, t)
    ensures SnakesOf(players, s) ==> SnakesOf(players, t)
    ensures LivingSeated(seats, s) ==> LivingSeated(seats, t)
  {
  }

  lemma InvSorted(cfg: Config, w: World)
    requires Inv(cfg, w)
    ensures SortedIds(w.st.snakes)
  {
  }

  // ---- Logs ----

  lemma NoteKeepsConsent(log: seq<Event>, e: Event)
    requires Consented(log) && !e.Entered? && !e.Settings?
    ensures Consented(log + [e]) && InForce(log + [e]) == InForce(log)
  {
    Grown(log, e);
  }

  lemma OtherStands(log: seq<Event>, e: Event, id: PlayerID)
    requires match e
      case Readied(i, _, _) => i != id
      case Unreadied(i) => i != id
      case Joined(i) => i != id
      case Left(i) => i != id
      case Cleared => false
      case Settings(_, _) => false
      case _ => true
    ensures Standing(log + [e], id) == Standing(log, id)
  {
    Grown(log, e);
  }

  lemma UnreadyHolders(seats: seq<Seat>)
    requires forall s :: s in seats && s.bot ==> s.player.ready
    ensures SameHolders(seats, Unready(seats))
    ensures forall s :: s in Unready(seats) && !s.bot ==> !s.player.ready
  {
    forall k | 0 <= k < |seats|
      ensures SameHolder(seats[k], Unready(seats)[k])
    {
      assert seats[k] in seats;
    }
  }

  lemma BotsAreReady(e: House, seats: seq<Seat>)
    requires SeatsOk(e, seats)
    ensures forall s :: s in seats && s.bot ==> s.player.ready
  {
    forall s | s in seats && s.bot
      ensures s.player.ready
    {
      assert SeatOk(e, s);
    }
  }

  // ---- Opening up again ----

  lemma ReopeningKeeps(c: Crypto, hostKey: string, r: Room)
    requires RosterOk(HouseOf(c, hostKey), r) && SimOk(HouseOf(c, hostKey), r) && RecordOk(c, r)
    requires Consented(r.log) && InForce(r.log) == Some((r.gen, r.cfg))
    ensures RoomInv(c, hostKey, Reopened(r))
  {
    var e, r' := HouseOf(c, hostKey), Reopened(r);
    BotsAreReady(e, r.seats);
    UnreadyHolders(r.seats);
    SameHoldersSeatsOk(e, r.seats, r'.seats);
    NoteKeepsConsent(r.log, Cleared);
    hide SeatsOk, Consented, InForce, Inv, LineupOk, SnakesOf, SameHolders, Store.Good, BotCount, Unready;
  }

  lemma ReopenKeeps(c: Crypto, hostKey: string, r: Room)
    requires RoomInv(c, hostKey, r)
    ensures RoomInv(c, hostKey, Reopened(r)) && RoomInv(c, hostKey, Aborted(r))
  {
    hide RosterOk, RecordOk, Consented, Reopened, Inv, LineupOk, SnakesOf;
    ReopeningKeeps(c, hostKey, r);
    ReopeningKeeps(c, hostKey, r.(world := None)) by { SimlessOk(c, hostKey, r); }
  }

  lemma SimlessOk(c: Crypto, hostKey: string, r: Room)
    requires RosterOk(HouseOf(c, hostKey), r) && RecordOk(c, r)
    ensures RosterOk(HouseOf(c, hostKey), r.(world := None)) && RecordOk(c, r.(world := None))
  {
  }

  // ---- Readiness ----

  lemma ReadyKeeps(c: Crypto, hostKey: string, r: Room, id: PlayerID, ready: bool, gen: int)
    requires RoomInv(c, hostKey, r) && OfPerson(r.seats, id)
    ensures RoomInv(c, hostKey, ReadySet(r, id, ready, gen))
  {
    var r' := ReadySet(r, id, ready, gen);
    if r' != r {
      var k := SeatIndex(r.seats, id);
      assert SameHolders(r.seats, r'.seats);
      HoldersKeepRoom(c, hostKey, r, r');
      var e := if ready then Readied(id, r.seats[k].player.pubKey, gen) else Unreadied(id);
      NoteKeepsConsent(r.log, e);
      ReadiesKept(r.log, e, r.gen, r.seats, k, r'.seats);
      RunningKept(r.log, e);
      hide RosterOk, SimOk, PhaseOk, ReadiesStand, Consented, InForce, Running, SameHolders;
      LogOkOf(r, r');
    }
  }

  lemma RunningKept(log: seq<Event>, e: Event)
    requires e.Readied? || e.Unreadied?
    ensures Running(log + [e]) == Running(log)
  {
    Grown(log, e);
  }

  lemma LogOkOf(r: Room, r': Room)
    requires LogOk(r) && Consented(r'.log) && InForce(r'.log) == InForce(r.log)
    requires ReadiesStand(r'.log, r'.gen, r'.seats)
    requires r'.gen == r.gen && r'.cfg == r.cfg && r'.matchCfg == r.matchCfg && r'.matchPlayers == r.matchPlayers
    requires r'.phase == Countdown ==> r.phase == Countdown && Running(r'.log) == Running(r.log)
    ensures LogOk(r')
  {
  }

  lemma ReadiesKept(log: seq<Event>, e: Event, gen: int, seats: seq<Seat>, k: nat, seats': seq<Seat>)
    requires ReadiesStand(log, gen, seats) && Ascending(seats) && k < |seats|
    requires |seats'| == |seats| && seats' == seats[k := seats'[k]]
    requires seats'[k].id == seats[k].id && seats'[k].player.pubKey == seats[k].player.pubKey
    requires e
      == if seats'[k].player.ready then Readied(seats[k].id, seats[k].player.pubKey, gen) else Unreadied(seats[k].id)
    ensures ReadiesStand(log + [e], gen, seats')
  {
    Grown(log, e);
    forall t | t in seats' && !t.bot && t.player.ready
      ensures Standing(log + [e], t.id) == Some((t.player.pubKey, gen))
    {
      var j :| 0 <= j < |seats'| && seats'[j] == t;
      if j != k {
        assert seats[j] == t && t in seats;
        assert j < k || k < j;
        OtherStands(log, e, t.id);
      }
    }
  }

  // ---- Leaving ----

  lemma VacatingKeeps(c: Crypto, hostKey: string, r: Room, k: nat)
    requires RoomInv(c, hostKey, r) && 0 < k < |r.seats|
    ensures RosterOk(HouseOf(c, hostKey), Vacated(r, k)) && Vacated(r, k).advert == AdvertOf(Vacated(r, k))
    ensures SimOk(HouseOf(c, hostKey), Vacated(r, k)) && RecordOk(c, Vacated(r, k))
    ensures Consented(Vacated(r, k).log) && InForce(Vacated(r, k).log) == InForce(r.log)
    ensures ReadiesStand(Vacated(r, k).log, r.gen, Vacated(r, k).seats)
  {
    var id := r.seats[k].id;
    WithoutKeepsSeats(HouseOf(c, hostKey), r.seats, k);
    NoteKeepsConsent(r.log, Left(id));
    forall s | s in WithoutAt(r.seats, k) && !s.bot && s.player.ready
      ensures Standing(r.log + [Left(id)], s.id) == Some((s.player.pubKey, r.gen))
    {
      WithoutMembers(r.seats, k, s);
      OtherStands(r.log, Left(id), s.id);
    }
    hide SeatsOk, Consented, InForce, Inv, LineupOk, SnakesOf, WithoutAt, BotCount, Store.Good, PhaseOk;
  }

  lemma ForfeitKeeps(c: Crypto, hostKey: string, r: Room, id: PlayerID)
    requires RoomInv(c, hostKey, r)
    ensures RoomInv(c, hostKey, Forfeited(r, id))
    ensures r.phase == InGame ==> NoneLives(Forfeited(r, id).world.value.st.snakes, id)
  {
    if r.world.Some? && r.phase == InGame {
      var w := r.world.value;
      InvSorted(r.matchCfg, w);
      Runs.EliminationKeepsInv(r.matchCfg, w, id);
      EliminatedDescends(w, id);
      DescendantsPlay(HouseOf(c, hostKey), r.matchPlayers, r.seats, w.st.snakes, Eliminated(w, id).st.snakes);
      BotsStillSteer(r.matchPlayers, w.st.snakes, Eliminated(w, id).st.snakes);
      hide Inv, LineupOk, SnakesOf, SeatsOk, Fits, LogOk, Store.Good, Eliminated, LivingSeated, SeatsPlay, Descends,
        NoBotCoasts, NoneCoastsAnew;
    }
  }

  lemma StillPlaying(seats: seq<Seat>, k: nat, players: seq<Player>, snakes: seq<Snake>)
    requires Ascending(seats) && k < |seats| && SeatsPlay(seats, players) && LivingSeated(seats, snakes)
    requires NoneLives(snakes, seats[k].id)
    ensures SeatsPlay(WithoutAt(seats, k), players) && LivingSeated(WithoutAt(seats, k), snakes)
  {
    var rest := WithoutAt(seats, k);
    forall s | s in rest
      ensures TakesPart(s, players)
    {
      WithoutMembers(seats, k, s);
    }
    forall i | 0 <= i < |snakes| && snakes[i].alive
      ensures SeatIndex(rest, snakes[i].id) >= 0
    {
      var s := seats[SeatIndex(seats, snakes[i].id)];
      WithoutMembers(seats, k, s);
      var j :| 0 <= j < |rest| && rest[j] == s;
      assert rest[j].id == snakes[i].id;
    }
  }

  lemma DropKeeps(c: Crypto, hostKey: string, r: Room, id: PlayerID)
    requires RoomInv(c, hostKey, r)
    ensures RoomInv(c, hostKey, Dropped(r, id))
  {
    var k := SeatIndex(r.seats, id);
    if k >= 0 && !r.seats[k].player.host {
      SeatsOkOf(c, hostKey, r);
      OnlySeatZeroIsHost(HouseOf(c, hostKey), r.seats, k);
      ForfeitKeeps(c, hostKey, r, id);
      hide RoomInv, Forfeited, Vacated, Aborted, NoneLives, SeatsOk;
      var f := Forfeited(r, id);
      ForfeitFrame(r, id);
      if r.phase == Countdown {
        LeavingCountdownKeeps(c, hostKey, f, k);
      } else {
        LeavingKeeps(c, hostKey, f, k);
      }
    }
  }

  lemma ForfeitFrame(r: Room, id: PlayerID)
    ensures Forfeited(r, id).phase == r.phase && Forfeited(r, id).seats == r.seats
  {
  }

  lemma LeavingCountdownKeeps(c: Crypto, hostKey: string, r: Room, k: nat)
    requires RoomInv(c, hostKey, r) && r.phase == Countdown && 0 < k < |r.seats|
    ensures RoomInv(c, hostKey, Aborted(Vacated(r, k)))
  {
    var v := Vacated(r, k);
    VacatingKeeps(c, hostKey, r, k);
    assert v.gen == r.gen && v.cfg == r.cfg;
    assert InForce(r.log) == Some((r.gen, r.cfg));
    hide RosterOk, RecordOk, ReadiesStand, Consented, InForce, Running, Inv, LineupOk, SnakesOf, Reopened, Vacated;
    SimlessOk(c, hostKey, v);
    ReopeningKeeps(c, hostKey, v.(world := None));
  }

  lemma LeavingKeeps(c: Crypto, hostKey: string, r: Room, k: nat)
    requires RoomInv(c, hostKey, r) && r.phase != Countdown && 0 < k < |r.seats|
    requires r.phase == InGame ==> r.world.Some? && NoneLives(r.world.value.st.snakes, r.seats[k].id)
    ensures RoomInv(c, hostKey, Vacated(r, k))
  {
    VacatingKeeps(c, hostKey, r, k);
    if r.phase == InGame {
      SeatsOkOf(c, hostKey, r);
      StillPlaying(r.seats, k, r.matchPlayers, r.world.value.st.snakes);
    }
    hide RosterOk, SimOk, RecordOk, ReadiesStand, SeatsPlay, LivingSeated, Consented, InForce, Running, NoneLives;
  }

  lemma SeatsOkOf(c: Crypto, hostKey: string, r: Room)
    requires RoomInv(c, hostKey, r)
    ensures SeatsOk(HouseOf(c, hostKey), r.seats) && Ascending(r.seats)
  {
  }
}
