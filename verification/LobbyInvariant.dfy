/** What every run of a lobby keeps. */
module LobbyInvariant {
  import opened Types
  import opened World
  import opened Roster
  import opened Records
  import opened Attestation
  import opened MatchReport
  import opened Lobby
  import opened Consent
  import Bookkeeping
  import Movement
  import Runs
  import Sorting
  import Store

  function HouseOf(c: Crypto, hostKey: string): House { House(c.keyOk, hostKey) }

  /** A simulation, whenever there is one, is sound, was set up for the line-up on file, and lets no
      bot coast. */
  ghost predicate SimOk(e: House, r: Room) {
    r.world.Some? ==>
      && Inv(r.matchCfg, r.world.value)
      && LineupOk(e, r.matchPlayers)
      && SnakesOf(r.matchPlayers, r.world.value.st.snakes)
      && NoBotCoasts(r.matchPlayers, r.world.value.st.snakes)
      && Store.ValidMatchId(r.matchId)
  }

  /** A bot has no connection that could fall silent, so its snake is always steered. */
  ghost predicate NoBotCoasts(players: seq<Player>, snakes: seq<Snake>) {
    forall i :: 0 <= i < |snakes| && i < |players| && players[i].bot ==> !snakes[i].coasting
  }

  ghost predicate SamePerson(s: Seat, p: Player) {
    s.id == p.seat && s.bot == p.bot && s.player.pubKey == p.pubKey
  }

  /** During a countdown the seats are the line-up, one for one. */
  ghost predicate SeatedLineup(seats: seq<Seat>, players: seq<Player>) {
    |seats| == |players| && forall k :: 0 <= k < |seats| ==> SamePerson(seats[k], players[k])
  }

  ghost predicate TakesPart(s: Seat, players: seq<Player>) {
    exists k :: 0 <= k < |players| && SamePerson(s, players[k])
  }

  /** During a match every seat is one of the line-up ... */
  ghost predicate SeatsPlay(seats: seq<Seat>, players: seq<Player>) {
    forall s :: s in seats ==> TakesPart(s, players)
  }

  /** ... and every living snake still has its seat. */
  ghost predicate LivingSeated(seats: seq<Seat>, snakes: seq<Snake>) {
    forall i :: 0 <= i < |snakes| && snakes[i].alive ==> SeatIndex(seats, snakes[i].id) >= 0
  }

  /** A board on which nothing has moved yet. */
  ghost predicate Fresh(w: World) {
    w.st.tick == 0 && !w.st.over && forall i :: 0 <= i < |w.st.snakes| ==> w.st.snakes[i].alive
  }

  ghost predicate PhaseOk(r: Room) {
    match r.phase
    case Countdown =>
      r.world.Some? && Fresh(r.world.value) && SeatedLineup(r.seats, r.matchPlayers) && SameButSeed(r.matchCfg, r.cfg)
    case InGame =>
      r.world.Some? && SeatsPlay(r.seats, r.matchPlayers) && LivingSeated(r.seats, r.world.value.st.snakes)
    case _ => true
  }

  /** A record waiting for signatures is one the store would take as it is. */
  ghost predicate RecordOk(c: Crypto, r: Room) {
    r.record.Some? ==> Store.Good(c, r.record.value)
  }

  /** Inputs wait for people only. */
  ghost predicate PendingOk(r: Room) {
    r.phase == Countdown || r.phase == InGame ==>
      forall k :: 0 <= k < |r.matchPlayers| && r.matchPlayers[k].bot ==> r.matchPlayers[k].seat !in r.pending
  }

  ghost predicate RosterOk(e: House, r: Room) {
    SeatsOk(e, r.seats) && Fits(r.cfg, r.seats)
  }

  ghost predicate RoomInv(c: Crypto, hostKey: string, r: Room) {
    && RosterOk(HouseOf(c, hostKey), r)
    && r.advert == AdvertOf(r)
    && SimOk(HouseOf(c, hostKey), r)
    && PhaseOk(r)
    && LogOk(r)
    && RecordOk(c, r)
    && PendingOk(r)
  }

  // ---- Changes to seats that leave their holders ----

  ghost predicate SameHolder(s: Seat, t: Seat) {
    && t.id == s.id && t.bot == s.bot && t.conn == s.conn
    && t.player == s.player.(ready := t.player.ready, connected := t.player.connected)
    && (s.bot ==> t.player.ready == s.player.ready)
  }

  ghost predicate SameHolders(seats: seq<Seat>, seats': seq<Seat>) {
    |seats'| == |seats| && forall k :: 0 <= k < |seats| ==> SameHolder(seats[k], seats'[k])
  }

  lemma {:induction false} SameHoldersCount(seats: seq<Seat>, seats': seq<Seat>)
    requires SameHolders(seats, seats')
    ensures BotCount(seats') == BotCount(seats)
  {
    if |seats| > 0 {
      SameHoldersCount(seats[1..], seats'[1..]);
    }
  }

  lemma {:induction false} SameHoldersIndex(seats: seq<Seat>, seats': seq<Seat>, id: PlayerID)
    requires SameHolders(seats, seats')
    ensures SeatIndex(seats', id) == SeatIndex(seats, id)
  {
    if |seats| > 0 {
      SameHoldersIndex(seats[1..], seats'[1..], id);
    }
  }

  lemma SameHolderOk(e: House, s: Seat, t: Seat)
    requires SeatOk(e, s) && SameHolder(s, t)
    ensures SeatOk(e, t)
  {
  }

  lemma SameHoldersClash(s: Seat, t: Seat, s': Seat, t': Seat)
    requires SameHolder(s, s') && SameHolder(t, t')
    ensures Clash(s', t') == Clash(s, t)
  {
  }

  lemma HolderOf(seats: seq<Seat>, seats': seq<Seat>, t: Seat) returns (s: Seat)
    requires SameHolders(seats, seats') && t in seats'
    ensures s in seats && SameHolder(s, t)
  {
    var k :| 0 <= k < |seats'| && seats'[k] == t;
    s := seats[k];
  }

  lemma SameHoldersSeatsOk(e: House, seats: seq<Seat>, seats': seq<Seat>)
    requires SeatsOk(e, seats) && SameHolders(seats, seats')
    ensures SeatsOk(e, seats') && BotCount(seats') == BotCount(seats)
  {
    SameHoldersCount(seats, seats');
    hide SeatOk, Clash, SameHolder;
    HoldersIds(seats, seats');
    forall t | t in seats'
      ensures SeatOk(e, t)
    {
      var s := HolderOf(seats, seats', t);
      SameHolderOk(e, s, t);
    }
    forall t, u | t in seats' && u in seats' && t.id != u.id
      ensures !Clash(t, u)
    {
      var s := HolderOf(seats, seats', t);
      var v := HolderOf(seats, seats', u);
      SameHoldersClash(s, v, t, u);
      SameHolderId(s, t);
      SameHolderId(v, u);
    }
  }

  lemma SameHolderId(s: Seat, t: Seat)
    requires SameHolder(s, t)
    ensures s.id == t.id
  {
  }

  lemma HoldersIds(seats: seq<Seat>, seats': seq<Seat>)
    requires SameHolders(seats, seats')
    ensures forall k :: 0 <= k < |seats| ==> seats'[k].id == seats[k].id
  {
  }

  lemma SameHoldersPlay(seats: seq<Seat>, seats': seq<Seat>, players: seq<Player>, snakes: seq<Snake>)
    requires SameHolders(seats, seats')
    ensures SeatedLineup(seats, players) ==> SeatedLineup(seats', players)
    ensures SeatsPlay(seats, players) ==> SeatsPlay(seats', players)
    ensures LivingSeated(seats, snakes) ==> LivingSeated(seats', snakes)
  {
    if SeatsPlay(seats, players) {
      forall t | t in seats'
        ensures TakesPart(t, players)
      {
        var s := HolderOf(seats, seats', t);
        var k :| 0 <= k < |players| && SamePerson(s, players[k]);
        assert SamePerson(t, players[k]);
      }
    }
    forall id: PlayerID
      ensures SeatIndex(seats', id) == SeatIndex(seats, id)
    {
      SameHoldersIndex(seats, seats', id);
    }
  }

  lemma LineupSeatsDiffer(e: House, players: seq<Player>, j: nat, k: nat)
    requires LineupOk(e, players) && j < |players| && k < |players|
    ensures players[j].seat == players[k].seat ==> j == k
  {
  }

  /** Everything but the log is indifferent to such changes. */
  lemma HoldersKeepRoom(c: Crypto, hostKey: string, r: Room, r': Room)
    requires RoomInv(c, hostKey, r) && SameHolders(r.seats, r'.seats)
    requires r'.cfg == r.cfg && r'.phase == r.phase && r'.world == r.world && r'.matchCfg == r.matchCfg
    requires r'.matchPlayers == r.matchPlayers && r'.matchId == r.matchId && r'.advert == r.advert && r'.name == r.name
    ensures RosterOk(HouseOf(c, hostKey), r') && r'.advert == AdvertOf(r')
    ensures SimOk(HouseOf(c, hostKey), r') && PhaseOk(r')
  {
    SameHoldersSeatsOk(HouseOf(c, hostKey), r.seats, r'.seats);
    SameHoldersPlay(r.seats, r'.seats, r.matchPlayers, if r.world.Some? then r.world.value.st.snakes else []);
    hide SameHolders, SeatsOk, LogOk, RecordOk, Inv, LineupOk, SnakesOf, SeatedLineup, SeatsPlay, LivingSeated, Fresh,
      BotCount;
  }
}
