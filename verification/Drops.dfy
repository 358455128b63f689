/** Runs in which seats are only dropped: what `sendTo` may do while something is being sent. */
module Drops {
  import opened Types
  import opened World
  import opened Roster
  import opened Records
  import opened Attestation
  import opened MatchReport
  import opened Lobby
  import opened LobbyInvariant
  import opened LobbyMoves
  import opened LobbyRuns

  lemma {:induction false} DropsAreLegal(c: Crypto, hostKey: string, r: Room, ms: seq<Move>)
    requires OnlyDrops(ms)
    ensures LegalRun(c, hostKey, r, ms)
  {
    if |ms| > 0 {
      DropsAreLegal(c, hostKey, r, ms[..|ms|-1]);
      assert ms[|ms|-1] in ms;
    }
  }

  /** What a drop leaves alone. */
  ghost predicate SameBut(r: Room, r': Room) {
    && r' == r.(phase := r'.phase, seats := r'.seats, world := r'.world, lastCount := r'.lastCount,
                advert := r'.advert, log := r'.log)
    && (r'.phase == r.phase || (r.phase == Countdown && r'.phase == Open))
    && (r.phase == Open || r.phase == Closed ==> r'.world == r.world)
    && (r.phase != Countdown ==> r'.lastCount == r.lastCount)
  }

  lemma DropFrame(r: Room, id: PlayerID)
    ensures SameBut(r, Dropped(r, id)) && |Dropped(r, id).seats| <= |r.seats|
  {
  }

  lemma {:induction false} DropsFrame(c: Crypto, r: Room, ms: seq<Move>)
    requires OnlyDrops(ms)
    ensures SameBut(r, Ran(c, r, ms)) && |Ran(c, r, ms).seats| <= |r.seats|
  {
    if |ms| > 0 {
      var n := |ms| - 1;
      assert ms[n] in ms;
      DropsFrame(c, r, ms[..n]);
      hide Dropped;
      DropFrame(Ran(c, r, ms[..n]), ms[n].id);
    }
  }

  lemma RunOfOne(c: Crypto, hostKey: string, r: Room, m: Move)
    ensures Ran(c, r, [m]) == After(c, r, m)
    ensures LegalRun(c, hostKey, r, [m]) <==> Legal(c, hostKey, r, m)
  {
    hide After, Legal;
    assert [m][..0] == [];
    assert Ran(c, r, []) == r && LegalRun(c, hostKey, r, []);
  }

  /** A legal move and the drops that came of telling everybody. */
  lemma MoveThenDrops(c: Crypto, hostKey: string, r: Room, m: Move, drops: seq<Move>)
    requires OnlyDrops(drops)
    ensures Ran(c, r, [m] + drops) == Ran(c, After(c, r, m), drops)
    ensures Legal(c, hostKey, r, m) ==> LegalRun(c, hostKey, r, [m] + drops)
    ensures RoomInv(c, hostKey, r) && Legal(c, hostKey, r, m) ==>
      RoomInv(c, hostKey, After(c, r, m)) && RoomInv(c, hostKey, Ran(c, r, [m] + drops))
  {
    hide After, Legal, RoomInv, Ran, LegalRun;
    RunOfOne(c, hostKey, r, m);
    RanOn(c, hostKey, r, [m], drops);
    DropsAreLegal(c, hostKey, After(c, r, m), drops);
    if RoomInv(c, hostKey, r) && Legal(c, hostKey, r, m) {
      MoveKeeps(c, hostKey, r, m);
      RunKeeps(c, hostKey, r, [m] + drops);
    }
  }

  lemma OneDrop(c: Crypto, hostKey: string, r: Room, id: PlayerID)
    ensures OnlyDrops([Drop(id)]) && Ran(c, r, [Drop(id)]) == Dropped(r, id)
    ensures |Dropped(r, id).seats| <= |r.seats|
  {
    hide Dropped;
    RunOfOne(c, hostKey, r, Drop(id));
    DropFrame(r, id);
  }

  lemma DropThenDrops(c: Crypto, hostKey: string, r: Room, id: PlayerID, drops: seq<Move>)
    requires OnlyDrops(drops)
    ensures OnlyDrops([Drop(id)] + drops) && Ran(c, r, [Drop(id)] + drops) == Ran(c, Dropped(r, id), drops)
    ensures RoomInv(c, hostKey, r) ==> RoomInv(c, hostKey, Ran(c, r, [Drop(id)] + drops))
  {
    hide Dropped, RoomInv;
    MoveThenDrops(c, hostKey, r, Drop(id), drops);
  }

  lemma DroppedIs(r: Room, id: PlayerID)
    ensures Forfeited(r, id).seats == r.seats && Forfeited(r, id).phase == r.phase
    ensures var k := SeatIndex(r.seats, id);
      Dropped(r, id) == if k < 0 || r.seats[k].player.host then r
        else if r.phase == Countdown then Aborted(Vacated(Forfeited(r, id), k))
        else Vacated(Forfeited(r, id), k)
    ensures forall k: nat :: k < |r.seats| ==>
      && Vacated(Forfeited(r, id), k).phase == r.phase
      && |Vacated(Forfeited(r, id), k).seats| == |r.seats| - 1
  {
    hide WithoutAt, Eliminated;
  }

  /** The seats a run of drops is for. */
  ghost function Droppings(ms: seq<Move>): seq<PlayerID>
    requires OnlyDrops(ms)
  {
    seq<PlayerID>(|ms|, i requires 0 <= i < |ms| => (assert ms[i] in ms; ms[i].id))
  }

  lemma {:induction false} DropsAreLosses(c: Crypto, r: Room, ms: seq<Move>)
    requires OnlyDrops(ms)
    ensures Ran(c, r, ms) == Lost(r, Droppings(ms))
  {
    hide Dropped;
    if |ms| > 0 {
      var n := |ms| - 1;
      assert ms[n] in ms;
      DropsAreLosses(c, r, ms[..n]);
      assert Droppings(ms)[..n] == Droppings(ms[..n]);
    }
  }

  /** Dropping a guest from an open lobby. */
  lemma OpenDrop(e: House, r: Room, k: nat, was: Room, before: seq<Event>)
    requires r.phase == Open && SeatsOk(e, r.seats) && 0 < k < |r.seats|
    requires r == was.(seats := r.seats, advert := r.advert, log := was.log + before)
    ensures var d := Dropped(r, r.seats[k].id);
      && d.seats == WithoutAt(r.seats, k) && d == Dropped(d, r.seats[k].id)
      && d == was.(seats := d.seats, advert := d.advert, log := was.log + (before + [Left(r.seats[k].id)]))
  {
    var id := r.seats[k].id;
    OnlySeatZeroIsHost(e, r.seats, k);
    IndexOfSeat(r.seats, k);
    assert was.log + before + [Left(id)] == was.log + (before + [Left(id)]);
    GoneFor(r.seats, k);
    hide SeatsOk, WithoutAt, Eliminated, BotCount;
  }

  lemma GoneFor(seats: seq<Seat>, k: nat)
    requires Ascending(seats) && k < |seats|
    ensures SeatIndex(WithoutAt(seats, k), seats[k].id) < 0
  {
    var rest := WithoutAt(seats, k);
    var j := SeatIndex(rest, seats[k].id);
    if j >= 0 {
      assert rest[j] in rest;
      WithoutMembers(seats, k, rest[j]);
    }
  }

  lemma NothingRan(c: Crypto, hostKey: string, r: Room)
    ensures Ran(c, r, []) == r && LegalRun(c, hostKey, r, [])
  {
  }

  lemma NoDrops()
    ensures OnlyDrops([])
  {
  }

  lemma SeatZeroIsPerson(c: Crypto, hostKey: string, r: Room)
    requires RoomInv(c, hostKey, r)
    ensures OfPerson(r.seats, 0) && NoBotPlays(r, 0)
  {
    SeatsOkOf(c, hostKey, r);
    HostIsNoBot(HouseOf(c, hostKey), r.seats);
    IndexOfSeat(r.seats, 0);
    PersonInMatch(c, hostKey, r, 0);
  }

  lemma TwoRuns(c: Crypto, hostKey: string, r: Room, ms: seq<Move>, ns: seq<Move>)
    requires OnlyDrops(ms) && OnlyDrops(ns)
    ensures OnlyDrops(ms + ns) && Ran(c, r, ms + ns) == Ran(c, Ran(c, r, ms), ns)
  {
    RanOn(c, hostKey, r, ms, ns);
  }

  lemma ThreeRuns(c: Crypto, hostKey: string, r: Room, ms: seq<Move>, ns: seq<Move>, ls: seq<Move>)
    requires OnlyDrops(ms) && OnlyDrops(ns) && OnlyDrops(ls)
    ensures OnlyDrops(ms + ns + ls) && Ran(c, r, ms + ns + ls) == Ran(c, Ran(c, Ran(c, r, ms), ns), ls)
  {
    hide OnlyDrops;
    TwoRuns(c, hostKey, r, ms, ns);
    TwoRuns(c, hostKey, r, ms + ns, ls);
  }

  lemma MoveThenTwoDrops(c: Crypto, hostKey: string, r: Room, m: Move, ms: seq<Move>, ns: seq<Move>)
    requires OnlyDrops(ms) && OnlyDrops(ns)
    ensures OnlyDrops(ms + ns) && Ran(c, r, [m] + (ms + ns)) == Ran(c, Ran(c, After(c, r, m), ms), ns)
    ensures Legal(c, hostKey, r, m) ==> LegalRun(c, hostKey, r, [m] + (ms + ns))
  {
    hide OnlyDrops, After, Legal;
    TwoRuns(c, hostKey, After(c, r, m), ms, ns);
    MoveThenDrops(c, hostKey, r, m, ms + ns);
  }

  lemma DropTakesGuest(e: House, r: Room, id: PlayerID)
    requires SeatsOk(e, r.seats) && id != 0
    ensures SeatIndex(Dropped(r, id).seats, id) < 0
  {
    var k := SeatIndex(r.seats, id);
    if k >= 0 {
      GoneFor(r.seats, k);
      OnlySeatZeroIsHost(e, r.seats, k);
      ZeroIsFirst(e, r.seats);
    }
    hide SeatsOk, Dropped;
    DropTakesSeat(r, id);
  }

  /** Whoever is dropped, and is not the host, is gone. */
  lemma DroppedIsGone(c: Crypto, hostKey: string, r: Room, ms: seq<Move>, id: PlayerID)
    requires RoomInv(c, hostKey, r) && id != 0 && |ms| > 0 && ms[0] == Drop(id) && OnlyDrops(ms)
    ensures SeatIndex(Ran(c, r, ms).seats, id) < 0
  {
    hide RoomInv, SeatsOk, Dropped, SeatIndex, Ran, LegalRun, OnlyDrops;
    SeatsOkOf(c, hostKey, r);
    DropTakesGuest(HouseOf(c, hostKey), r, id);
    LaterDrops(ms);
    var rest := ms[1..];
    assert ms == [Drop(id)] + rest;
    RanOn(c, hostKey, r, [Drop(id)], rest);
    OneDrop(c, hostKey, r, id);
    StillGone(c, Dropped(r, id), rest, id);
  }

  lemma ZeroIsFirst(e: House, seats: seq<Seat>)
    requires SeatsOk(e, seats)
    ensures seats[0].id == 0
  {
  }

  lemma DropTakesSeat(r: Room, id: PlayerID)
    requires var k := SeatIndex(r.seats, id);
      k >= 0 ==> !r.seats[k].player.host && SeatIndex(WithoutAt(r.seats, k), id) < 0
    ensures SeatIndex(Dropped(r, id).seats, id) < 0
  {
    hide WithoutAt, Eliminated;
    var k := SeatIndex(r.seats, id);
    if k >= 0 && r.phase == Countdown {
      UnreadyGone(WithoutAt(r.seats, k), id);
    }
  }

  lemma UnreadyGone(seats: seq<Seat>, id: PlayerID)
    requires SeatIndex(seats, id) < 0
    ensures SeatIndex(Unready(seats), id) < 0
  {
    assert forall j :: 0 <= j < |seats| ==> Unready(seats)[j].id == seats[j].id;
  }

  lemma {:induction false} StillGone(c: Crypto, r: Room, ms: seq<Move>, id: PlayerID)
    requires SeatIndex(r.seats, id) < 0 && OnlyDrops(ms)
    ensures SeatIndex(Ran(c, r, ms).seats, id) < 0
  {
    if |ms| > 0 {
      var n := |ms| - 1;
      assert ms[n] in ms;
      StillGone(c, r, ms[..n], id);
      hide Dropped;
      OthersStayGone(Ran(c, r, ms[..n]), ms[n].id, id);
    }
  }

  lemma OthersStayGone(r: Room, other: PlayerID, id: PlayerID)
    requires SeatIndex(r.seats, id) < 0
    ensures SeatIndex(Dropped(r, other).seats, id) < 0
  {
    hide WithoutAt, Eliminated;
    var k := SeatIndex(r.seats, other);
    if k >= 0 && !r.seats[k].player.host {
      assert SeatIndex(WithoutAt(r.seats, k), id) < 0 by { FewerStayGone(r.seats, k, id); }
      UnreadyGone(WithoutAt(r.seats, k), id);
    }
  }

  lemma FewerStayGone(seats: seq<Seat>, k: nat, id: PlayerID)
    requires k < |seats| && SeatIndex(seats, id) < 0
    ensures SeatIndex(WithoutAt(seats, k), id) < 0
  {
    var rest := WithoutAt(seats, k);
    assert forall j :: 0 <= j < |rest| ==> rest[j] == seats[if j < k then j else j + 1];
  }

  // ---- Messages ----

  /** What a client can send that the lobby acts on. */
  datatype Message =
    | ReadyMsg(ready: bool, gen: int)
    | InputMsg(dir: Direction, tick: int)
    | AttestMsg(matchId: string, sig: Signature)
    | LeaveMsg
    | OtherMsg

  ghost function Asked(msg: Message, id: PlayerID, seatKey: string): seq<Move> {
    match msg
    case ReadyMsg(ready, gen) => [Ready(id, ready, gen)]
    case InputMsg(dir, tick) => [Queue(id, dir, tick)]
    case AttestMsg(matchId, s) => [Attest(id, seatKey, matchId, s)]
    case LeaveMsg => [Drop(id)]
    case OtherMsg => []
  }

  lemma ConnectedIsPerson(c: Crypto, hostKey: string, r: Room, k: nat)
    requires RoomInv(c, hostKey, r) && k < |r.seats| && r.seats[k].conn > 0
    ensures SeatIndex(r.seats, r.seats[k].id) == k && OfPerson(r.seats, r.seats[k].id)
    ensures OnlyPeople(r.seats, r.seats[k].id) && NoBotPlays(r, r.seats[k].id)
  {
    SeatsOkOf(c, hostKey, r);
    PersonInMatch(c, hostKey, r, k);
    IndexOfSeat(r.seats, k);
    assert r.seats[k] in r.seats && SeatOk(HouseOf(c, hostKey), r.seats[k]);
    forall s | s in r.seats && s.id == r.seats[k].id
      ensures !s.bot
    {
      var j :| 0 <= j < |r.seats| && r.seats[j] == s;
      assert j == k;
    }
  }

  lemma PersonInMatch(c: Crypto, hostKey: string, r: Room, k: nat)
    requires RoomInv(c, hostKey, r) && k < |r.seats|
    ensures !r.seats[k].bot ==> NoBotPlays(r, r.seats[k].id)
  {
    if r.phase == InGame && !r.seats[k].bot {
      var s, players := r.seats[k], r.matchPlayers;
      assert s in r.seats && TakesPart(s, players);
      var j :| 0 <= j < |players| && SamePerson(s, players[j]);
      forall i | 0 <= i < |players| && players[i].bot
        ensures players[i].seat != s.id
      {
        LineupSeatsDiffer(HouseOf(c, hostKey), players, i, j);
      }
    }
  }

  ghost predicate OnlyPeople(seats: seq<Seat>, id: PlayerID) {
    forall s :: s in seats && s.id == id ==> !s.bot
  }

  lemma HeardPerson(r: Room, id: PlayerID, now: int)
    requires OnlyPeople(r.seats, id)
    ensures OnlyPeople(Heard(r, id, now).seats, id) && (NoBotPlays(r, id) ==> NoBotPlays(Heard(r, id, now), id))
  {
    var k, seats' := SeatIndex(r.seats, id), Heard(r, id, now).seats;
    forall s | s in seats' && s.id == id
      ensures !s.bot
    {
      var j :| 0 <= j < |seats'| && seats'[j] == s;
      assert r.seats[j] in r.seats && r.seats[j].id == id && s.bot == r.seats[j].bot;
    }
  }

  lemma DropKeepsPeople(r: Room, other: PlayerID, id: PlayerID)
    requires OnlyPeople(r.seats, id)
    ensures OnlyPeople(Dropped(r, other).seats, id)
    ensures NoBotPlays(r, id) ==> NoBotPlays(Dropped(r, other), id)
  {
    hide Eliminated;
    var k := SeatIndex(r.seats, other);
    if k >= 0 && !r.seats[k].player.host {
      var rest := WithoutAt(r.seats, k);
      assert forall j :: 0 <= j < |rest| ==> rest[j] in r.seats;
      assert OnlyPeople(rest, id);
      forall s | s in Unready(rest) && s.id == id
        ensures !s.bot
      {
        var j :| 0 <= j < |rest| && Unready(rest)[j] == s;
        assert rest[j] in rest;
      }
    }
  }

  lemma {:induction false} PersonKept(c: Crypto, r: Room, ms: seq<Move>, id: PlayerID)
    requires OnlyPeople(r.seats, id) && OnlyDrops(ms)
    ensures OnlyPeople(Ran(c, r, ms).seats, id) && OfPerson(Ran(c, r, ms).seats, id)
    ensures NoBotPlays(r, id) ==> NoBotPlays(Ran(c, r, ms), id)
  {
    if |ms| > 0 {
      var n := |ms| - 1;
      assert ms[n] in ms;
      PersonKept(c, r, ms[..n], id);
      hide Dropped;
      DropKeepsPeople(Ran(c, r, ms[..n]), ms[n].id, id);
    }
  }

  lemma LaterDrops(ms: seq<Move>)
    requires OnlyDrops(ms) && |ms| > 0
    ensures OnlyDrops(ms[1..])
  {
  }

  // ---- Silence ----

  ghost function Flat(chunks: seq<seq<Move>>): seq<Move> {
    if |chunks| == 0 then [] else Flat(chunks[..|chunks|-1]) + chunks[|chunks|-1]
  }

  lemma FlatMore(chunks: seq<seq<Move>>, chunk: seq<Move>)
    ensures Flat(chunks + [chunk]) == Flat(chunks) + chunk
  {
    assert (chunks + [chunk])[..|chunks|] == chunks;
  }

  /** What silence costs a seat. */
  ghost function Verdict(s: Seat, now: int): seq<Move> {
    if s.Local() then []
    else if now - s.lastSeen >= DROP_AFTER then [Drop(s.id)]
    else if now - s.lastSeen >= COAST_AFTER && !s.coasting then [Quiet(s.id)]
    else []
  }

  ghost predicate Heeds(s: Seat, now: int, ms: seq<Move>) {
    var v := Verdict(s, now);
    if v == [] then ms == [] else |ms| > 0 && ms[0] == v[0] && OnlyDrops(ms[1..])
  }

  /** Not a bot, nor the seat of a bot of the match that is on. */
  ghost predicate Remote(r: Room, id: PlayerID) {
    OnlyPeople(r.seats, id) && OfPerson(r.seats, id) && NoBotPlays(r, id)
  }

  lemma QuietKeepsPeople(r: Room, other: PlayerID, id: PlayerID)
    requires Remote(r, id)
    ensures Remote(Quieted(r, other), id)
  {
    hide Coast;
    var seats' := Quieted(r, other).seats;
    forall s | s in seats' && s.id == id
      ensures !s.bot
    {
      var j :| 0 <= j < |seats'| && seats'[j] == s;
      assert r.seats[j] in r.seats && r.seats[j].id == id && s.bot == r.seats[j].bot;
    }
    var k := SeatIndex(seats', id);
    assert k >= 0 ==> seats'[k] in seats';
  }

  lemma DropsKeepRemote(c: Crypto, r: Room, ms: seq<Move>, id: PlayerID)
    requires Remote(r, id) && OnlyDrops(ms)
    ensures Remote(Ran(c, r, ms), id)
  {
    hide Ran, OnlyPeople, NoBotPlays, OfPerson;
    PersonKept(c, r, ms, id);
  }

  /** Going through one seat for silence makes nobody else a bot. */
  lemma HeedingKeepsRemote(c: Crypto, hostKey: string, r: Room, s: Seat, now: int, ms: seq<Move>, id: PlayerID)
    requires Heeds(s, now, ms) && Remote(r, id)
    ensures Remote(Ran(c, r, ms), id)
  {
    hide Ran, Remote, Quieted, Dropped;
    if ms == [] {
      NothingRan(c, hostKey, r);
    } else {
      var drops := ms[1..];
      assert ms == [ms[0]] + drops;
      MoveThenDrops(c, hostKey, r, ms[0], drops);
      if ms[0].Quiet? {
        QuietKeepsPeople(r, ms[0].id, id);
        DropsKeepRemote(c, Quieted(r, ms[0].id), drops, id);
      } else {
        RunOfOne(c, hostKey, r, ms[0]);
        OnlyDropsOf(ms[0]);
        DropsKeepRemote(c, r, [ms[0]], id);
        DropsKeepRemote(c, Dropped(r, ms[0].id), drops, id);
      }
    }
  }

  lemma OnlyDropsOf(m: Move)
    ensures m.Drop? ==> OnlyDrops([m])
  {
  }

  lemma RemoteSeat(c: Crypto, hostKey: string, r: Room, s: Seat)
    requires RoomInv(c, hostKey, r) && s in r.seats && !s.Local()
    ensures Remote(r, s.id)
  {
    var k :| 0 <= k < |r.seats| && r.seats[k] == s;
    ConnectedIsPerson(c, hostKey, r, k);
  }

  lemma HeedsDrop(s: Seat, now: int, ms: seq<Move>)
    requires !s.Local() && now - s.lastSeen >= DROP_AFTER && |ms| > 0 && ms[0] == Drop(s.id) && OnlyDrops(ms)
    ensures Heeds(s, now, ms)
  {
  }

  lemma HeedsQuiet(s: Seat, now: int, ms: seq<Move>, drops: seq<Move>)
    requires !s.Local() && COAST_AFTER <= now - s.lastSeen < DROP_AFTER && !s.coasting
    requires ms == [Quiet(s.id)] + drops && OnlyDrops(drops)
    ensures Heeds(s, now, ms)
  {
    assert ms[1..] == drops;
  }

  lemma HeedsNone(s: Seat, now: int)
    requires !s.Local() && now - s.lastSeen < DROP_AFTER && (now - s.lastSeen < COAST_AFTER || s.coasting)
    ensures Heeds(s, now, [])
  {
  }

  lemma RemoteIsNotHost(c: Crypto, hostKey: string, r: Room, s: Seat)
    requires RoomInv(c, hostKey, r) && s in r.seats
    ensures !s.Local() ==> s.id != 0
  {
    SeatsOkOf(c, hostKey, r);
    assert SeatOk(HouseOf(c, hostKey), s);
  }

  lemma QuietedPhase(r: Room, id: PlayerID)
    ensures Quieted(r, id).phase == r.phase
  {
  }

  lemma EliminatedTwice(w: World, id: PlayerID)
    requires SortedIds(w.st.snakes)
    ensures Eliminated(Eliminated(w, id), id) == Eliminated(w, id)
  {
    var v := Eliminated(w, id);
    EliminatedDescends(w, id);
    SameIdsSameIndex(w.st.snakes, v.st.snakes, id);
  }

  lemma NobodyToEliminate(w: World, seats: seq<Seat>, id: PlayerID)
    requires LivingSeated(seats, w.st.snakes) && SeatIndex(seats, id) < 0
    ensures Eliminated(w, id) == w
  {
  }

  /** Eliminating a snake just before its seat is taken away changes nothing. */
  lemma ForfeitTwice(c: Crypto, hostKey: string, r: Room, id: PlayerID)
    requires RoomInv(c, hostKey, r) && id != 0
    ensures Dropped(Forfeited(r, id), id) == Dropped(r, id)
  {
    if r.world.Some? && r.phase == InGame {
      var w := r.world.value;
      SimIsSorted(c, hostKey, r);
      EliminatedTwice(w, id);
      SeatsOkOf(c, hostKey, r);
      var k := SeatIndex(r.seats, id);
      if k < 0 {
        assert LivingSeated(r.seats, w.st.snakes);
        NobodyToEliminate(w, r.seats, id);
      } else {
        OnlySeatZeroIsHost(HouseOf(c, hostKey), r.seats, k);
        ZeroIsFirst(HouseOf(c, hostKey), r.seats);
      }
      hide RoomInv, SeatsOk, Eliminated, WithoutAt, BotCount;
    }
  }

  lemma SimIsSorted(c: Crypto, hostKey: string, r: Room)
    requires RoomInv(c, hostKey, r) && r.world.Some?
    ensures SortedIds(r.world.value.st.snakes)
  {
    InvSorted(r.matchCfg, r.world.value);
  }

  /** Two rooms that one drop makes the same run on alike from there. */
  lemma SameFromHere(c: Crypto, hostKey: string, r: Room, q: Room, ms: seq<Move>, id: PlayerID)
    requires Dropped(q, id) == Dropped(r, id) && |ms| > 0 && ms[0] == Drop(id)
    ensures Ran(c, q, ms) == Ran(c, r, ms)
  {
    hide Dropped;
    assert ms == [Drop(id)] + ms[1..];
    RanOn(c, hostKey, r, [Drop(id)], ms[1..]);
    RanOn(c, hostKey, q, [Drop(id)], ms[1..]);
    RunOfOne(c, hostKey, r, Drop(id));
    RunOfOne(c, hostKey, q, Drop(id));
  }
}
