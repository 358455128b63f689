/**
 What the single moves of a lobby do to its seats, its history and its record, told without the
 functions that define them (internal/netplay/host.go).
*/
module Effects {
  import opened Types
  import opened World
  import opened Roster
  import opened Records
  import opened Attestation
  import opened MatchReport
  import opened Lobby
  import opened Consent
  import opened LobbyInvariant
  import opened LobbyMoves
  import opened LobbyRuns
  import opened Drops
  import opened HostedBots
  import opened Ticks
  import Bot
  import Names
  import Soundness
  import Sorting

  lemma SeatAt(c: Crypto, hostKey: string, r: Room, k: nat)
    requires RoomInv(c, hostKey, r) && k < |r.seats|
    ensures SeatIndex(r.seats, r.seats[k].id) == k
    ensures r.world.Some? ==> Inv(r.matchCfg, r.world.value)
    ensures r.record.Some? ==> Verified(c, r.record.value)
  {
    SeatsOkOf(c, hostKey, r);
    IndexOfSeat(r.seats, k);
    hide SeatsOk, Verified, Inv;
  }

  // ---- Readiness ----

  /** Only seat k differs, and there only what the change is about. */
  ghost predicate OnlySeat(seats: seq<Seat>, seats': seq<Seat>, k: nat) {
    && k < |seats| && |seats'| == |seats|
    && forall j :: 0 <= j < |seats| && j != k ==> seats'[j] == seats[j]
  }

  /** Seat k is a person's, and quotes the present settings at a time when readies count. */
  ghost predicate Flagged(r: Room, k: nat, id: PlayerID, quoted: int) {
    && k < |r.seats| && r.seats[k].id == id && !r.seats[k].bot
    && quoted == r.gen && (r.phase == Open || r.phase == Countdown)
  }

  /** The flag of seat k says what was asked, nobody else's is touched, and the change is noted exactly
      if it is one. */
  ghost predicate FlagSet(r: Room, r': Room, k: nat, ready: bool)
    requires k < |r.seats|
  {
    var s := r.seats[k];
    && OnlySeat(r.seats, r'.seats, k) && r'.seats[k] == s.(player := s.player.(ready := ready))
    && r' == r.(seats := r'.seats, log := r'.log)
    && r'.log == r.log + (if s.player.ready == ready then []
                          else if ready then [Readied(s.id, s.player.pubKey, r.gen)] else [Unreadied(s.id)])
  }

  /** A ready that quotes the present generation sets the flag to what it says, whichever that is. */
  lemma ReadyTakesEffect(c: Crypto, hostKey: string, r: Room, k: nat, ready: bool)
    requires RoomInv(c, hostKey, r) && k < |r.seats| && Flagged(r, k, r.seats[k].id, r.gen)
    ensures FlagSet(r, After(c, r, Ready(r.seats[k].id, ready, r.gen)), k, ready)
  {
    hide RoomInv, Inv, Verified;
    SeatAt(c, hostKey, r, k);
    assert r.log + [] == r.log && r.seats[k := r.seats[k]] == r.seats;
  }

  /** Any other ready changes nothing: of another generation, of nobody seated, or in another phase. */
  lemma StaleReadyIsRefused(c: Crypto, r: Room, id: PlayerID, ready: bool, quoted: int)
    requires quoted != r.gen || (r.phase != Open && r.phase != Countdown) || forall s :: s in r.seats ==> s.id != id
    ensures After(c, r, Ready(id, ready, quoted)) == r
  {
    var k := SeatIndex(r.seats, id);
    assert k >= 0 ==> r.seats[k] in r.seats;
  }

  /** An un-ready during a countdown: whatever the clock says, the next thing the lobby does is to
      call it off. */
  lemma UnreadyCallsOff(c: Crypto, hostKey: string, r: Room, k: nat, now: int, ms: seq<Move>)
    requires RoomInv(c, hostKey, r) && k < |r.seats| && !r.seats[k].bot && r.phase == Countdown
    requires NextStep(After(c, r, Ready(r.seats[k].id, false, r.gen)), now, ms)
    ensures |ms| > 0 && ms[0] == Abort
  {
    ReadyTakesEffect(c, hostKey, r, k, false);
    var r' := After(c, r, Ready(r.seats[k].id, false, r.gen));
    hide RoomInv, After;
    assert r'.seats[k] in r'.seats;
  }

  // ---- Attestations ----

  /** A signature over this record that is this player's and verifies. */
  ghost predicate Valid(c: Crypto, rec: Record, key: string, s: Signature) {
    s.pubKey == key && Plays(rec.result, key) && c.keyOk(key) && c.sigOk(key, rec.hash, s.sig)
  }

  lemma ValidIsTaken(c: Crypto, rec: Record, key: string, s: Signature)
    requires Verified(c, rec)
    ensures var rec' := Signed(c, rec, s);
      && Valid(c, rec, key, s) == (s.pubKey == key && Accepts(c, rec, s))
      && rec'.result == rec.result && rec'.hash == rec.hash
      && (Valid(c, rec, key, s) ==> Signers(rec') == Signers(rec) + {key})
  {
    hide Signers, WithSignature;
    SignedStaysVerified(c, rec, s);
    RecordHash(c, rec);
  }

  lemma RecordHash(c: Crypto, rec: Record)
    requires Verified(c, rec)
    ensures rec.hash == HashHex(c, rec.result)
  {
    hide HashHex, ValidResult;
  }

  /** A signature counts only for the match on record and under the seat's own key, and then if it
      verifies; the seat is marked, and no other signer comes or goes. */
  lemma AttestTakesEffect(c: Crypto, hostKey: string, r: Room, k: nat, matchId: string, s: Signature)
    requires RoomInv(c, hostKey, r) && k < |r.seats| && r.record.Some?
    ensures var seat, rec := r.seats[k], r.record.value;
      var r' := After(c, r, Attest(seat.id, seat.player.pubKey, matchId, s));
      if matchId == rec.result.matchId && Valid(c, rec, seat.player.pubKey, s) then
        && r'.record.Some? && r'.record.value.result == rec.result && r'.record.value.hash == rec.hash
        && Signers(r'.record.value) == Signers(rec) + {seat.player.pubKey}
        && OnlySeat(r.seats, r'.seats, k) && r'.seats[k] == seat.(signed := true)
      else r' == r
  {
    hide RoomInv, Signers, Signed, Accepts, Verified, Valid, Inv, After;
    SeatAt(c, hostKey, r, k);
    ValidIsTaken(c, r.record.value, r.seats[k].player.pubKey, s);
    AttestMoves(c, r, r.seats[k].id, r.seats[k].player.pubKey, matchId, s);
  }

  lemma AttestMoves(c: Crypto, r: Room, id: PlayerID, key: string, matchId: string, s: Signature)
    requires r.record.Some? && SeatIndex(r.seats, id) >= 0
    ensures var k, r' := SeatIndex(r.seats, id), After(c, r, Attest(id, key, matchId, s));
      if matchId == r.record.value.result.matchId && s.pubKey == key && Accepts(c, r.record.value, s) then
        && r'.record == Some(Signed(c, r.record.value, s))
        && r'.seats == r.seats[k := r.seats[k].(signed := true)]
      else r' == r
  {
    hide Signed, Accepts;
  }

  // ---- Silence ----

  /** Of all snakes at most this one differs, and it coasts or not as told; if it does, no input of
      before is left to turn it. */
  ghost predicate CoastingOf(was: World, now: World, id: PlayerID, coasting: bool) {
    && |now.st.snakes| == |was.st.snakes| && now == was.(st := was.st.(snakes := now.st.snakes))
    && forall i :: 0 <= i < |was.st.snakes| ==>
         if was.st.snakes[i].id != id then now.st.snakes[i] == was.st.snakes[i]
         else
           && now.st.snakes[i] == was.st.snakes[i].(coasting := coasting, hasPending := now.st.snakes[i].hasPending)
           && now.st.snakes[i].hasPending == (was.st.snakes[i].hasPending && !coasting)
  }

  lemma CoastIsOf(cfg: Config, w: World, id: PlayerID, coasting: bool)
    requires Inv(cfg, w)
    ensures CoastingOf(w, Coast(w, id, coasting), id, coasting)
  {
    InvSorted(cfg, w);
    hide Inv;
    forall i | 0 <= i < |w.st.snakes|
      ensures SnakeIndex(w.st.snakes, w.st.snakes[i].id) == i
    {
      IndexOfMember(w.st.snakes, i);
    }
  }

  /** Being heard from resets the clock of a seat and takes its snake back if it was coasting. */
  lemma HearTakesEffect(c: Crypto, hostKey: string, r: Room, k: nat, now: int)
    requires RoomInv(c, hostKey, r) && k < |r.seats|
    ensures var s := r.seats[k]; var r' := After(c, r, Hear(s.id, now));
      && OnlySeat(r.seats, r'.seats, k) && r' == r.(seats := r'.seats, world := r'.world)
      && r'.seats[k] == s.(lastSeen := now, coasting := false, player := r'.seats[k].player)
      && r'.seats[k].player == s.player.(connected := s.player.connected || s.coasting)
      && (if s.coasting && r.world.Some? then r'.world.Some? && CoastingOf(r.world.value, r'.world.value, s.id, false)
          else r'.world == r.world)
  {
    hide RoomInv, Coast, CoastingOf, Inv, Verified;
    SeatAt(c, hostKey, r, k);
    if r.world.Some? {
      CoastIsOf(r.matchCfg, r.world.value, r.seats[k].id, false);
    }
  }

  /** Falling silent marks a seat, and during a match its snake goes straight on. */
  lemma QuietTakesEffect(c: Crypto, hostKey: string, r: Room, k: nat)
    requires RoomInv(c, hostKey, r) && k < |r.seats|
    ensures var s := r.seats[k]; var r' := After(c, r, Quiet(s.id));
      && OnlySeat(r.seats, r'.seats, k) && r' == r.(seats := r'.seats, world := r'.world)
      && r'.seats[k] == s.(coasting := true, player := s.player.(connected := false))
      && (if r.world.Some? && r.phase == InGame then
            r'.world.Some? && CoastingOf(r.world.value, r'.world.value, s.id, true)
          else r'.world == r.world)
  {
    hide RoomInv, Coast, CoastingOf, Inv, Verified;
    SeatAt(c, hostKey, r, k);
    if r.world.Some? {
      CoastIsOf(r.matchCfg, r.world.value, r.seats[k].id, true);
    }
  }

  /** Silence is judged by two limits, of four and of ten seconds, and only where there is a
      connection; somebody heard from within the first is left alone. */
  lemma VerdictByTheClock(s: Seat, now: int)
    ensures Verdict(s, now) == [Drop(s.id)] <==> s.conn != 0 && now >= s.lastSeen + 10_000_000_000
    ensures Verdict(s, now) == [Quiet(s.id)] <==>
      s.conn != 0 && !s.coasting && s.lastSeen + 4_000_000_000 <= now < s.lastSeen + 10_000_000_000
    ensures now < s.lastSeen + 4_000_000_000 ==> Verdict(s, now) == []
  {
  }

  // ---- Steering ----

  /** What a player asks for during a match waits for the tick, in place of what they asked for before. */
  lemma QueueTakesEffect(c: Crypto, r: Room, id: PlayerID, dir: Direction, tick: int)
    ensures var r' := After(c, r, Queue(id, dir, tick));
      && r' == r.(pending := r'.pending)
      && (r.phase == InGame ==> id in r'.pending && r'.pending[id] == Pending(dir, tick))
      && forall other :: other != id || r.phase != InGame ==>
           (other in r'.pending <==> other in r.pending)
           && (other in r.pending ==> r'.pending[other] == r.pending[other])
  {
  }

  /** Where the one input for a player stands among those of a tick. */
  lemma OnlyInputFor(r: Room, inputs: seq<Input>, n: nat, id: PlayerID) returns (p: nat)
    requires TickInputs(r, inputs, n) && id in r.pending && NotFor(inputs[..n], id)
    ensures p < |inputs| && inputs[p] == (id, r.pending[id].dir)
    ensures NotFor(inputs[..p], id) && NotFor(inputs[p + 1..], id)
  {
    hide BotInputs, BotsOf;
    var people := inputs[n..];
    var q :| 0 <= q < |people| && people[q].0 == id;
    p := n + q;
    assert inputs[p] == people[q];
    forall i | 0 <= i < |inputs| && i != p
      ensures inputs[i].0 != id
    {
      if i < n {
        assert inputs[..n][i] == inputs[i];
      } else {
        assert people[i - n] == inputs[i];
      }
    }
  }

  /** And in the tick it is what reaches the player's snake, and nothing else does. */
  lemma InputArrives(c: Crypto, hostKey: string, r: Room, inputs: seq<Input>, n: nat, id: PlayerID, k: nat)
    requires RoomInv(c, hostKey, r) && r.phase == InGame && TickInputs(r, inputs, n)
    requires k < |r.world.value.st.snakes| && r.world.value.st.snakes[k].id == id && id in r.pending
    requires forall s :: s in r.seats && s.bot ==> s.id != id
    ensures k < |SteeredBy(r.world.value, inputs).st.snakes|
    ensures SteeredBy(r.world.value, inputs).st.snakes[k]
      == Soundness.Steered(r.world.value.st.snakes[k], r.pending[id].dir)
  {
    var w := r.world.value;
    MatchInv(c, hostKey, r);
    SortedAreDistinct(r.matchCfg, w);
    BotsAreOthers(r, inputs[..n], id);
    hide RoomInv, SteeredBy, Soundness.Steered, TickInputs, NotFor, Inv;
    var p := OnlyInputFor(r, inputs, n, id);
    SteeredOnce(w, inputs, p, k);
  }

  lemma BotsAreOthers(r: Room, inputs: seq<Input>, id: PlayerID)
    requires r.world.Some?
    requires r.matchCfg.wrap ==> r.world.value.st.arena.Width() > 0 && r.world.value.st.arena.Height() > 0
    requires BotInputs(r.world.value.st, r.matchCfg, BotsOf(r.seats), inputs)
    requires forall s :: s in r.seats && s.bot ==> s.id != id
    ensures NotFor(inputs, id)
  {
    hide BotInputs, BotsOf;
    forall i | 0 <= i < |inputs|
      ensures inputs[i].0 != id
    {
      BotInputsAreBots(r.world.value.st, r.matchCfg, BotsOf(r.seats), inputs, i);
      var j :| 0 <= j < |BotsOf(r.seats)| && BotsOf(r.seats)[j].id == inputs[i].0;
      var m := BotsOfSubset(r.seats, j);
    }
  }

  // ---- Joining ----

  /** A joiner is let in exactly to an open lobby with a free seat, under a key that decodes and that
      nobody there has. */
  lemma AdmissionIff(e: House, r: Room, who: Joiner)
    ensures Admission(e, r, who) == Granted <==>
      && r.phase == Open && |r.seats| < r.cfg.maxPlayers && who.key != "" && e.keyOk(who.key)
      && forall s :: s in r.seats ==> s.player.pubKey != who.key
  {
  }

  /** A newcomer's seat: who they are, a seat and a palette nobody has, and nothing done yet. */
  ghost predicate SeatOf(seats: seq<Seat>, who: Joiner, now: int, s: Seat) {
    && s.player.pubKey == who.key && s.player.displayName == Names.DisplayName(who.displayName)
    && s.player.login == who.login && s.player.node == who.node
    && s.conn == who.conn && s.lastSeen == now && s.lastInput == 0
    && !s.bot && !s.player.bot && !s.player.host && !s.player.ready && s.player.connected && !s.coasting && !s.signed
    && s.player.seat == s.id
    && forall t :: t in seats ==> t.id != s.id && t.player.palette != s.player.palette
  }

  ghost predicate OneMore(seats: seq<Seat>, seats': seq<Seat>, s: Seat) {
    |seats'| == |seats| + 1 && forall t :: t in seats' <==> t in seats || t == s
  }

  lemma JoinTakesEffect(c: Crypto, hostKey: string, r: Room, who: Joiner, now: int)
    requires RoomInv(c, hostKey, r) && Admission(HouseOf(c, hostKey), r, who) == Granted
    ensures var r' := After(c, r, Join(who, now));
      && r' == r.(seats := r'.seats, log := r'.log, advert := r'.advert)
      && exists s :: SeatOf(r.seats, who, now, s) && OneMore(r.seats, r'.seats, s) && r'.log == r.log + [Joined(s.id)]
  {
    hide RoomInv, Admission, NewSeat, Admit, SeatOf, OneMore, AdvertOf;
    RoomForOneMore(c, hostKey, r, who);
    var s := NewSeat(r.seats, who, now);
    NewSeatIsOf(r.seats, who, now);
    AdmitsOne(r.seats, s);
    assert SeatOf(r.seats, who, now, s) && OneMore(r.seats, Admit(r.seats, s), s);
  }

  lemma NewSeatIsOf(seats: seq<Seat>, who: Joiner, now: int)
    requires |seats| < MAX_PLAYERS
    ensures SeatOf(seats, who, now, NewSeat(seats, who, now))
  {
    hide FreeSeatId, FreePaletteId;
    FreeMeansFree(seats);
  }

  lemma RoomForOneMore(c: Crypto, hostKey: string, r: Room, who: Joiner)
    requires RoomInv(c, hostKey, r) && Admission(HouseOf(c, hostKey), r, who) == Granted
    ensures |r.seats| < MAX_PLAYERS
  {
  }

  lemma AdmitsOne(seats: seq<Seat>, s: Seat)
    ensures OneMore(seats, Admit(seats, s), s)
  {
    hide Admit;
    forall t
      ensures t in Admit(seats, s) <==> t in seats || t == s
    {
      AdmitMembers(seats, s, t);
    }
  }

  // ---- Settings ----

  /** New settings take effect with as many seats as are asked for or people are there, and with the
      bots asked for as far as that leaves a seat; under a new generation; and nobody has agreed to
      them yet. */
  lemma ReconfigureTakesEffect(c: Crypto, hostKey: string, r: Room, name: string, cfg: Config, now: int, es: seq<Event>)
    requires RoomInv(c, hostKey, r) && cfg.Valid() && OnlyComings(es)
    requires r.phase == Open || r.phase == Countdown
    ensures var r' := After(c, r, Reconfigure(name, cfg, now, es)); var people := People(r.seats);
      && r'.cfg.maxPlayers == Max(cfg.maxPlayers, people) && r'.cfg.bots == Min(cfg.bots, r'.cfg.maxPlayers - 1)
      && r'.cfg == cfg.(maxPlayers := r'.cfg.maxPlayers, bots := r'.cfg.bots)
      && r'.gen == r.gen + 1 && r'.phase == Open && r'.name == Names.DisplayName(name)
      && r'.log == r.log + [Settings(r.gen + 1, r'.cfg), Cleared] + es
      && r'.record == r.record && r'.attestUntil == r.attestUntil
      && forall s :: s in r'.seats && !s.bot ==> !s.player.ready
  {
    hide RoomInv, After, Legal, People;
    var m := Reconfigure(name, cfg, now, es);
    ReconfiguredIs(c, r, name, cfg, now, es);
    ReconfigureIsLegal(c, hostKey, r, m);
    MoveKeeps(c, hostKey, r, m);
    NobodyAgreedYet(c, hostKey, After(c, r, m), r.log + [Settings(r.gen + 1, After(c, r, m).cfg), Cleared], es);
  }

  lemma ReconfigureIsLegal(c: Crypto, hostKey: string, r: Room, m: Move)
    requires m.Reconfigure? && m.cfg.Valid() && OnlyComings(m.comings) && (r.phase == Open || r.phase == Countdown)
    ensures Legal(c, hostKey, r, m)
  {
  }

  lemma ReconfiguredIs(c: Crypto, r: Room, name: string, cfg: Config, now: int, es: seq<Event>)
    requires cfg.maxPlayers >= 0
    ensures var r' := After(c, r, Reconfigure(name, cfg, now, es)); var people := People(r.seats);
      && r'.cfg.maxPlayers == Max(cfg.maxPlayers, people) && r'.cfg.bots == Min(cfg.bots, r'.cfg.maxPlayers - 1)
      && r'.cfg == cfg.(maxPlayers := r'.cfg.maxPlayers, bots := r'.cfg.bots)
      && r'.gen == r.gen + 1 && r'.phase == Open && r'.name == Names.DisplayName(name)
      && r'.log == r.log + [Settings(r.gen + 1, r'.cfg), Cleared] + es
      && r'.record == r.record && r'.attestUntil == r.attestUntil
  {
    hide Resettled, Unready, People, AdvertOf, Names.DisplayName;
    Names.RenamedAlways(r.name, name);
  }

  lemma NobodyAgreedYet(c: Crypto, hostKey: string, r: Room, log: seq<Event>, es: seq<Event>)
    requires RoomInv(c, hostKey, r) && r.log == log + es && OnlyComings(es)
    requires |log| > 0 && log[|log|-1].Cleared?
    ensures forall s :: s in r.seats && !s.bot ==> !s.player.ready
  {
    forall s | s in r.seats && !s.bot
      ensures !s.player.ready
    {
      NoneStandsAfter(log, es, s.id);
    }
  }

  lemma {:induction false} NoneStandsAfter(log: seq<Event>, es: seq<Event>, id: PlayerID)
    requires |log| > 0 && log[|log|-1].Cleared? && OnlyComings(es)
    ensures Standing(log + es, id).None?
  {
    if |es| == 0 {
      assert log + es == log;
    } else {
      var n := |es| - 1;
      assert es[n] in es;
      assert (log + es)[..|log| + n] == log + es[..n] && (log + es)[|log| + n] == es[n];
      NoneStandsAfter(log, es[..n], id);
    }
  }

  // ---- The match ----

  lemma BeginTakesEffect(c: Crypto, r: Room, w: World, matchId: string, seed: int, now: int)
    ensures var r' := After(c, r, Begin(w, matchId, seed, now));
      && r'.phase == Countdown && r'.world == Some(w) && r'.matchId == matchId && r'.pending == map[]
      && r'.countdownEnd == now + 3_000_000_000 && r'.matchCfg == r.cfg.(seed := seed)
      && |r'.matchPlayers| == |r.seats| && (forall k :: 0 <= k < |r.seats| ==> r'.matchPlayers[k] == r.seats[k].player)
      && r'.log == r.log + [Began(r'.matchCfg, r'.matchPlayers)]
      && r'.seats == r.seats && r'.record == r.record && r'.attestUntil == r.attestUntil
  {
  }

  lemma PlayTakesEffect(c: Crypto, r: Room, now: int)
    ensures var r' := After(c, r, Play(now));
      && r'.phase == InGame && r'.startedAt == now
      && r' == r.(startedAt := now, phase := InGame, lastCount := 0, log := r'.log, advert := r'.advert)
      && r'.log == r.log + [Entered(r.matchCfg, r.matchPlayers)]
  {
  }
}
