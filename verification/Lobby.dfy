/**
 The lobby as a value, and every elementary change the host makes to it (internal/netplay/host.go).
 A command is a run of such moves. A client too far behind to be sent something loses its seat
 in the middle of whatever is being sent, so drops may follow any move.
 */
module Lobby {
  import opened Types
  import opened World
  import opened Roster
  import opened Records
  import opened Attestation
  import opened MatchReport
  import Movement
  import Names
  import Runs
  import Store

  datatype Option<T> = None | Some(value: T)

  datatype Phase = Open | Countdown | InGame | Closed

  datatype Advert = Advert(name: string, config: Config, seats: int, taken: nat, bots: nat, phase: Phase)

  datatype Pending = Pending(dir: Direction, tick: int)

  /** What is remembered of a run: who asked for what, and what became of it. */
  datatype Event =
    | Settings(gen: int, cfg: Config)
    | Readied(id: PlayerID, key: string, gen: int)
    | Unreadied(id: PlayerID)
    | Cleared
    | Joined(id: PlayerID)
    | Left(id: PlayerID)
    | Began(cfg: Config, roster: seq<Player>)
    | Entered(cfg: Config, roster: seq<Player>)

  datatype Room = Room(
    name: string, cfg: Config, gen: int, phase: Phase, seats: seq<Seat>,
    world: Option<World>, matchCfg: Config, matchPlayers: seq<Player>, matchId: string, startedAt: int,
    pending: map<PlayerID, Pending>, countdownEnd: int, lastCount: int,
    record: Option<Record>, attestUntil: int, advert: Advert, log: seq<Event>)

  // Nanoseconds, as the clock counts them.
  const SECOND := 1_000_000_000
  const COUNTDOWN_SECONDS := 3
  const COAST_AFTER := 4 * SECOND
  const DROP_AFTER := 10 * SECOND
  const ATTEST_WINDOW := 4 * SECOND

  // ---- Parts of moves ----

  function AdvertOf(r: Room): Advert {
    Advert(r.name, r.cfg, r.cfg.maxPlayers, |r.seats|, BotCount(r.seats), r.phase)
  }

  function Refreshed(r: Room): Room { r.(advert := AdvertOf(r)) }

  function Noted(r: Room, e: Event): Room { r.(log := r.log + [e]) }

  function Unready(seats: seq<Seat>): (u: seq<Seat>)
    ensures |u| == |seats|
    ensures forall k :: 0 <= k < |u| ==> u[k] == seats[k].(player := seats[k].player.(ready := seats[k].bot))
  {
    seq(|seats|, k requires 0 <= k < |seats| => seats[k].(player := seats[k].player.(ready := seats[k].bot)))
  }

  function ReadyCleared(r: Room): Room {
    Noted(r.(seats := Unready(r.seats), lastCount := 0), Cleared)
  }

  /** The lobby is open again and nobody is ready: after a match, or a countdown called off. */
  function Reopened(r: Room): Room {
    Refreshed(ReadyCleared(r.(phase := Open)))
  }

  function Aborted(r: Room): Room { Reopened(r.(world := None)) }

  ghost function Forfeited(r: Room, id: PlayerID): Room {
    if r.world.Some? && r.phase == InGame then r.(world := Some(Eliminated(r.world.value, id))) else r
  }

  function Vacated(r: Room, k: nat): Room
    requires k < |r.seats|
  {
    Refreshed(Noted(r.(seats := WithoutAt(r.seats, k)), Left(r.seats[k].id)))
  }

  /** `removeSeat`. */
  ghost function Dropped(r: Room, id: PlayerID): Room {
    var k := SeatIndex(r.seats, id);
    if k < 0 || r.seats[k].player.host then r
    else
      var v := Vacated(Forfeited(r, id), k);
      if r.phase == Countdown then Aborted(v) else v
  }

  /** Seats lost one after another. */
  ghost function Lost(r: Room, ids: seq<PlayerID>): Room {
    if |ids| == 0 then r else Dropped(Lost(r, ids[..|ids|-1]), ids[|ids|-1])
  }

  /** `finalizeRecord`, as far as the lobby goes: the record is taken, some are lost on being sent
      it, and the lobby is open again whatever it was doing. */
  ghost function RecordClosed(r: Room, lost: seq<PlayerID>): Room {
    Reopened(Lost(r.(record := None), lost))
  }

  predicate EveryoneReady(seats: seq<Seat>) {
    |seats| > 0 && BotCount(seats) < |seats| && forall s :: s in seats ==> s.player.ready
  }

  predicate AllSigned(seats: seq<Seat>) {
    forall s :: s in seats && !s.bot ==> s.signed
  }

  /** A record is closed once all still here have signed it, or its time is up. */
  predicate Due(r: Room, now: int) {
    r.record.Some? && (AllSigned(r.seats) || now > r.attestUntil)
  }

  function PlayersOf(seats: seq<Seat>): (players: seq<Player>)
    ensures |players| == |seats| && forall k :: 0 <= k < |seats| ==> players[k] == seats[k].player
  {
    seq(|seats|, k requires 0 <= k < |seats| => seats[k].player)
  }

  /** `setReady`. */
  function ReadySet(r: Room, id: PlayerID, ready: bool, gen: int): Room {
    var k := SeatIndex(r.seats, id);
    if k < 0 || gen != r.gen || r.seats[k].player.ready == ready || (r.phase != Open && r.phase != Countdown) then r
    else
      var s := r.seats[k];
      Noted(r.(seats := r.seats[k := s.(player := s.player.(ready := ready))]),
            if ready then Readied(id, s.player.pubKey, gen) else Unreadied(id))
  }

  /** A quiet client is marked as gone; its snake coasts if it is playing. */
  function Quieted(r: Room, id: PlayerID): Room {
    var k := SeatIndex(r.seats, id);
    var c := if r.world.Some? && r.phase == InGame then r.(world := Some(Coast(r.world.value, id, true))) else r;
    if k < 0 then c
    else
      var s := r.seats[k];
      c.(seats := r.seats[k := s.(coasting := true, player := s.player.(connected := false))])
  }

  /** A client is heard from, and takes its snake back if it had been coasting. */
  function Heard(r: Room, id: PlayerID, now: int): Room {
    var k := SeatIndex(r.seats, id);
    if k < 0 then r
    else
      var s := r.seats[k];
      if !s.coasting then r.(seats := r.seats[k := s.(lastSeen := now)])
      else
        var seen := s.(lastSeen := now, coasting := false, player := s.player.(connected := true));
        var world := if r.world.Some? then Some(Coast(r.world.value, id, false)) else None;
        r.(seats := r.seats[k := seen], world := world)
  }

  ghost function NewSeat(seats: seq<Seat>, who: Joiner, now: int): Seat {
    var id := FreeSeatId(seats);
    Seat(id, Player(id, who.key, Names.DisplayName(who.displayName), who.login, who.node, FreePaletteId(seats),
                    false, false, true, false),
         false, who.conn, now, false, 0, false)
  }

  /** `allocate`, for a key and connection that may be seated. */
  ghost function Seated(r: Room, who: Joiner, now: int): Room {
    var s := NewSeat(r.seats, who, now);
    Refreshed(Noted(r.(seats := Admit(r.seats, s)), Joined(s.id)))
  }

  datatype Joiner = Joiner(conn: nat, key: string, displayName: string, login: string, node: string)

  datatype Refusal = Granted | LobbyGone | InProgress | LobbyFull | NoKey | BadKey | AlreadySeated

  predicate KeySeated(seats: seq<Seat>, key: string) {
    exists s :: s in seats && s.player.pubKey == key
  }

  /** Why a joiner is turned away, in the order the reasons are looked at. */
  function Admission(e: House, r: Room, who: Joiner): Refusal {
    if r.phase == Closed then LobbyGone
    else if r.phase == InGame || r.phase == Countdown then InProgress
    else if |r.seats| >= r.cfg.maxPlayers then LobbyFull
    else if who.key == "" then NoKey
    else if !e.keyOk(who.key) then BadKey
    else if KeySeated(r.seats, who.key) then AlreadySeated
    else Granted
  }

  /** The settings as applied: never fewer seats than people, always one left for a person. */
  function Clamped(cfg: Config, people: int): Config {
    var roomy := if cfg.maxPlayers < people then cfg.(maxPlayers := people) else cfg;
    if roomy.bots > roomy.maxPlayers - 1 then roomy.(bots := roomy.maxPlayers - 1) else roomy
  }

  function People(seats: seq<Seat>): nat { |seats| - BotCount(seats) }

  /** Arrivals and departures only. */
  predicate OnlyComings(es: seq<Event>) {
    forall e :: e in es ==> e.Joined? || e.Left?
  }

  /** `Reconfigure`, once the settings are accepted. The seats filled and emptied on the way are
      noted in the history as they come. */
  ghost function Reconfigured(r: Room, name: string, cfg: Config, now: int, comings: seq<Event>): Room
    requires cfg.maxPlayers >= 0
  {
    var applied := Clamped(cfg, People(r.seats));
    Refreshed(r.(cfg := applied, gen := r.gen + 1, name := Names.Renamed(r.name, name), phase := Open,
                 lastCount := 0, seats := Resettled(Unready(r.seats), applied, now),
                 log := r.log + [Settings(r.gen + 1, applied), Cleared] + comings))
  }

  /** `beginCountdown`, with the simulation it built. */
  function CountdownBegun(r: Room, w: World, matchId: string, seed: int, now: int): Room {
    var cfg := r.cfg.(seed := seed);
    Refreshed(Noted(
      r.(world := Some(w), matchCfg := cfg, matchPlayers := PlayersOf(r.seats), matchId := matchId, pending := map[],
         phase := Countdown, countdownEnd := now + COUNTDOWN_SECONDS * SECOND, lastCount := COUNTDOWN_SECONDS),
      Began(cfg, PlayersOf(r.seats))))
  }

  /** `beginPlay`. */
  function PlayBegun(r: Room, now: int): Room {
    Refreshed(Noted(r.(startedAt := now, phase := InGame, lastCount := 0), Entered(r.matchCfg, r.matchPlayers)))
  }

  type Input = (PlayerID, Direction)

  /** The headings given in one tick, applied in order. */
  function SteeredBy(w: World, inputs: seq<Input>): World {
    if |inputs| == 0 then w
    else Steer(SteeredBy(w, inputs[..|inputs|-1]), inputs[|inputs|-1].0, inputs[|inputs|-1].1)
  }

  /** Each seat's last applied client tick, after the pending inputs are taken. */
  function Acked(seats: seq<Seat>, pending: map<PlayerID, Pending>): (a: seq<Seat>)
    ensures |a| == |seats|
    ensures forall k :: 0 <= k < |a| ==>
      a[k] == if seats[k].id in pending then seats[k].(lastInput := pending[seats[k].id].tick) else seats[k]
  {
    seq(|seats|, k requires 0 <= k < |seats| =>
      if seats[k].id in pending then seats[k].(lastInput := pending[seats[k].id].tick) else seats[k])
  }

  function WorldStepped(r: Room, w: World): Room {
    r.(world := Some(w), seats := Acked(r.seats, r.pending), pending := map[])
  }

  function SignedSet(r: Room, id: PlayerID, signed: bool): Room {
    var k := SeatIndex(r.seats, id);
    if k < 0 then r else r.(seats := r.seats[k := r.seats[k].(signed := signed)])
  }

  /** The finished match's record awaits signatures; the host has given its own. */
  function Filed(r: Room, rec: Record, now: int): Room {
    SignedSet(r.(record := Some(rec), attestUntil := now + ATTEST_WINDOW), 0, true)
  }

  /** `addAttestation`, from a seat whose player holds `seatKey`. */
  ghost function AttestedBy(c: Crypto, r: Room, id: PlayerID, seatKey: string, matchId: string, s: Signature): Room {
    if r.record.None? || matchId != r.record.value.result.matchId || s.pubKey != seatKey
       || !Accepts(c, r.record.value, s)
    then r
    else SignedSet(r.(record := Some(Signed(c, r.record.value, s))), id, true)
  }

  // ---- Moves ----

  datatype Move =
    | Ready(id: PlayerID, ready: bool, gen: int)
    | Queue(id: PlayerID, dir: Direction, tick: int)
    | Drop(id: PlayerID)
    | Quiet(id: PlayerID)
    | Hear(id: PlayerID, now: int)
    | Join(who: Joiner, now: int)
    | Reconfigure(name: string, cfg: Config, now: int, comings: seq<Event>)
    | Begin(w: World, matchId: string, seed: int, now: int)
    | Count(n: int)
    | Abort
    | Play(now: int)
    | Step(inputs: seq<Input>, w: World)
    | Over
    | File(rec: Record, now: int)
    | Unsign(id: PlayerID)
    | Forget
    | Attest(id: PlayerID, seatKey: string, matchId: string, s: Signature)
    | Close(now: int, lost: seq<PlayerID>)
    | Shut

  ghost function After(c: Crypto, r: Room, m: Move): Room {
    match m
    case Ready(id, ready, gen) => ReadySet(r, id, ready, gen)
    case Queue(id, dir, tick) => if r.phase == InGame then r.(pending := r.pending[id := Pending(dir, tick)]) else r
    case Drop(id) => Dropped(r, id)
    case Quiet(id) => Quieted(r, id)
    case Hear(id, now) => Heard(r, id, now)
    case Join(who, now) => Seated(r, who, now)
    case Reconfigure(name, cfg, now, comings) =>
      if cfg.maxPlayers >= 0 then Reconfigured(r, name, cfg, now, comings) else r
    case Begin(w, matchId, seed, now) => CountdownBegun(r, w, matchId, seed, now)
    case Count(n) => r.(lastCount := n)
    case Abort => Aborted(r)
    case Play(now) => PlayBegun(r, now)
    case Step(inputs, w) => WorldStepped(r, w)
    case Over => Reopened(r)
    case File(rec, now) => Filed(r, rec, now)
    case Unsign(id) => SignedSet(r, id, false)
    case Forget => r.(world := None)
    case Attest(id, seatKey, matchId, s) => AttestedBy(c, r, id, seatKey, matchId, s)
    case Close(_, lost) => RecordClosed(r, lost)
    case Shut => Refreshed(r.(phase := Closed))
  }

  ghost predicate OfPerson(seats: seq<Seat>, id: PlayerID) {
    var k := SeatIndex(seats, id);
    k >= 0 ==> !seats[k].bot
  }

  /** Not the seat of a bot of the match that is on: only people have connections that queue
      inputs and can fall silent. */
  ghost predicate NoBotPlays(r: Room, id: PlayerID) {
    r.phase == InGame ==>
      forall k :: 0 <= k < |r.matchPlayers| && r.matchPlayers[k].bot ==> r.matchPlayers[k].seat != id
  }

  /** The simulation `New` builds for the seated players. */
  ghost predicate Built(cfg: Config, seats: seq<Seat>, w: World) {
    Runs.Started(cfg, w) && SnakesOf(PlayersOf(seats), w.st.snakes)
  }

  function HeadingOf(c: Crypto, hostKey: string, r: Room, now: int): Heading {
    Heading(r.matchId, r.name, r.matchCfg, c.formatTime(r.startedAt), c.formatTime(now), hostKey)
  }

  /** The record `endMatch` files: the report of the final state, and the host's signature over its
      hash if that verifies. */
  ghost function FiledRecord(c: Crypto, hostKey: string, r: Room, now: int): Record
    requires r.world.Some?
  {
    var plain := Unsigned(c, Report(HeadingOf(c, hostKey, r, now), r.matchPlayers, r.world.value.st));
    Signed(c, plain, Signature(hostKey, c.sign(plain.hash)))
  }

  ghost predicate FiledFor(c: Crypto, hostKey: string, r: Room, rec: Record, now: int) {
    r.world.Some? && rec == FiledRecord(c, hostKey, r, now)
  }

  ghost function Unsigned(c: Crypto, result: MatchResult): Record {
    Record(result, HashHex(c, result), [])
  }

  /** When the host makes a move. */
  ghost predicate Legal(c: Crypto, hostKey: string, r: Room, m: Move) {
    match m
    case Ready(id, _, _) => OfPerson(r.seats, id)
    case Queue(id, _, _) => NoBotPlays(r, id)
    case Quiet(id) => OfPerson(r.seats, id) && NoBotPlays(r, id)
    case Hear(id, _) => OfPerson(r.seats, id)
    case Join(who, _) => Admission(House(c.keyOk, hostKey), r, who) == Granted && who.conn > 0
    case Reconfigure(_, cfg, _, comings) =>
      (r.phase == Open || r.phase == Countdown) && cfg.Valid() && OnlyComings(comings)
    case Begin(w, matchId, seed, _) =>
      && r.phase == Open && EveryoneReady(r.seats)
      && Built(r.cfg.(seed := seed), r.seats, w) && Store.ValidMatchId(matchId)
    case Count(_) => r.phase == Countdown
    case Abort => r.phase == Countdown
    case Play(now) => r.phase == Countdown && EveryoneReady(r.seats) && now >= r.countdownEnd
    case Step(inputs, w) =>
      && r.phase == InGame && r.world.Some? && r.matchCfg.Valid()
      && Stepped(r.matchCfg, SteeredBy(r.world.value, inputs), w)
    case Over => r.phase == InGame && r.world.Some? && r.world.value.st.over
    case File(rec, now) =>
      r.phase == Open && r.world.Some? && r.world.value.st.over && FiledFor(c, hostKey, r, rec, now)
    case Forget => r.phase == Open
    case Close(now, _) => Due(r, now)
    case _ => true
  }

  ghost function Ran(c: Crypto, r: Room, ms: seq<Move>): Room {
    if |ms| == 0 then r else After(c, Ran(c, r, ms[..|ms|-1]), ms[|ms|-1])
  }

  ghost predicate LegalRun(c: Crypto, hostKey: string, r: Room, ms: seq<Move>) {
    |ms| > 0 ==>
      && LegalRun(c, hostKey, r, ms[..|ms|-1])
      && Legal(c, hostKey, Ran(c, r, ms[..|ms|-1]), ms[|ms|-1])
  }

  /** Only seats dropped for falling behind. */
  predicate OnlyDrops(ms: seq<Move>) {
    forall m :: m in ms ==> m.Drop?
  }

  lemma {:induction false} RanOn(c: Crypto, hostKey: string, r: Room, ms: seq<Move>, ns: seq<Move>)
    ensures Ran(c, r, ms + ns) == Ran(c, Ran(c, r, ms), ns)
    ensures LegalRun(c, hostKey, r, ms + ns)
      <==> LegalRun(c, hostKey, r, ms) && LegalRun(c, hostKey, Ran(c, r, ms), ns)
  {
    hide After, Legal;
    if |ns| == 0 {
      assert ms + ns == ms;
    } else {
      var all := ms + ns;
      assert all[..|all| - 1] == ms + ns[..|ns| - 1];
      RanOn(c, hostKey, r, ms, ns[..|ns| - 1]);
    }
  }
}
