/** The bots of a hosted match: what they decide reaches the simulation, and keeps them alive. */
module HostedBots {
  import opened Types
  import opened World
  import opened Roster
  import opened MatchReport
  import opened Records
  import opened Lobby
  import opened LobbyInvariant
  import opened Consent
  import opened LobbyMoves
  import opened LobbyRuns
  import opened Ticks
  import Bot
  import Movement
  import Soundness

  /** The same snakes, but for the heading each has been given. */
  ghost predicate OnlySteered(s: seq<Snake>, t: seq<Snake>) {
    |t| == |s| && forall i :: 0 <= i < |s| ==> t[i] == s[i].(pending := t[i].pending, hasPending := t[i].hasPending)
  }

  lemma SteerOnly(w: World, id: PlayerID, d: Direction, k: nat)
    requires DistinctIds(w.st.snakes) && k < |w.st.snakes|
    ensures OnlySteered(w.st.snakes, Steer(w, id, d).st.snakes)
    ensures Steer(w, id, d) == w.(st := w.st.(snakes := Steer(w, id, d).st.snakes))
    ensures Steer(w, id, d).st.snakes[k]
      == if w.st.snakes[k].id == id then Soundness.Steered(w.st.snakes[k], d) else w.st.snakes[k]
  {
    IndexOfMember(w.st.snakes, k);
  }

  ghost predicate NotFor(inputs: seq<Input>, id: PlayerID) {
    forall i :: 0 <= i < |inputs| ==> inputs[i].0 != id
  }

  lemma {:induction false} SteeredOthers(w: World, inputs: seq<Input>, k: nat)
    requires DistinctIds(w.st.snakes) && k < |w.st.snakes|
    ensures OnlySteered(w.st.snakes, SteeredBy(w, inputs).st.snakes) && DistinctIds(SteeredBy(w, inputs).st.snakes)
    ensures SteeredBy(w, inputs) == w.(st := w.st.(snakes := SteeredBy(w, inputs).st.snakes))
    ensures NotFor(inputs, w.st.snakes[k].id) ==> SteeredBy(w, inputs).st.snakes[k] == w.st.snakes[k]
  {
    if |inputs| > 0 {
      var n := |inputs| - 1;
      SteeredOthers(w, inputs[..n], k);
      SteerOnly(SteeredBy(w, inputs[..n]), inputs[n].0, inputs[n].1, k);
      hide Steer, Soundness.Steered;
    }
  }

  /** One input for a snake, whatever else is steered in the same tick, is the one it gets. */
  lemma SteeredOnce(w: World, inputs: seq<Input>, p: nat, k: nat)
    requires DistinctIds(w.st.snakes) && k < |w.st.snakes| && p < |inputs| && inputs[p].0 == w.st.snakes[k].id
    requires NotFor(inputs[..p], w.st.snakes[k].id) && NotFor(inputs[p + 1..], w.st.snakes[k].id)
    ensures k < |SteeredBy(w, inputs).st.snakes|
    ensures SteeredBy(w, inputs).st.snakes[k] == Soundness.Steered(w.st.snakes[k], inputs[p].1)
  {
    hide Soundness.Steered, NotFor, SteeredBy, Steer;
    var before := SteeredBy(w, inputs[..p]);
    SteeredOthers(w, inputs[..p], k);
    SteerOnly(before, inputs[p].0, inputs[p].1, k);
    var there := Steer(before, inputs[p].0, inputs[p].1);
    SteeredByOne(w, inputs[..p], inputs[p].0, inputs[p].1);
    assert there.st.snakes[k].id == w.st.snakes[k].id by { SteeredSameId(before.st.snakes[k], inputs[p].1); }
    SteerDistinct(before, inputs[p].0, inputs[p].1);
    SteeredOthers(there, inputs[p + 1..], k);
    SteeredByMore(w, inputs[..p] + [(inputs[p].0, inputs[p].1)], inputs[p + 1..]);
    assert inputs == inputs[..p] + [(inputs[p].0, inputs[p].1)] + inputs[p + 1..];
  }

  lemma SteeredSameId(sn: Snake, d: Direction)
    ensures Soundness.Steered(sn, d).id == sn.id
  {
  }

  lemma SteerDistinct(w: World, id: PlayerID, d: Direction)
    requires DistinctIds(w.st.snakes)
    ensures DistinctIds(Steer(w, id, d).st.snakes)
  {
  }

  // ---- The bots' inputs ----

  ghost predicate DistinctSeats(seats: seq<Seat>) {
    forall i, j :: 0 <= i < j < |seats| ==> seats[i].id != seats[j].id
  }

  lemma {:induction false} BotInputsAreBots(st: State, cfg: Config, bots: seq<Seat>, inputs: seq<Input>, i: nat)
    requires cfg.wrap ==> st.arena.Width() > 0 && st.arena.Height() > 0
    requires BotInputs(st, cfg, bots, inputs) && i < |inputs|
    ensures exists j :: 0 <= j < |bots| && bots[j].id == inputs[i].0
    decreases |bots|
  {
    hide Chosen, Playing;
    var n := |bots| - 1;
    if Playing(st, bots[n].id) {
      if i < |inputs| - 1 {
        BotInputsAreBots(st, cfg, bots[..n], inputs[..|inputs| - 1], i);
      }
    } else {
      BotInputsAreBots(st, cfg, bots[..n], inputs, i);
    }
  }

  /** Each bot still playing has one input among the bots', of its own choosing. */
  lemma {:induction false} BotInputOnce(st: State, cfg: Config, bots: seq<Seat>, inputs: seq<Input>, b: nat)
      returns (p: nat)
    requires cfg.wrap ==> st.arena.Width() > 0 && st.arena.Height() > 0
    requires BotInputs(st, cfg, bots, inputs) && DistinctSeats(bots) && b < |bots| && Playing(st, bots[b].id)
    ensures p < |inputs| && inputs[p].0 == bots[b].id && Chosen(st, cfg, bots[b].id, inputs[p].1)
    ensures NotFor(inputs[..p], bots[b].id) && NotFor(inputs[p + 1..], bots[b].id)
    decreases |bots|
  {
    hide Chosen, Playing;
    var n := |bots| - 1;
    var last := if Playing(st, bots[n].id) then |inputs| - 1 else |inputs|;
    var rest := inputs[..last];
    assert inputs[..|inputs|] == inputs;
    assert BotInputs(st, cfg, bots[..n], rest);
    if b == n {
      p := last;
      forall i: nat | i < |rest|
        ensures rest[i].0 != bots[b].id
      {
        BotInputsAreBots(st, cfg, bots[..n], rest, i);
      }
    } else {
      p := BotInputOnce(st, cfg, bots[..n], rest, b);
      assert inputs[..p] == rest[..p];
      var later := inputs[p + 1..];
      forall i | 0 <= i < |later|
        ensures later[i].0 != bots[b].id
      {
        if p + 1 + i < last {
          assert later[i] == rest[p + 1..][i];
        }
      }
    }
  }

  lemma {:induction false} BotsOfMembers(seats: seq<Seat>, b: nat) returns (j: nat)
    requires b < |seats| && seats[b].bot
    ensures j < |BotsOf(seats)| && BotsOf(seats)[j] == seats[b]
  {
    var n := |seats| - 1;
    if b == n {
      j := |BotsOf(seats)| - 1;
    } else {
      j := BotsOfMembers(seats[..n], b);
    }
  }

  lemma {:induction false} BotsOfSubset(seats: seq<Seat>, j: nat) returns (i: nat)
    requires j < |BotsOf(seats)|
    ensures i < |seats| && seats[i] == BotsOf(seats)[j] && seats[i].bot
  {
    var n := |seats| - 1;
    if j < |BotsOf(seats[..n])| {
      i := BotsOfSubset(seats[..n], j);
    } else {
      i := n;
    }
  }

  lemma {:induction false} BotsOfDistinct(seats: seq<Seat>)
    requires Ascending(seats)
    ensures DistinctSeats(BotsOf(seats))
  {
    if |seats| > 0 {
      var n := |seats| - 1;
      BotsOfDistinct(seats[..n]);
      var bots := BotsOf(seats[..n]);
      forall j | 0 <= j < |bots|
        ensures bots[j].id != seats[n].id
      {
        var i := BotsOfSubset(seats[..n], j);
        assert seats[i].id < seats[n].id;
      }
    }
  }

  /** What reaches a bot's snake in a tick is what the bot chose for the state at its top. */
  lemma ChoiceArrives(c: Crypto, hostKey: string, r: Room, inputs: seq<Input>, n: nat, b: nat, k: nat)
      returns (d: Direction)
    requires RoomInv(c, hostKey, r) && r.phase == InGame && TickInputs(r, inputs, n)
    requires b < |r.seats| && r.seats[b].bot && k < |r.world.value.st.snakes|
    requires r.world.value.st.snakes[k].id == r.seats[b].id && r.world.value.st.snakes[k].alive
    requires DistinctIds(r.world.value.st.snakes)
    ensures Chosen(r.world.value.st, r.matchCfg, r.seats[b].id, d)
    ensures k < |SteeredBy(r.world.value, inputs).st.snakes|
    ensures SteeredBy(r.world.value, inputs).st.snakes[k] == Soundness.Steered(r.world.value.st.snakes[k], d)
  {
    hide RoomInv, Chosen, BotInputs, BotsOf, SteeredBy, SeatsOk, Soundness.Steered, PendingInputs;
    var w, id := r.world.value, r.seats[b].id;
    SeatsOkOf(c, hostKey, r);
    BotHasNoPending(c, hostKey, r, b);
    var j := BotsOfMembers(r.seats, b);
    BotsOfDistinct(r.seats);
    IndexOfMember(w.st.snakes, k);
    var p := BotInputOnce(w.st, r.matchCfg, BotsOf(r.seats), inputs[..n], j);
    d := inputs[p].1;
    assert inputs[..n][..p] == inputs[..p];
    AfterBots(inputs, n, p, id, r.pending);
    SteeredOnce(w, inputs, p, k);
  }

  lemma AfterBots(inputs: seq<Input>, n: nat, p: nat, id: PlayerID, pending: map<PlayerID, Pending>)
    requires p < n <= |inputs| && NotFor(inputs[..n][p + 1..], id) && PendingInputs(pending, inputs[n..])
    requires id !in pending
    ensures NotFor(inputs[p + 1..], id)
  {
    var later := inputs[p + 1..];
    forall i | 0 <= i < |later|
      ensures later[i].0 != id
    {
      if p + 1 + i < n {
        assert later[i] == inputs[..n][p + 1..][i];
      } else {
        assert later[i] == inputs[n..][p + 1 + i - n];
      }
    }
  }

  lemma BotHasNoPending(c: Crypto, hostKey: string, r: Room, b: nat)
    requires RoomInv(c, hostKey, r) && r.phase == InGame && b < |r.seats| && r.seats[b].bot
    ensures r.seats[b].id !in r.pending
  {
    var s, players := r.seats[b], r.matchPlayers;
    hide LogOk, RecordOk, RosterOk, SimOk;
    assert s in r.seats && TakesPart(s, players);
    var j :| 0 <= j < |players| && SamePerson(s, players[j]);
    assert PendingOk(r);
  }

  /** The snake of a seated bot is never coasting. */
  lemma BotNeverCoasts(c: Crypto, hostKey: string, r: Room, b: nat, k: nat)
    requires RoomInv(c, hostKey, r) && r.phase == InGame && b < |r.seats| && r.seats[b].bot
    requires k < |r.world.value.st.snakes| && r.world.value.st.snakes[k].id == r.seats[b].id
    ensures !r.world.value.st.snakes[k].coasting
  {
    var s, players := r.seats[b], r.matchPlayers;
    hide LogOk, RecordOk, RosterOk, Inv;
    assert s in r.seats && TakesPart(s, players);
    var j :| 0 <= j < |players| && SamePerson(s, players[j]);
    LineupSeatsDiffer(HouseOf(c, hostKey), players, j, k);
  }

  lemma SteeredPleases(cfg: Config, w: World, v: World, k: nat, d: Direction)
    requires Inv(cfg, v) && OnlySteered(w.st.snakes, v.st.snakes) && v == w.(st := w.st.(snakes := v.st.snakes))
    requires Movement.Lives(w.st, k) && v.st.snakes[k] == Soundness.Steered(w.st.snakes[k], d)
    ensures Bot.OthersDoAsTheyPlease(w.st, Ticked(v).st, cfg.wrap, k, d)
    ensures Movement.Playable(Ticked(v).st, cfg.wrap)
  {
    Soundness.SoundIsPlayable(cfg, v.st);
    assert Movement.Playable(Ticked(v).st, cfg.wrap);
    forall j | Movement.Lives(Ticked(v).st, j)
      ensures Movement.Turned(Ticked(v).st.snakes[j]).dir <= LEFT
    {
      assert Movement.Lives(v.st, j) && Soundness.HeadingOk(v.st.arena, cfg.wrap, v.st.snakes[j]);
    }
  }

  lemma SurvivorLives(cfg: Config, t: World, food: seq<Point>, k: nat)
    requires Movement.Playable(t.st, cfg.wrap) && Movement.Survives(t.st, cfg.wrap, k)
    ensures k < |AfterMove(cfg, t, food).st.snakes| && AfterMove(cfg, t, food).st.snakes[k].alive
  {
    hide Movement.Doomed, Movement.Credits, Rank, Movement.Dies, Movement.FoodLeft;
  }

  /** A bot of a hosted match that has any move neither fatal nor contested is alive after the
      tick, whatever everybody else asked for in it. */
  lemma HostedBotSurvives(c: Crypto, hostKey: string, r: Room, inputs: seq<Input>, n: nat, w: World,
                          b: nat, k: nat, safe: Direction)
    requires RoomInv(c, hostKey, r) && r.phase == InGame && TickInputs(r, inputs, n)
    requires Legal(c, hostKey, r, Step(inputs, w))
    requires b < |r.seats| && r.seats[b].bot && k < |r.world.value.st.snakes|
    requires r.world.value.st.snakes[k].id == r.seats[b].id
    requires r.world.value.st.snakes[k].alive && |r.world.value.st.snakes[k].body| > 0
    requires Bot.Candidate(r.world.value.st, r.matchCfg.wrap, k, safe)
    requires !Bot.OptionOf(r.world.value.st, r.matchCfg.wrap, k, safe).risky
    ensures k < |w.st.snakes| && w.st.snakes[k].alive
  {
    var cfg, was := r.matchCfg, r.world.value;
    MatchInv(c, hostKey, r);
    BotNeverCoasts(c, hostKey, r, b, k);
    SortedAreDistinct(cfg, was);
    hide RoomInv, Bot.Candidate, Bot.Best, TickInputs, Inv, Legal, SteeredBy;
    var d := ChoiceArrives(c, hostKey, r, inputs, n, b, k);
    var v := SteeredBy(was, inputs);
    SteeredByKeepsInv(cfg, was, inputs);
    SteeredOthers(was, inputs, k);
    SteeredPleases(cfg, was, v, k, d);
    IndexOfMember(was.st.snakes, k);
    assert Bot.Best(was.st, cfg.wrap, k, d);
    InvIsSound(cfg, was);
    Bot.BotSurvives(cfg, was.st, Ticked(v).st, k, d, safe);
    LegalStep(c, hostKey, r, inputs, w);
    hide Stepped;
    AliveAfterStep(cfg, v, w, k);
  }

  lemma MatchInv(c: Crypto, hostKey: string, r: Room)
    requires RoomInv(c, hostKey, r) && r.world.Some?
    ensures Inv(r.matchCfg, r.world.value)
  {
  }

  lemma SortedAreDistinct(cfg: Config, w: World)
    requires Inv(cfg, w)
    ensures DistinctIds(w.st.snakes)
  {
  }

  lemma InvIsSound(cfg: Config, w: World)
    requires Inv(cfg, w)
    ensures Soundness.Sound(cfg, w.st)
  {
  }

  lemma LegalStep(c: Crypto, hostKey: string, r: Room, inputs: seq<Input>, w: World)
    requires Legal(c, hostKey, r, Step(inputs, w))
    ensures r.matchCfg.Valid() && r.world.Some? && Stepped(r.matchCfg, SteeredBy(r.world.value, inputs), w)
  {
  }

  lemma AliveAfterStep(cfg: Config, v: World, w: World, k: nat)
    requires cfg.Valid() && Stepped(cfg, v, w) && Movement.Lives(v.st, k)
    requires Movement.Playable(Ticked(v).st, cfg.wrap) && Movement.Survives(Ticked(v).st, cfg.wrap, k)
    ensures k < |w.st.snakes| && w.st.snakes[k].alive
  {
    if MovesNow(cfg, v) {
      SurvivorLives(cfg, Ticked(v), w.st.food, k);
      hide AfterMove, Movement.Moved, Movement.Replenished;
    }
  }
}
