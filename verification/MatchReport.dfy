/** The result a finished match is recorded as (`buildResult` of internal/netplay/host.go). */
module MatchReport {
  import opened Types
  import opened World
  import opened Records
  import opened Attestation
  import opened Roster
  import Bookkeeping
  import Soundness
  import Sorting
  import Text

  /** Somebody at kickoff whose snake and record this is. */
  function ParticipantOf(p: Player): Participant {
    Participant(p.pubKey, p.displayName, p.login, p.node, p.seat)
  }

  function PlacementOf(p: Player, sn: Snake, finalTick: int): Placement {
    Placement(p.pubKey, sn.placement, sn.maxLength, sn.score, sn.kills,
              if sn.diedAtTick < 0 then finalTick else sn.diedAtTick)
  }

  function Participants(players: seq<Player>): seq<Participant> {
    if |players| == 0 then []
    else
      var p := players[|players|-1];
      Participants(players[..|players|-1]) + (if p.bot then [] else [ParticipantOf(p)])
  }

  function BotsAmong(players: seq<Player>): nat {
    if |players| == 0 then 0
    else BotsAmong(players[..|players|-1]) + (if players[|players|-1].bot then 1 else 0)
  }

  /** The index of the last person listed in a seat, or -1. */
  function PersonIn(players: seq<Player>, id: PlayerID): (k: int)
    ensures -1 <= k < |players|
    ensures k >= 0 ==> !players[k].bot && players[k].seat == id
    ensures forall j :: k < j < |players| ==> players[j].bot || players[j].seat != id
  {
    if |players| == 0 then -1
    else if !players[|players|-1].bot && players[|players|-1].seat == id then |players| - 1
    else PersonIn(players[..|players|-1], id)
  }

  function Placements(players: seq<Player>, snakes: seq<Snake>, finalTick: int): seq<Placement> {
    if |snakes| == 0 then []
    else
      var sn := snakes[|snakes|-1];
      var k := PersonIn(players, sn.id);
      Placements(players, snakes[..|snakes|-1], finalTick)
      + (if k < 0 then [] else [PlacementOf(players[k], sn, finalTick)])
  }

  /** What the result says besides who played and how they fared. */
  datatype Heading = Heading(
    matchId: string, lobbyName: string, config: Config, startedAt: string, endedAt: string, hostKey: string)

  function Drafted(h: Heading, players: seq<Player>, final: State): MatchResult {
    MatchResult(VERSION, h.matchId, h.lobbyName, h.config.(bots := BotsAmong(players)), h.startedAt, h.endedAt,
                h.hostKey, Participants(players), Placements(players, final.snakes, final.tick))
  }

  function Report(h: Heading, players: seq<Player>, final: State): MatchResult {
    Normalize(Drafted(h, players, final))
  }

  /** `buildResult`. */
  method BuildResult(h: Heading, players: seq<Player>, final: State) returns (r: MatchResult)
    ensures r == Report(h, players, final)
  {
    var bySeat, bots := SeatMap(players);
    var participants: seq<Participant> := [];
    for i := 0 to |players|
      invariant participants == Participants(players[..i])
    {
      assert players[..i + 1][..i] == players[..i];
      if !players[i].bot {
        participants := participants + [ParticipantOf(players[i])];
      }
    }
    assert players[..|players|] == players;
    var placements: seq<Placement> := [];
    for i := 0 to |final.snakes|
      invariant placements == Placements(players, final.snakes[..i], final.tick)
    {
      assert final.snakes[..i + 1][..i] == final.snakes[..i];
      var sn := final.snakes[i];
      if sn.id in bySeat {
        var survival := sn.diedAtTick;
        if survival < 0 {
          survival := final.tick;
        }
        var p := bySeat[sn.id];
        placements := placements + [Placement(p.pubKey, sn.placement, sn.maxLength, sn.score, sn.kills, survival)];
      }
    }
    assert final.snakes[..|final.snakes|] == final.snakes;
    r := Normalize(MatchResult(VERSION, h.matchId, h.lobbyName, h.config.(bots := bots), h.startedAt, h.endedAt,
                               h.hostKey, participants, placements));
  }

  method SeatMap(players: seq<Player>) returns (bySeat: map<PlayerID, Player>, bots: nat)
    ensures forall id :: id in bySeat <==> PersonIn(players, id) >= 0
    ensures forall id :: id in bySeat ==> bySeat[id] == players[PersonIn(players, id)]
    ensures bots == BotsAmong(players)
  {
    assert forall id :: PersonIn(players[..0], id) == -1;
    assert BotsAmong(players[..0]) == 0;
    hide PersonIn, BotsAmong;
    bySeat, bots := map[], 0;
    for i := 0 to |players|
      invariant forall id :: id in bySeat <==> PersonIn(players[..i], id) >= 0
      invariant forall id :: id in bySeat ==> bySeat[id] == players[PersonIn(players[..i], id)]
      invariant bots == BotsAmong(players[..i])
    {
      BotsAmongNext(players, i);
      forall id
        ensures PersonIn(players[..i + 1], id)
          == if !players[i].bot && players[i].seat == id then i else PersonIn(players[..i], id)
      {
        PersonInNext(players, i, id);
      }
      if players[i].bot {
        bots := bots + 1;
      } else {
        bySeat := bySeat[players[i].seat := players[i]];
      }
    }
    assert players[..|players|] == players;
  }

  lemma PersonInNext(players: seq<Player>, i: nat, id: PlayerID)
    requires i < |players|
    ensures PersonIn(players[..i + 1], id)
      == if !players[i].bot && players[i].seat == id then i else PersonIn(players[..i], id)
  {
    assert players[..i + 1][..i] == players[..i];
  }

  lemma BotsAmongNext(players: seq<Player>, i: nat)
    requires i < |players|
    ensures BotsAmong(players[..i + 1]) == BotsAmong(players[..i]) + (if players[i].bot then 1 else 0)
  {
    assert players[..i + 1][..i] == players[..i];
  }

  // ---- Who is in the record ----

  ghost predicate SeatsAscend(players: seq<Player>) {
    forall i, j :: 0 <= i < j < |players| ==> players[i].seat < players[j].seat
  }

  ghost predicate KeysDiffer(players: seq<Player>) {
    forall i, j :: 0 <= i < j < |players| && !players[i].bot && !players[j].bot ==>
      players[i].pubKey != players[j].pubKey
  }

  /** A line-up a match can be recorded for. */
  ghost predicate LineupOk(e: House, players: seq<Player>) {
    && |players| > 0 && !players[0].bot && players[0].pubKey == e.hostKey && players[0].seat == 0
    && SeatsAscend(players) && KeysDiffer(players)
    && forall k :: 0 <= k < |players| && !players[k].bot ==> players[k].pubKey != "" && e.keyOk(players[k].pubKey)
  }

  /** The snakes are the line-up's, in seat order. */
  ghost predicate SnakesOf(players: seq<Player>, snakes: seq<Snake>) {
    |snakes| == |players| && forall k :: 0 <= k < |players| ==> snakes[k].id == players[k].seat
  }

  lemma {:induction false} ParticipantsAre(players: seq<Player>, x: Participant)
    ensures x in Participants(players)
      <==> exists k :: 0 <= k < |players| && !players[k].bot && x == ParticipantOf(players[k])
  {
    if |players| > 0 {
      var init, p := players[..|players|-1], players[|players|-1];
      ParticipantsAre(init, x);
      if k :| 0 <= k < |init| && !init[k].bot && x == ParticipantOf(init[k]) {
        assert !players[k].bot && x == ParticipantOf(players[k]);
      }
      if k :| 0 <= k < |players| && !players[k].bot && x == ParticipantOf(players[k]) {
        if k < |init| {
          assert !init[k].bot && x == ParticipantOf(init[k]);
        }
      }
    }
  }

  lemma {:induction false} ParticipantKeysDiffer(players: seq<Player>)
    requires KeysDiffer(players)
    ensures Text.DistinctKeys(PubKeyOf, Participants(players))
  {
    if |players| > 0 {
      var n := |players| - 1;
      var init, p := players[..n], players[n];
      ParticipantKeysDiffer(init);
      var rest := Participants(init);
      forall a | 0 <= a < |rest| && !p.bot
        ensures rest[a].pubKey != p.pubKey
      {
        ParticipantsAre(init, rest[a]);
        assert rest[a] in rest;
        var k :| 0 <= k < |init| && !init[k].bot && rest[a] == ParticipantOf(init[k]);
        assert !players[k].bot;
      }
    }
  }

  lemma PersonAt(players: seq<Player>, k: nat)
    requires SeatsAscend(players) && k < |players|
    ensures PersonIn(players, players[k].seat) == if players[k].bot then -1 else k
  {
    var j := PersonIn(players, players[k].seat);
    assert j >= 0 ==> j == k;
  }

  /** The snakes up to n stand in the placements once each, next to their players. */
  lemma {:induction false} PlacementsAre(players: seq<Player>, snakes: seq<Snake>, tick: int, n: nat, x: Placement)
    requires SeatsAscend(players) && SnakesOf(players, snakes) && n <= |snakes|
    ensures x in Placements(players, snakes[..n], tick)
      <==> exists k :: 0 <= k < n && !players[k].bot && x == PlacementOf(players[k], snakes[k], tick)
  {
    if n > 0 {
      assert snakes[..n][..n - 1] == snakes[..n - 1];
      PlacementsAre(players, snakes, tick, n - 1, x);
      PersonAt(players, n - 1);
      if k :| 0 <= k < n && !players[k].bot && x == PlacementOf(players[k], snakes[k], tick) {
        assert k == n - 1 || k < n - 1;
      }
    }
  }

  function PlacementKey(p: Placement): string { p.pubKey }

  lemma {:induction false} PlacementKeysDiffer(players: seq<Player>, snakes: seq<Snake>, tick: int, n: nat)
    requires SeatsAscend(players) && KeysDiffer(players) && SnakesOf(players, snakes) && n <= |snakes|
    ensures Text.DistinctKeys(PlacementKey, Placements(players, snakes[..n], tick))
  {
    if n > 0 {
      assert snakes[..n][..n - 1] == snakes[..n - 1];
      PlacementKeysDiffer(players, snakes, tick, n - 1);
      PersonAt(players, n - 1);
      var rest := Placements(players, snakes[..n - 1], tick);
      forall a | 0 <= a < |rest| && !players[n - 1].bot
        ensures rest[a].pubKey != players[n - 1].pubKey
      {
        assert rest[a] in rest;
        PlacementsAre(players, snakes, tick, n - 1, rest[a]);
      }
    }
  }

  ghost predicate OnlyAt<T(!new)>(key: T -> string, s: seq<T>, i: int, x: T) {
    0 <= i < |s| && s[i] == x && forall j :: 0 <= j < |s| && key(s[j]) == key(x) ==> j == i
  }

  lemma FoundOnce<T(!new)>(key: T -> string, s: seq<T>, x: T)
    requires Text.DistinctKeys(key, s) && x in s
    ensures exists i :: OnlyAt(key, s, i, x)
  {
    var i :| 0 <= i < |s| && s[i] == x;
    assert OnlyAt(key, s, i, x);
  }

  /** Everybody who was there at kickoff is in the record exactly once as a participant, and
      exactly once in the placements, with what became of their own snake. */
  lemma EverybodyRecordedOnce(h: Heading, players: seq<Player>, final: State, k: nat)
    requires SeatsAscend(players) && KeysDiffer(players) && SnakesOf(players, final.snakes)
    requires k < |players| && !players[k].bot
    ensures exists i :: OnlyAt(PubKeyOf, Report(h, players, final).participants, i, ParticipantOf(players[k]))
    ensures exists i :: OnlyAt(PlacementKey, Report(h, players, final).placements, i,
                               PlacementOf(players[k], final.snakes[k], final.tick))
  {
    var draft, r := Drafted(h, players, final), Report(h, players, final);
    hide OnlyAt, Drafted;
    ListsOfDraft(h, players, final);
    ParticipantKeysDiffer(players);
    Text.KeysStayDistinct(PubKeyOf, draft.participants, r.participants);
    ParticipantsAre(players, ParticipantOf(players[k]));
    Sorting.SameMembers(draft.participants, r.participants);
    FoundOnce(PubKeyOf, r.participants, ParticipantOf(players[k]));
    PlacementKeysDiffer(players, final.snakes, final.tick, |final.snakes|);
    Text.KeysStayDistinct(PlacementKey, draft.placements, r.placements);
    PlacementsAre(players, final.snakes, final.tick, |final.snakes|,
                  PlacementOf(players[k], final.snakes[k], final.tick));
    Sorting.SameMembers(draft.placements, r.placements);
    FoundOnce(PlacementKey, r.placements, PlacementOf(players[k], final.snakes[k], final.tick));
  }

  lemma ListsOfDraft(h: Heading, players: seq<Player>, final: State)
    ensures Drafted(h, players, final).participants == Participants(players)
    ensures Drafted(h, players, final).placements == Placements(players, final.snakes[..|final.snakes|], final.tick)
  {
    assert final.snakes[..|final.snakes|] == final.snakes;
  }

  /** Nobody else is in it. */
  lemma NobodyElseRecorded(h: Heading, players: seq<Player>, final: State)
    requires SeatsAscend(players) && SnakesOf(players, final.snakes)
    ensures forall x :: x in Report(h, players, final).participants <==>
      exists k :: 0 <= k < |players| && !players[k].bot && x == ParticipantOf(players[k])
    ensures forall x :: x in Report(h, players, final).placements <==>
      exists k :: 0 <= k < |players| && !players[k].bot && x == PlacementOf(players[k], final.snakes[k], final.tick)
  {
    var draft, r := Drafted(h, players, final), Report(h, players, final);
    ListsOfDraft(h, players, final);
    Sorting.SameMembers(draft.participants, r.participants);
    Sorting.SameMembers(draft.placements, r.placements);
    forall x
      ensures x in r.participants <==>
        exists k :: 0 <= k < |players| && !players[k].bot && x == ParticipantOf(players[k])
    {
      ParticipantsAre(players, x);
    }
    forall x
      ensures x in r.placements <==>
        exists k :: 0 <= k < |players| && !players[k].bot && x == PlacementOf(players[k], final.snakes[k], final.tick)
    {
      PlacementsAre(players, final.snakes, final.tick, |final.snakes|, x);
    }
  }

  /** No two people share a place, and the places are those of the finished match. */
  lemma PlacesRecordedDiffer(h: Heading, players: seq<Player>, w: World, x: Placement, y: Placement)
    requires SeatsAscend(players) && SnakesOf(players, w.st.snakes) && Ledger(w) && w.finished
    requires x in Report(h, players, w.st).placements && y in Report(h, players, w.st).placements
    requires x.pubKey != y.pubKey
    ensures x.place != y.place && 1 <= x.place <= |players|
  {
    hide Ledger, Report;
    NobodyElseRecorded(h, players, w.st);
    var i :| 0 <= i < |players| && !players[i].bot && x == PlacementOf(players[i], w.st.snakes[i], w.st.tick);
    var j :| 0 <= j < |players| && !players[j].bot && y == PlacementOf(players[j], w.st.snakes[j], w.st.tick);
    Bookkeeping.PlacementsRankEverybody(w, i, j);
  }

  /** An entry of this player that says of their snake what the match's books say: the cells it ended
      with, of which all but the first three were eaten two a pellet; its kills; and how long it lived. */
  ghost predicate Figures(x: Placement, key: string, sn: Snake, tick: int) {
    && x.pubKey == key && x.place == sn.placement
    && x.length == |sn.body| && x.length + sn.grow == 3 + 2 * x.score && 3 <= x.length <= 3 + 2 * x.score
    && x.kills == sn.kills && x.survivalTicks == (if sn.alive then tick else sn.diedAtTick)
  }

  lemma FiguresRecorded(h: Heading, players: seq<Player>, cfg: Config, w: World, k: nat)
    requires SeatsAscend(players) && KeysDiffer(players) && SnakesOf(players, w.st.snakes)
    requires Inv(cfg, w) && w.finished && k < |players| && !players[k].bot
    ensures var ps, sn := Report(h, players, w.st).placements, w.st.snakes[k];
      && (exists i :: 0 <= i < |ps| && Figures(ps[i], players[k].pubKey, sn, w.st.tick))
      && 0 <= (if sn.alive then w.st.tick else sn.diedAtTick) <= w.st.tick
      && TotalKills(w.st.snakes) <= |w.deathOrder|
  {
    hide Report, OnlyAt;
    EverybodyRecordedOnce(h, players, w.st, k);
    var ps, x := Report(h, players, w.st).placements, PlacementOf(players[k], w.st.snakes[k], w.st.tick);
    var i :| OnlyAt(PlacementKey, ps, i, x);
    OnlyIsThere(PlacementKey, ps, i, x);
    BookedFigures(cfg, w, k);
    assert Figures(ps[i], players[k].pubKey, w.st.snakes[k], w.st.tick);
  }

  // ---- What the report says ----

  /** Under this key, name and device, in this seat. */
  ghost predicate Details(x: Participant, p: Player) {
    x.pubKey == p.pubKey && x.displayName == p.displayName && x.login == p.login && x.node == p.node && x.seat == p.seat
  }

  lemma PeopleRecorded(h: Heading, players: seq<Player>, final: State, k: nat)
    requires SeatsAscend(players) && KeysDiffer(players) && SnakesOf(players, final.snakes)
    requires k < |players| && !players[k].bot
    ensures var xs := Report(h, players, final).participants;
      exists i :: 0 <= i < |xs| && Details(xs[i], players[k])
  {
    hide Report, OnlyAt;
    EverybodyRecordedOnce(h, players, final, k);
    var xs, x := Report(h, players, final).participants, ParticipantOf(players[k]);
    var i :| OnlyAt(PubKeyOf, xs, i, x);
    OnlyIsThere(PubKeyOf, xs, i, x);
    assert Details(xs[i], players[k]);
  }

  ghost function BotSeatsOf(players: seq<Player>): set<int> {
    set i | 0 <= i < |players| && players[i].bot
  }

  lemma {:induction false} BotsCounted(players: seq<Player>)
    ensures BotsAmong(players) == |BotSeatsOf(players)|
  {
    if |players| == 0 {
      assert BotSeatsOf(players) == {};
    } else {
      var n := |players| - 1;
      BotsCounted(players[..n]);
      if players[n].bot {
        assert BotSeatsOf(players) == BotSeatsOf(players[..n]) + {n};
      } else {
        assert BotSeatsOf(players) == BotSeatsOf(players[..n]);
      }
    }
  }

  /** Besides its lists: version 1, the match as it was announced and played, and as many bots as there
      were, whatever number was asked for. */
  lemma HeadingRecorded(h: Heading, players: seq<Player>, final: State)
    ensures var r := Report(h, players, final);
      && r.version == 1 && r.matchId == h.matchId && r.lobbyName == h.lobbyName
      && r.startedAt == h.startedAt && r.endedAt == h.endedAt && r.hostPubKey == h.hostKey
      && r.config == h.config.(bots := |BotSeatsOf(players)|)
  {
    BotsCounted(players);
    hide Participants, Placements;
  }

  lemma OnlyIsThere<T(!new)>(key: T -> string, s: seq<T>, i: int, x: T)
    requires OnlyAt(key, s, i, x)
    ensures 0 <= i < |s| && s[i] == x
  {
  }

  lemma BookedFigures(cfg: Config, w: World, k: nat)
    requires Inv(cfg, w) && k < |w.st.snakes|
    ensures var sn := w.st.snakes[k];
      && sn.maxLength == |sn.body| >= 3 && |sn.body| + sn.grow == 3 + 2 * sn.score && sn.grow >= 0
      && (if sn.alive then sn.diedAtTick == -1 else 0 <= sn.diedAtTick <= w.st.tick)
      && w.st.tick >= 0 && TotalKills(w.st.snakes) <= |w.deathOrder|
  {
    hide DeathsOk, PlacementsOk, TotalKills, Decided, Soundness.HeadingOk, Soundness.Apart, Soundness.FoodOk;
    assert Soundness.BodyOk(w.st.arena, cfg.wrap, w.st.snakes[k].body) && GrowthLedger(w.st.snakes[k]);
  }

  /** The result of a match with a proper line-up always passes validation. */
  lemma ReportIsValid(c: Crypto, h: Heading, players: seq<Player>, final: State)
    requires LineupOk(House(c.keyOk, h.hostKey), players) && SnakesOf(players, final.snakes) && h.matchId != ""
    ensures ValidResult(c, Report(h, players, final))
  {
    var r := Report(h, players, final);
    hide OnlyAt;
    NobodyElseRecorded(h, players, final);
    ReportHeading(h, players, final);
    hide Report;
    forall k | 0 <= k < |players| && !players[k].bot
      ensures Plays(r, players[k].pubKey)
    {
      assert ParticipantOf(players[k]) in r.participants;
    }
    assert Plays(r, players[0].pubKey);
  }

  lemma ReportHeading(h: Heading, players: seq<Player>, final: State)
    requires KeysDiffer(players) && SnakesOf(players, final.snakes)
    ensures var r := Report(h, players, final);
      r.version == VERSION && r.matchId == h.matchId && r.hostPubKey == h.hostKey
      && Text.DistinctKeys(PubKeyOf, r.participants)
  {
    ParticipantKeysDiffer(players);
    Text.KeysStayDistinct(PubKeyOf, Participants(players), Report(h, players, final).participants);
  }
}
