/** The seats of a lobby: who may hold one, and how seats are filled and emptied (internal/netplay/host.go). */
module Roster {
  import opened Types
  import Records
  import Sorting

  datatype Player = Player(
    seat: PlayerID, pubKey: string, displayName: string, login: string, node: string, palette: int,
    ready: bool, host: bool, connected: bool, bot: bool)

  /** One player's slot. conn says which connection serves it; 0 is none, as for bots and the host. */
  datatype Seat = Seat(
    id: PlayerID, player: Player, bot: bool, conn: nat, lastSeen: int, coasting: bool, lastInput: int, signed: bool)
  {
    predicate Local() { conn == 0 }
  }

  // ---- Looking seats up ----

  /** The loop of `seatByID`: the first index holding the id, or -1. */
  function SeatIndex(seats: seq<Seat>, id: PlayerID): (k: int)
    ensures -1 <= k < |seats|
    ensures k >= 0 ==> seats[k].id == id
    ensures k < 0 ==> forall j :: 0 <= j < |seats| ==> seats[j].id != id
    ensures forall j :: 0 <= j < k ==> seats[j].id != id
  {
    if |seats| == 0 then -1
    else if seats[0].id == id then 0
    else var k := SeatIndex(seats[1..], id); if k < 0 then -1 else k + 1
  }

  method FindSeat(seats: seq<Seat>, id: PlayerID) returns (k: int)
    ensures k == SeatIndex(seats, id)
  {
    k := 0;
    while k < |seats|
      invariant 0 <= k <= |seats|
      invariant forall j :: 0 <= j < k ==> seats[j].id != id
    {
      if seats[k].id == id {
        return;
      }
      k := k + 1;
    }
    k := -1;
  }

  function BotCount(seats: seq<Seat>): (n: nat)
    ensures n <= |seats|
  {
    if |seats| == 0 then 0 else (if seats[0].bot then 1 else 0) + BotCount(seats[1..])
  }

  lemma {:induction false} BotCountAppend(s: seq<Seat>, t: seq<Seat>)
    ensures BotCount(s + t) == BotCount(s) + BotCount(t)
  {
    if |s| == 0 {
      assert s + t == t;
    } else {
      BotCountAppend(s[1..], t);
      assert (s + t)[1..] == s[1..] + t;
    }
  }

  lemma BotCountSplit(s: seq<Seat>, k: nat)
    requires k < |s|
    ensures BotCount(s) == BotCount(s[..k]) + (if s[k].bot then 1 else 0) + BotCount(s[k + 1..])
  {
    BotCountHead(s[k..]);
    hide BotCount;
    BotCountAppend(s[..k], s[k..]);
    assert s == s[..k] + s[k..];
    assert s[k..][1..] == s[k + 1..];
  }

  lemma BotCountHead(s: seq<Seat>)
    requires |s| > 0
    ensures BotCount(s) == (if s[0].bot then 1 else 0) + BotCount(s[1..])
  {
  }

  lemma {:induction false} BotCountSome(s: seq<Seat>)
    requires BotCount(s) > 0
    ensures exists k :: 0 <= k < |s| && s[k].bot
  {
    if !s[0].bot {
      BotCountSome(s[1..]);
      var k :| 0 <= k < |s[1..]| && s[1..][k].bot;
      assert s[k + 1].bot;
    }
  }

  predicate ById(s: Seat, t: Seat) { s.id < t.id }

  lemma {:induction false} BotCountInsert(x: Seat, s: seq<Seat>)
    ensures BotCount(Sorting.Insert(ById, x, s)) == BotCount(s) + (if x.bot then 1 else 0)
  {
    if |s| > 0 && ById(s[0], x) {
      BotCountInsert(x, s[1..]);
    }
  }

  lemma {:induction false} BotCountSort(s: seq<Seat>)
    ensures BotCount(Sorting.SortBy(ById, s)) == BotCount(s)
  {
    if |s| > 0 {
      BotCountSort(s[1..]);
      BotCountInsert(s[0], Sorting.SortBy(ById, s[1..]));
    }
  }

  method CountBots(seats: seq<Seat>) returns (n: nat)
    ensures n == BotCount(seats)
  {
    n := 0;
    for i := 0 to |seats|
      invariant n == BotCount(seats[..i])
    {
      assert seats[..i + 1] == seats[..i] + [seats[i]];
      BotCountAppend(seats[..i], [seats[i]]);
      if seats[i].bot {
        n := n + 1;
      }
    }
    assert seats[..|seats|] == seats;
  }

  // ---- What holds of every lobby ----

  /** The public keys that decode, and the host's own. */
  datatype House = House(keyOk: string -> bool, hostKey: string)

  ghost predicate SeatOk(e: House, s: Seat) {
    && s.player.seat == s.id && s.id < MAX_PLAYERS && 0 <= s.player.palette < MAX_PLAYERS
    && s.player.bot == s.bot
    && s.player.host == (s.id == 0)
    && (s.id == 0 ==> !s.bot && s.player.pubKey == e.hostKey && s.Local())
    && (s.bot ==> s.player.ready && s.Local() && s.player.pubKey == "")
    && (!s.bot ==> s.player.pubKey != "" && e.keyOk(s.player.pubKey))
    && (!s.bot && s.id != 0 ==> !s.Local())
  }

  ghost predicate Clash(s: Seat, t: Seat) {
    s.player.palette == t.player.palette || (!s.bot && !t.bot && s.player.pubKey == t.player.pubKey)
  }

  ghost predicate Compatible(s: Seat, t: Seat) {
    t.id != s.id && !Clash(s, t) && !Clash(t, s)
  }

  ghost predicate Ascending(seats: seq<Seat>) {
    forall i, j :: 0 <= i < j < |seats| ==> seats[i].id < seats[j].id
  }

  ghost predicate NoClash(seats: seq<Seat>) {
    forall s, t :: s in seats && t in seats && s.id != t.id ==> !Clash(s, t)
  }

  /** Seat 0 is the host's, ids ascend, and nobody shares a palette or a key. */
  ghost predicate SeatsOk(e: House, seats: seq<Seat>) {
    && |seats| > 0 && seats[0].id == 0
    && Ascending(seats)
    && (forall s :: s in seats ==> SeatOk(e, s))
    && NoClash(seats)
  }

  /** The settings allow for as many seats and bots as there are. */
  ghost predicate Fits(cfg: Config, seats: seq<Seat>) {
    cfg.Valid() && |seats| <= cfg.maxPlayers && BotCount(seats) <= cfg.bots
  }

  lemma IndexOfSeat(seats: seq<Seat>, k: nat)
    requires Ascending(seats) && k < |seats|
    ensures SeatIndex(seats, seats[k].id) == k
  {
    var j := SeatIndex(seats, seats[k].id);
    assert j < k ==> j < 0;
  }

  // ---- Emptying a seat ----

  function WithoutAt(seats: seq<Seat>, k: nat): (r: seq<Seat>)
    requires k < |seats|
    ensures |r| == |seats| - 1
  {
    seats[..k] + seats[k + 1..]
  }

  lemma WithoutMembers(seats: seq<Seat>, k: nat, s: Seat)
    requires k < |seats| && Ascending(seats)
    ensures s in WithoutAt(seats, k) <==> s in seats && s.id != seats[k].id
  {
    var r := WithoutAt(seats, k);
    if s in seats && s.id != seats[k].id {
      var i :| 0 <= i < |seats| && seats[i] == s;
      assert r[if i < k then i else i - 1] == s;
    }
    if s in r {
      var i :| 0 <= i < |r| && r[i] == s;
      assert seats[if i < k then i else i + 1] == s;
    }
  }

  lemma WithoutKeepsSeats(e: House, seats: seq<Seat>, k: nat)
    requires SeatsOk(e, seats) && 0 < k < |seats|
    ensures SeatsOk(e, WithoutAt(seats, k))
    ensures BotCount(WithoutAt(seats, k)) == BotCount(seats) - (if seats[k].bot then 1 else 0)
  {
    hide SeatOk, Clash, BotCount, WithoutAt, Ascending;
    forall s
      ensures s in WithoutAt(seats, k) <==> s in seats && s.id != seats[k].id
    {
      WithoutMembers(seats, k, s);
    }
    WithoutAscends(seats, k);
    WithoutCounts(seats, k);
  }

  lemma WithoutAscends(seats: seq<Seat>, k: nat)
    requires Ascending(seats) && 0 < k < |seats|
    ensures Ascending(WithoutAt(seats, k)) && WithoutAt(seats, k)[0] == seats[0]
  {
  }

  lemma WithoutCounts(seats: seq<Seat>, k: nat)
    requires k < |seats|
    ensures BotCount(WithoutAt(seats, k)) == BotCount(seats) - (if seats[k].bot then 1 else 0)
  {
    BotCountSplit(seats, k);
    BotCountAppend(seats[..k], seats[k + 1..]);
  }

  lemma OnlySeatZeroIsHost(e: House, seats: seq<Seat>, k: nat)
    requires SeatsOk(e, seats) && k < |seats|
    ensures seats[k].player.host <==> k == 0
  {
    assert seats[k] in seats && SeatOk(e, seats[k]);
    assert k > 0 ==> seats[0].id < seats[k].id;
  }

  // ---- Filling a seat ----

  /** The lowest number below n from i on that is not in use, or n. */
  function LowestUnused(used: set<int>, i: nat, n: nat): (r: nat)
    requires i <= n
    ensures i <= r <= n && (r < n ==> r !in used)
    ensures forall j :: i <= j < r ==> j in used
    decreases n - i
  {
    if i == n then n else if i !in used then i else LowestUnused(used, i + 1, n)
  }

  lemma UnusedExists(used: set<int>, n: nat)
    requires |used| < n
    ensures LowestUnused(used, 0, n) < n
  {
    if LowestUnused(used, 0, n) == n {
      assert Sorting.Upto(n) <= used;
      Sorting.SubsetSize(Sorting.Upto(n), used);
    }
  }

  ghost function Ids(seats: seq<Seat>): (r: set<int>)
    ensures forall j :: j in r <==> exists s :: s in seats && s.id == j
  {
    set s | s in seats :: s.id as int
  }

  ghost function Palettes(seats: seq<Seat>): (r: set<int>)
    ensures forall j :: j in r <==> exists s :: s in seats && s.player.palette == j
  {
    set s | s in seats :: s.player.palette
  }

  lemma {:induction false} FewIds(seats: seq<Seat>)
    ensures |Ids(seats)| <= |seats| && |Palettes(seats)| <= |seats|
  {
    if |seats| > 0 {
      var init, last := seats[..|seats|-1], seats[|seats|-1];
      FewIds(init);
      assert seats == init + [last];
      assert Ids(seats) == Ids(init) + {last.id as int};
      assert Palettes(seats) == Palettes(init) + {last.player.palette};
    }
  }

  ghost function FreeSeatId(seats: seq<Seat>): PlayerID {
    var id := LowestUnused(Ids(seats), 0, MAX_PLAYERS);
    if id < MAX_PLAYERS then id else |seats| % 256
  }

  ghost function FreePaletteId(seats: seq<Seat>): int {
    var p := LowestUnused(Palettes(seats), 0, MAX_PLAYERS);
    if p < MAX_PLAYERS then p else 0
  }

  /** `freeSeat`; the conversion to a one-byte id wraps. */
  method FreeSeat(seats: seq<Seat>) returns (id: PlayerID)
    ensures id == FreeSeatId(seats)
  {
    var used: set<int> := {};
    for i := 0 to |seats|
      invariant used == Ids(seats[..i])
    {
      assert seats[..i + 1] == seats[..i] + [seats[i]];
      used := used + {seats[i].id as int};
    }
    assert seats[..|seats|] == seats;
    for j := 0 to MAX_PLAYERS
      invariant forall i :: 0 <= i < j ==> i in used
    {
      if j !in used {
        return j;
      }
    }
    return |seats| % 256;
  }

  method FreePalette(seats: seq<Seat>) returns (p: int)
    ensures p == FreePaletteId(seats)
  {
    var used: set<int> := {};
    for i := 0 to |seats|
      invariant used == Palettes(seats[..i])
    {
      assert seats[..i + 1] == seats[..i] + [seats[i]];
      used := used + {seats[i].player.palette};
    }
    assert seats[..|seats|] == seats;
    for j := 0 to MAX_PLAYERS
      invariant forall i :: 0 <= i < j ==> i in used
    {
      if j !in used {
        return j;
      }
    }
    return 0;
  }

  /** While there is room, the free seat and palette really are free. */
  lemma FreeMeansFree(seats: seq<Seat>)
    requires |seats| < MAX_PLAYERS
    ensures FreeSeatId(seats) < MAX_PLAYERS && 0 <= FreePaletteId(seats) < MAX_PLAYERS
    ensures forall s :: s in seats ==> s.id != FreeSeatId(seats) && s.player.palette != FreePaletteId(seats)
  {
    FewIds(seats);
    UnusedExists(Ids(seats), MAX_PLAYERS);
    UnusedExists(Palettes(seats), MAX_PLAYERS);
  }

  /** Appending a seat and sorting the list by id again. */
  function Admit(seats: seq<Seat>, s: Seat): (r: seq<Seat>)
    ensures |r| == |seats| + 1
  {
    Sorting.SortBy(ById, seats + [s])
  }

  lemma AdmitMembers(seats: seq<Seat>, s: Seat, x: Seat)
    ensures x in Admit(seats, s) <==> x in seats || x == s
  {
    Sorting.SameMembers(seats + [s], Admit(seats, s));
  }

  lemma AdmitAscends(seats: seq<Seat>, s: Seat)
    requires Ascending(seats) && forall t :: t in seats ==> t.id != s.id
    ensures Ascending(Admit(seats, s))
  {
    var all, r := seats + [s], Admit(seats, s);
    Sorting.SortOrdered(ById, all);
    Sorting.SortNoRepeats(ById, all);
    Sorting.SameMembers(all, r);
    forall i, j | 0 <= i < j < |r|
      ensures r[i].id < r[j].id
    {
      assert r[i] != r[j] && r[i] in all && r[j] in all && !ById(r[j], r[i]);
      DistinctIdsDistinct(all, r[i], r[j]);
    }
  }

  lemma DistinctIdsDistinct(all: seq<Seat>, x: Seat, y: Seat)
    requires x in all && y in all && x != y
    requires forall i, j :: 0 <= i < j < |all| ==> all[i].id != all[j].id
    ensures x.id != y.id
  {
    var i :| 0 <= i < |all| && all[i] == x;
    var j :| 0 <= j < |all| && all[j] == y;
    assert i < j || j < i;
  }

  lemma AdmitKeepsSeats(e: House, seats: seq<Seat>, s: Seat)
    requires SeatsOk(e, seats) && SeatOk(e, s)
    requires forall t :: t in seats ==> Compatible(s, t)
    ensures SeatsOk(e, Admit(seats, s))
    ensures BotCount(Admit(seats, s)) == BotCount(seats) + (if s.bot then 1 else 0)
  {
    hide SeatOk, Clash, Admit;
    AdmitAscends(seats, s);
    var r := Admit(seats, s);
    forall x
      ensures x in r <==> x in seats || x == s
    {
      AdmitMembers(seats, s, x);
    }
    assert seats[0] in r;
    FirstIsZero(r, seats[0]);
    AdmitCounts(seats, s);
  }

  lemma FirstIsZero(r: seq<Seat>, zero: Seat)
    requires Ascending(r) && zero in r && zero.id == 0
    ensures r[0].id == 0
  {
    var k :| 0 <= k < |r| && r[k] == zero;
    FirstSeatIsLeast(r, k);
  }

  lemma FirstSeatIsLeast(r: seq<Seat>, k: nat)
    requires Ascending(r) && k < |r|
    ensures r[0].id <= r[k].id
  {
  }

  lemma AdmitCounts(seats: seq<Seat>, s: Seat)
    ensures BotCount(Admit(seats, s)) == BotCount(seats) + (if s.bot then 1 else 0)
  {
    BotCountSort(seats + [s]);
    BotCountAppend(seats, [s]);
  }

  // ---- Bots to order ----

  /** The bot seated when there are n already. */
  ghost function NewBot(seats: seq<Seat>, now: int): Seat {
    var id := FreeSeatId(seats);
    Seat(id, Player(id, "", "bot " + Records.Decimal(BotCount(seats) + 1), "", "", FreePaletteId(seats),
                    true, false, true, true),
         true, 0, now, false, 0, false)
  }

  ghost function LastBot(seats: seq<Seat>): (k: nat)
    requires BotCount(seats) > 0
    ensures k < |seats| && seats[k].bot && BotCount(seats[k + 1..]) == 0
  {
    BotCountSplit(seats, |seats| - 1);
    if seats[|seats|-1].bot then |seats| - 1
    else
      var k := LastBot(seats[..|seats|-1]);
      BotCountAppend(seats[..|seats|-1][k + 1..], [seats[|seats|-1]]);
      assert seats[k + 1..] == seats[..|seats|-1][k + 1..] + [seats[|seats|-1]];
      k
  }

  function BotsOf(seats: seq<Seat>): seq<Seat> {
    if |seats| == 0 then []
    else BotsOf(seats[..|seats|-1]) + (if seats[|seats|-1].bot then [seats[|seats|-1]] else [])
  }

  /** `botSeats`: the bots in seat order, of which the last is the next to go. */
  method BotSeats(seats: seq<Seat>) returns (bots: seq<Seat>)
    ensures bots == BotsOf(seats)
    ensures |bots| == BotCount(seats)
    ensures |bots| > 0 ==> bots[|bots|-1] == seats[LastBot(seats)]
  {
    bots := [];
    for i := 0 to |seats|
      invariant bots == BotsOf(seats[..i])
      invariant |bots| == BotCount(seats[..i])
      invariant |bots| > 0 ==> bots[|bots|-1] == seats[LastBot(seats[..i])]
    {
      assert seats[..i + 1] == seats[..i] + [seats[i]];
      assert seats[..i + 1][..i] == seats[..i];
      BotCountAppend(seats[..i], [seats[i]]);
      if seats[i].bot {
        bots := bots + [seats[i]];
      }
    }
    assert seats[..|seats|] == seats;
  }

  /** The first loop of `syncBots`: bots leave from the highest seat down. */
  ghost function FewerBots(seats: seq<Seat>, want: nat): seq<Seat>
    decreases |seats|
  {
    if BotCount(seats) > want then FewerBots(WithoutAt(seats, LastBot(seats)), want) else seats
  }

  /** The second loop of `syncBots`: bots are seated while there is room. */
  ghost function MoreBots(seats: seq<Seat>, want: nat, room: nat, now: int): seq<Seat>
    decreases room - |seats|
  {
    if BotCount(seats) < want && |seats| < room then MoreBots(Admit(seats, NewBot(seats, now)), want, room, now)
    else seats
  }

  /** The loop of `dropSeatsBeyondCapacity`: the highest seats go, except the host's. */
  ghost function Shrunk(seats: seq<Seat>, room: nat): seq<Seat>
    decreases |seats|
  {
    if |seats| <= room || |seats| == 0 || seats[|seats|-1].player.host then seats
    else Shrunk(seats[..|seats|-1], room)
  }

  /** Everything `Reconfigure` does to the seats once the settings are accepted. */
  ghost function Resettled(seats: seq<Seat>, cfg: Config, now: int): seq<Seat>
    requires cfg.maxPlayers >= 0
  {
    Shrunk(MoreBots(FewerBots(seats, BotsWanted(cfg)), BotsWanted(cfg), cfg.maxPlayers, now), cfg.maxPlayers)
  }

  function BotsWanted(cfg: Config): nat {
    var want := if cfg.bots > cfg.maxPlayers - 1 then cfg.maxPlayers - 1 else cfg.bots;
    if want < 0 then 0 else want
  }

  lemma NewBotFits(e: House, seats: seq<Seat>, now: int)
    requires SeatsOk(e, seats) && |seats| < MAX_PLAYERS
    ensures SeatOk(e, NewBot(seats, now))
    ensures forall t :: t in seats ==> Compatible(NewBot(seats, now), t)
  {
    hide LowestUnused, FreeSeatId, FreePaletteId;
    FreeMeansFree(seats);
    assert seats[0] in seats;
  }

  lemma {:induction false} FewerBotsKeepsSeats(e: House, seats: seq<Seat>, want: nat)
    requires SeatsOk(e, seats)
    ensures SeatsOk(e, FewerBots(seats, want)) && BotCount(FewerBots(seats, want)) <= want
    ensures |FewerBots(seats, want)| <= |seats|
    ensures |FewerBots(seats, want)| - BotCount(FewerBots(seats, want)) == |seats| - BotCount(seats)
    ensures BotCount(seats) <= want ==> FewerBots(seats, want) == seats
    ensures BotCount(seats) >= want ==> BotCount(FewerBots(seats, want)) == want
    decreases |seats|
  {
    if BotCount(seats) > want {
      var k := LastBot(seats);
      assert seats[0] in seats && SeatOk(e, seats[0]);
      hide SeatsOk;
      WithoutKeepsSeats(e, seats, k);
      FewerBotsKeepsSeats(e, WithoutAt(seats, k), want);
    }
  }

  lemma {:induction false} MoreBotsKeepsSeats(e: House, seats: seq<Seat>, want: nat, room: nat, now: int)
    requires SeatsOk(e, seats) && room <= MAX_PLAYERS && BotCount(seats) <= want
    ensures SeatsOk(e, MoreBots(seats, want, room, now)) && BotCount(MoreBots(seats, want, room, now)) <= want
    ensures |seats| <= room ==> |MoreBots(seats, want, room, now)| <= room
    ensures |seats| >= room ==> MoreBots(seats, want, room, now) == seats
    ensures forall s :: s in seats ==> s in MoreBots(seats, want, room, now)
    decreases room - |seats|
  {
    if BotCount(seats) < want && |seats| < room {
      NewBotFits(e, seats, now);
      var s := NewBot(seats, now);
      hide SeatsOk, NewBot, SeatOk, Clash;
      AdmitKeepsSeats(e, seats, s);
      assert s.bot by { NewBotIsBot(seats, now); }
      MoreBotsKeepsSeats(e, Admit(seats, s), want, room, now);
      forall x | x in seats
        ensures x in Admit(seats, s)
      {
        AdmitMembers(seats, s, x);
      }
    }
  }

  lemma NewBotIsBot(seats: seq<Seat>, now: int)
    ensures NewBot(seats, now).bot
  {
  }

  lemma {:induction false} ShrunkKeepsSeats(e: House, seats: seq<Seat>, room: nat)
    requires SeatsOk(e, seats) && room > 0
    ensures SeatsOk(e, Shrunk(seats, room)) && BotCount(Shrunk(seats, room)) <= BotCount(seats)
    ensures Shrunk(seats, room) == seats[..if |seats| <= room then |seats| else room]
    decreases |seats|
  {
    if |seats| > room {
      var k := |seats| - 1;
      OnlySeatZeroIsHost(e, seats, k);
      WithoutKeepsSeats(e, seats, k);
      assert WithoutAt(seats, k) == seats[..k];
      hide SeatsOk;
      ShrunkKeepsSeats(e, seats[..k], room);
      assert seats[..k][..room] == seats[..room];
    }
  }

  /** Whatever new settings are applied, the seats stay in order and fit them. */
  lemma ResettledFits(e: House, seats: seq<Seat>, cfg: Config, now: int)
    requires SeatsOk(e, seats) && cfg.Valid()
    ensures SeatsOk(e, Resettled(seats, cfg, now)) && Fits(cfg, Resettled(seats, cfg, now))
  {
    hide SeatsOk;
    var want := BotsWanted(cfg);
    FewerBotsKeepsSeats(e, seats, want);
    var few := FewerBots(seats, want);
    MoreBotsKeepsSeats(e, few, want, cfg.maxPlayers, now);
    ShrunkKeepsSeats(e, MoreBots(few, want, cfg.maxPlayers, now), cfg.maxPlayers);
  }

  lemma {:induction false} MoreBotsFill(e: House, seats: seq<Seat>, want: nat, room: nat, now: int)
    requires SeatsOk(e, seats) && room <= MAX_PLAYERS && BotCount(seats) <= want
    ensures |MoreBots(seats, want, room, now)|
      == if |seats| >= room then |seats| else Min(room, |seats| - BotCount(seats) + want)
    decreases room - |seats|
  {
    hide SeatsOk, NewBot, SeatOk, Clash, BotCount, Admit, Compatible;
    if BotCount(seats) < want && |seats| < room {
      NewBotFits(e, seats, now);
      NewBotIsBot(seats, now);
      AdmitKeepsSeats(e, seats, NewBot(seats, now));
      MoreBotsFill(e, Admit(seats, NewBot(seats, now)), want, room, now);
    }
  }

  /** Bots are seated as asked for, as far as there are seats: the lobby ends up with its people and
      that many bots, or full. */
  lemma SeatsAsAskedFor(e: House, seats: seq<Seat>, cfg: Config, now: int)
    requires SeatsOk(e, seats) && cfg.Valid()
    ensures |Resettled(seats, cfg, now)| == Min(cfg.maxPlayers, |seats| - BotCount(seats) + cfg.bots)
  {
    hide SeatsOk, BotCount, MoreBots, FewerBots, Shrunk;
    var want := BotsWanted(cfg);
    FewerBotsKeepsSeats(e, seats, want);
    var few := FewerBots(seats, want);
    MoreBotsKeepsSeats(e, few, want, cfg.maxPlayers, now);
    MoreBotsFill(e, few, want, cfg.maxPlayers, now);
    ShrunkKeepsSeats(e, MoreBots(few, want, cfg.maxPlayers, now), cfg.maxPlayers);
  }

  /** Resettling seats no new people. */
  lemma ResettledPeople(seats: seq<Seat>, cfg: Config, now: int, s: Seat)
    requires cfg.maxPlayers >= 0 && s in Resettled(seats, cfg, now) && !s.bot
    ensures s in seats
  {
    var want := BotsWanted(cfg);
    var few := FewerBots(seats, want);
    ShrunkMembers(MoreBots(few, want, cfg.maxPlayers, now), cfg.maxPlayers, s);
    MoreBotsPeople(few, want, cfg.maxPlayers, now, s);
    FewerBotsMembers(seats, want, s);
  }

  lemma {:induction false} FewerBotsMembers(seats: seq<Seat>, want: nat, s: Seat)
    requires s in FewerBots(seats, want)
    ensures s in seats
    decreases |seats|
  {
    if BotCount(seats) > want {
      FewerBotsMembers(WithoutAt(seats, LastBot(seats)), want, s);
    }
  }

  lemma {:induction false} MoreBotsPeople(seats: seq<Seat>, want: nat, room: nat, now: int, s: Seat)
    requires s in MoreBots(seats, want, room, now) && !s.bot
    ensures s in seats
    decreases room - |seats|
  {
    if BotCount(seats) < want && |seats| < room {
      var b := NewBot(seats, now);
      MoreBotsPeople(Admit(seats, b), want, room, now, s);
      NewBotIsBot(seats, now);
      AdmitMembers(seats, b, s);
    }
  }

  lemma {:induction false} ShrunkMembers(seats: seq<Seat>, room: nat, s: Seat)
    requires s in Shrunk(seats, room)
    ensures s in seats
    decreases |seats|
  {
    if !(|seats| <= room || |seats| == 0 || seats[|seats|-1].player.host) {
      ShrunkMembers(seats[..|seats|-1], room, s);
    }
  }

  // ---- Who is kept ----

  /** Where the person at k moves to when only `want` bots stay. */
  ghost function PlaceAfter(seats: seq<Seat>, k: nat, want: nat): nat
    requires k < |seats|
  {
    k - BotCount(seats[..k]) + Min(BotCount(seats[..k]), want)
  }

  lemma {:induction false} PersonAmongFewerBots(e: House, seats: seq<Seat>, k: nat, want: nat)
    requires SeatsOk(e, seats) && k < |seats| && !seats[k].bot
    ensures PlaceAfter(seats, k, want) < |FewerBots(seats, want)|
    ensures FewerBots(seats, want)[PlaceAfter(seats, k, want)] == seats[k]
    decreases |seats|
  {
    BotCountSplit(seats, k);
    hide SeatsOk, BotCount, WithoutAt, PlaceAfter;
    if BotCount(seats) > want {
      var b := LastBot(seats);
      HostIsNoBot(e, seats);
      WithoutKeepsSeats(e, seats, b);
      PlaceWithoutBot(seats, b, k, want);
      PersonAmongFewerBots(e, WithoutAt(seats, b), if k < b then k else k - 1, want);
    } else {
      PlaceUnchanged(seats, k, want);
    }
  }

  lemma PlaceUnchanged(seats: seq<Seat>, k: nat, want: nat)
    requires k < |seats| && BotCount(seats) <= want
    ensures PlaceAfter(seats, k, want) == k
  {
    BotCountSplit(seats, k);
    hide BotCount;
  }

  lemma PlaceWithoutBot(seats: seq<Seat>, b: nat, k: nat, want: nat)
    requires b < |seats| && seats[b].bot && BotCount(seats[b + 1..]) == 0
    requires k < |seats| && !seats[k].bot && want < BotCount(seats)
    ensures var j := if k < b then k else k - 1;
      && 0 <= j < |WithoutAt(seats, b)| && WithoutAt(seats, b)[j] == seats[k]
      && PlaceAfter(WithoutAt(seats, b), j, want) == PlaceAfter(seats, k, want)
  {
    hide BotCount;
    if k < b {
      PersonBelowBot(seats, b, k);
    } else {
      PersonAboveBot(seats, b, k);
    }
  }

  lemma HostIsNoBot(e: House, seats: seq<Seat>)
    requires SeatsOk(e, seats)
    ensures !seats[0].bot
  {
    assert seats[0] in seats && SeatOk(e, seats[0]);
  }

  lemma PersonBelowBot(seats: seq<Seat>, b: nat, k: nat)
    requires k < b < |seats| && seats[b].bot
    ensures WithoutAt(seats, b)[..k] == seats[..k] && WithoutAt(seats, b)[k] == seats[k]
  {
  }

  lemma PersonAboveBot(seats: seq<Seat>, b: nat, k: nat)
    requires b < k < |seats| && seats[b].bot && BotCount(seats[b + 1..]) == 0
    ensures WithoutAt(seats, b)[k - 1] == seats[k]
    ensures BotCount(seats[..k]) == BotCount(seats)
    ensures BotCount(WithoutAt(seats, b)[..k - 1]) == BotCount(seats) - 1
  {
    hide BotCount;
    var low, mid := seats[..b], seats[b + 1..k];
    BotCountSplit(seats, b);
    assert seats[b + 1..] == mid + seats[k..];
    BotCountAppend(mid, seats[k..]);
    assert WithoutAt(seats, b)[..k - 1] == low + mid;
    BotCountAppend(low, mid);
    BotCountSplit(seats[..k], b);
    assert seats[..k][..b] == low && seats[..k][b + 1..] == mid;
  }

  /** Lowering the seat count can cost a person their seat although room was made for
      everybody: exactly when the people and the remaining bots seated below fill it up. */
  lemma PersonKeptIff(e: House, seats: seq<Seat>, cfg: Config, now: int, k: nat)
    requires SeatsOk(e, seats) && cfg.Valid() && k < |seats| && !seats[k].bot
    ensures seats[k] in Resettled(seats, cfg, now) <==> PlaceAfter(seats, k, BotsWanted(cfg)) < cfg.maxPlayers
  {
    var want, room := BotsWanted(cfg), cfg.maxPlayers;
    var few := FewerBots(seats, want);
    var more := MoreBots(few, want, room, now);
    FewerBotsKeepsSeats(e, seats, want);
    PersonAmongFewerBots(e, seats, k, want);
    MoreBotsKeepsSeats(e, few, want, room, now);
    ShrunkKeepsSeats(e, more, room);
    var p := PlaceAfter(seats, k, want);
    assert few[p] in few;
    if |few| >= room && p >= room {
      assert forall i :: 0 <= i < room ==> few[i].id < few[p].id;
    }
  }

  /** Nobody is turned out if the people here and the bots asked for fit the new seat count. */
  lemma EverybodyKeptWhenTheyFit(e: House, seats: seq<Seat>, cfg: Config, now: int)
    requires SeatsOk(e, seats) && cfg.Valid()
    requires |seats| - BotCount(seats) + BotsWanted(cfg) <= cfg.maxPlayers
    ensures forall s :: s in seats && !s.bot ==> s in Resettled(seats, cfg, now)
  {
    forall s | s in seats && !s.bot
      ensures s in Resettled(seats, cfg, now)
    {
      var k :| 0 <= k < |seats| && seats[k] == s;
      PersonKeptIff(e, seats, cfg, now, k);
      BotCountSplit(seats, k);
    }
  }
}
