/** Match results, their canonical bytes, and the records attesting them (internal/proto/match.go). */
module Records {
  import opened Types
  import Sorting
  import opened Text
  import opened Canonical

  datatype Participant = Participant(pubKey: string, displayName: string, login: string, node: string, seat: PlayerID)

  datatype Placement = Placement(pubKey: string, place: int, length: int, score: int, kills: int, survivalTicks: int)

  datatype MatchResult = MatchResult(
    version: int, matchId: string, lobbyName: string, config: Config, startedAt: string, endedAt: string,
    hostPubKey: string, participants: seq<Participant>, placements: seq<Placement>)

  datatype Signature = Signature(pubKey: string, sig: string)

  datatype Record = Record(result: MatchResult, hash: string, signatures: seq<Signature>)

  /** What comes from outside, and about which nothing is assumed here: a digest of bytes in hex,
      whether a string decodes to a public key, whether a signature decodes and verifies over a
      digest, the signature one's own key gives over a digest, and how a time is written. */
  datatype Crypto = Crypto(
    digest: string -> string, keyOk: string -> bool, sigOk: (string, string, string) -> bool,
    sign: string -> string, formatTime: int -> string)

  const VERSION := 1
  const SIG_DOMAIN := "tailsnail/match-result/v1\n"

  // ---- Canonical order ----

  function PubKeyOf(p: Participant): string { p.pubKey }

  predicate PlacedBefore(p: Placement, q: Placement) {
    if p.place != q.place then p.place < q.place else StrLess(p.pubKey, q.pubKey)
  }

  function Normalize(r: MatchResult): MatchResult {
    r.(participants := Sorting.SortBy(ByKey(PubKeyOf), r.participants),
       placements := Sorting.SortBy(PlacedBefore, r.placements))
  }

  ghost predicate DistinctRanks(ps: seq<Placement>) {
    forall a, b :: 0 <= a < b < |ps| ==> ps[a].place != ps[b].place || ps[a].pubKey != ps[b].pubKey
  }

  lemma PlacedBeforeIsOrder(ps: seq<Placement>)
    ensures Sorting.WeakOrder(PlacedBefore, ps)
    ensures forall p, q :: p in ps && q in ps && (p.place != q.place || p.pubKey != q.pubKey) ==>
      PlacedBefore(p, q) || PlacedBefore(q, p)
  {
    hide StrLess;
    forall p, q | p in ps && q in ps
      ensures PlacedBefore(p, q) ==> !PlacedBefore(q, p)
      ensures (p.place != q.place || p.pubKey != q.pubKey) ==> PlacedBefore(p, q) || PlacedBefore(q, p)
    {
      StrLessTrichotomy(p.pubKey, q.pubKey);
    }
    forall p, q, r | p in ps && q in ps && r in ps && !PlacedBefore(q, p) && !PlacedBefore(r, q)
      ensures !PlacedBefore(r, p)
    {
      NotAfterTransitive(p.pubKey, q.pubKey, r.pubKey);
    }
  }

  lemma NotAfterTransitive(x: string, y: string, z: string)
    ensures !StrLess(y, x) && !StrLess(z, y) ==> !StrLess(z, x)
  {
    StrLessTrichotomy(x, y);
    StrLessTrichotomy(y, z);
    StrLessTrichotomy(x, z);
    if StrLess(x, y) && StrLess(y, z) {
      StrLessTransitive(x, y, z);
    }
  }

  /** Two results that list the same participants and placements in different orders. */
  ghost predicate SameUpToOrder(r: MatchResult, q: MatchResult) {
    && multiset(r.participants) == multiset(q.participants)
    && multiset(r.placements) == multiset(q.placements)
    && q == r.(participants := q.participants, placements := q.placements)
  }

  lemma MembersWithDistinctKeys<T(!new)>(key: T -> string, s: seq<T>, x: T, y: T)
    requires DistinctKeys(key, s) && x in s && y in s && x != y
    ensures key(x) != key(y)
  {
    var i :| 0 <= i < |s| && s[i] == x;
    var j :| 0 <= j < |s| && s[j] == y;
    assert i < j || j < i;
  }

  lemma MembersWithDistinctRanks(s: seq<Placement>, x: Placement, y: Placement)
    requires DistinctRanks(s) && x in s && y in s && x != y
    ensures x.place != y.place || x.pubKey != y.pubKey
  {
    var i :| 0 <= i < |s| && s[i] == x;
    var j :| 0 <= j < |s| && s[j] == y;
    assert i < j || j < i;
  }

  /** The order participants and placements are listed in is not part of the hash. */
  lemma NormalizeForgetsOrder(r: MatchResult, q: MatchResult)
    requires SameUpToOrder(r, q) && DistinctKeys(PubKeyOf, r.participants) && DistinctRanks(r.placements)
    ensures Normalize(r) == Normalize(q) && CanonicalBytes(r) == CanonicalBytes(q)
  {
    ByKeyIsOrder(PubKeyOf, r.participants);
    forall x, y | x in r.participants && y in r.participants && x != y
      ensures ByKey(PubKeyOf)(x, y) || ByKey(PubKeyOf)(y, x)
    {
      MembersWithDistinctKeys(PubKeyOf, r.participants, x, y);
      StrLessTrichotomy(x.pubKey, y.pubKey);
    }
    Sorting.SortForgets(ByKey(PubKeyOf), r.participants, q.participants);
    PlacedBeforeIsOrder(r.placements);
    forall x, y | x in r.placements && y in r.placements && x != y
      ensures PlacedBefore(x, y) || PlacedBefore(y, x)
    {
      MembersWithDistinctRanks(r.placements, x, y);
    }
    Sorting.SortForgets(PlacedBefore, r.placements, q.placements);
  }

  /** An arrangement of r that any correct sort may leave: the same entries, neither list with an
      entry after one it ranks before. */
  ghost predicate Arranged(r: MatchResult, q: MatchResult) {
    && SameUpToOrder(r, q)
    && Sorting.Ordered(ByKey(PubKeyOf), q.participants) && Sorting.Ordered(PlacedBefore, q.placements)
  }

  /** The order itself: participants by key, placements by place and then key, in the order of strings. */
  ghost predicate Listed(r: MatchResult) {
    && (forall a, b :: 0 <= a < b < |r.participants| ==> Precedes(r.participants[a].pubKey, r.participants[b].pubKey))
    && forall a, b :: 0 <= a < b < |r.placements| ==>
         var p, q := r.placements[a], r.placements[b];
         p.place < q.place || (p.place == q.place && Precedes(p.pubKey, q.pubKey))
  }

  lemma DistinctAgain(r: MatchResult, q: MatchResult)
    requires SameUpToOrder(r, q) && DistinctKeys(PubKeyOf, r.participants) && DistinctRanks(r.placements)
    ensures DistinctKeys(PubKeyOf, q.participants) && DistinctRanks(q.placements)
  {
    KeysStayDistinct(PubKeyOf, r.participants, q.participants);
    assert Sorting.NoRepeats(r.placements);
    Sorting.NoRepeatsByCount(r.placements);
    Sorting.NoRepeatsByCount(q.placements);
    Sorting.SameMembers(r.placements, q.placements);
    forall a, b | 0 <= a < b < |q.placements|
      ensures q.placements[a].place != q.placements[b].place || q.placements[a].pubKey != q.placements[b].pubKey
    {
      assert q.placements[a] in q.placements && q.placements[b] in q.placements;
      MembersWithDistinctRanks(r.placements, q.placements[a], q.placements[b]);
    }
  }

  /** What an arrangement looks like where keys and ranks are distinct. */
  lemma ArrangedIsListed(r: MatchResult, q: MatchResult)
    requires Arranged(r, q) && DistinctKeys(PubKeyOf, r.participants) && DistinctRanks(r.placements)
    ensures Listed(q)
  {
    hide StrLess, Precedes;
    DistinctAgain(r, q);
    forall a, b | 0 <= a < b < |q.participants|
      ensures Precedes(q.participants[a].pubKey, q.participants[b].pubKey)
    {
      var s, t := q.participants[a].pubKey, q.participants[b].pubKey;
      assert !ByKey(PubKeyOf)(q.participants[b], q.participants[a]);
      assert PubKeyOf(q.participants[a]) != PubKeyOf(q.participants[b]);
      StrLessTrichotomy(s, t);
      StrLessIff(s, t);
    }
    forall a, b | 0 <= a < b < |q.placements|
      ensures var x, y := q.placements[a], q.placements[b];
        x.place < y.place || (x.place == y.place && Precedes(x.pubKey, y.pubKey))
    {
      var x, y := q.placements[a], q.placements[b];
      assert !PlacedBefore(y, x);
      StrLessTrichotomy(x.pubKey, y.pubKey);
      StrLessIff(x.pubKey, y.pubKey);
    }
  }

  lemma NormalFormIsArranged(r: MatchResult)
    ensures Arranged(r, Normalize(r))
  {
    ByKeyIsOrder(PubKeyOf, r.participants);
    Sorting.SortOrdered(ByKey(PubKeyOf), r.participants);
    PlacedBeforeIsOrder(r.placements);
    Sorting.SortOrdered(PlacedBefore, r.placements);
  }

  lemma ArrangedIsFixed(r: MatchResult, q: MatchResult)
    requires Arranged(r, q)
    ensures Normalize(q) == q
  {
    Sorting.SortFixes(ByKey(PubKeyOf), q.participants);
    Sorting.SortFixes(PlacedBefore, q.placements);
  }

  /** Where keys and ranks are distinct it does not matter that the sort need not be stable: there
      is one arrangement only, and arranging it again leaves it as it is. */
  lemma NormalizeTwice(r: MatchResult, q: MatchResult)
    requires DistinctKeys(PubKeyOf, r.participants) && DistinctRanks(r.placements)
    ensures Arranged(r, q) <==> q == Normalize(r)
    ensures Listed(Normalize(r))
    ensures Arranged(Normalize(r), q) <==> q == Normalize(r)
  {
    NormalFormIsArranged(r);
    ArrangedIsListed(r, Normalize(r));
    if SameUpToOrder(r, q) {
      NormalizeForgetsOrder(r, q);
    }
    if Arranged(r, q) {
      ArrangedIsFixed(r, q);
    }
  }

  // ---- The generic form that is encoded ----

  function Digits(n: nat): string {
    if n < 10 then ["0123456789"[n]] else Digits(n / 10) + ["0123456789"[n % 10]]
  }

  function Decimal(n: int): string {
    if n < 0 then "-" + Digits(-n) else Digits(n)
  }

  function DigitsValue(s: string): int {
    if |s| == 0 then 0 else DigitsValue(s[..|s|-1]) * 10 + (s[|s|-1] as int - '0' as int)
  }

  lemma {:induction false} DigitsRoundTrip(n: nat)
    ensures |Digits(n)| > 0 && DigitsValue(Digits(n)) == n
    ensures forall i :: 0 <= i < |Digits(n)| ==> '0' <= Digits(n)[i] <= '9'
  {
    if n >= 10 {
      DigitsRoundTrip(n / 10);
      var s := Digits(n);
      assert s[..|s|-1] == Digits(n / 10);
    } else {
      assert DigitsValue("") == 0;
      assert Digits(n)[..0] == "";
    }
  }

  lemma DecimalInjective(m: int, n: int)
    requires Decimal(m) == Decimal(n)
    ensures m == n
  {
    DigitsRoundTrip(if m < 0 then -m else m);
    DigitsRoundTrip(if n < 0 then -n else n);
    if m < 0 { assert Decimal(m)[1..] == Digits(-m) && Decimal(m)[0] == '-'; }
    if n < 0 { assert Decimal(n)[1..] == Digits(-n) && Decimal(n)[0] == '-'; }
  }

  function Int(n: int): Json { Number(Decimal(n)) }

  /** A member the encoder leaves out when it is empty. */
  function Optional(key: string, value: string): map<string, Json> {
    if value == "" then map[] else map[key := Str(value)]
  }

  function ParticipantJson(p: Participant): Json {
    Obj(map["pubkey" := Str(p.pubKey), "display_name" := Str(p.displayName), "seat" := Int(p.seat)]
        + Optional("login", p.login) + Optional("node", p.node))
  }

  function PlacementJson(p: Placement): Json {
    Obj(map["pubkey" := Str(p.pubKey), "place" := Int(p.place), "length" := Int(p.length),
            "score" := Int(p.score), "kills" := Int(p.kills), "survival_ticks" := Int(p.survivalTicks)])
  }

  function ConfigJson(c: Config): Json {
    Obj(map["name" := Str(c.name), "width" := Int(c.width), "height" := Int(c.height),
            "tick_rate" := Int(c.tickRate), "ticks_per_move" := Int(c.ticksPerMove),
            "max_players" := Int(c.maxPlayers), "wrap" := Bool(c.wrap),
            "food_count" := Int(c.foodCount), "seed" := Int(c.seed)]
        + (if c.bots == 0 then map[] else map["bots" := Int(c.bots)]))
  }

  /** A list that was never appended to is encoded as null. */
  function ListJson<T>(f: T -> Json, s: seq<T>): Json {
    if |s| == 0 then Null else Arr(seq(|s|, i requires 0 <= i < |s| => f(s[i])))
  }

  function ResultJson(r: MatchResult): Json {
    Obj(map["version" := Int(r.version), "match_id" := Str(r.matchId), "lobby_name" := Str(r.lobbyName),
            "config" := ConfigJson(r.config), "started_at" := Str(r.startedAt), "ended_at" := Str(r.endedAt),
            "host_pubkey" := Str(r.hostPubKey),
            "participants" := ListJson(ParticipantJson, r.participants),
            "placements" := ListJson(PlacementJson, r.placements)])
  }

  ghost function CanonicalBytes(r: MatchResult): string {
    Encode(ResultJson(Normalize(r)))
  }

  lemma IntInjective(m: int, n: int)
    requires Int(m) == Int(n)
    ensures m == n
  {
    DecimalInjective(m, n);
  }

  lemma IntWellFormed(n: int)
    ensures WellFormed(Int(n))
  {
    DigitsRoundTrip(if n < 0 then -n else n);
  }

  lemma ParticipantInjective(p: Participant, q: Participant)
    requires ParticipantJson(p) == ParticipantJson(q)
    ensures p == q
  {
    var f, g := ParticipantJson(p).fields, ParticipantJson(q).fields;
    assert f["pubkey"] == g["pubkey"] && f["display_name"] == g["display_name"] && f["seat"] == g["seat"];
    IntInjective(p.seat, q.seat);
    assert p.login != "" <==> "login" in f;
    assert p.node != "" <==> "node" in f;
    assert p.login != "" ==> f["login"] == g["login"];
    assert p.node != "" ==> f["node"] == g["node"];
  }

  lemma PlacementInjective(p: Placement, q: Placement)
    requires PlacementJson(p) == PlacementJson(q)
    ensures p == q
  {
    var f, g := PlacementJson(p).fields, PlacementJson(q).fields;
    assert f["pubkey"] == g["pubkey"] && f["place"] == g["place"] && f["length"] == g["length"];
    assert f["score"] == g["score"] && f["kills"] == g["kills"] && f["survival_ticks"] == g["survival_ticks"];
    IntInjective(p.place, q.place);
    IntInjective(p.length, q.length);
    IntInjective(p.score, q.score);
    IntInjective(p.kills, q.kills);
    IntInjective(p.survivalTicks, q.survivalTicks);
  }

  lemma ConfigShapeInjective(p: Config, q: Config)
    requires ConfigJson(p) == ConfigJson(q)
    ensures p.name == q.name && p.width == q.width && p.height == q.height && p.wrap == q.wrap
  {
    hide Int;
    var f, g := ConfigJson(p).fields, ConfigJson(q).fields;
    assert f["name"] == g["name"] && f["width"] == g["width"] && f["height"] == g["height"] && f["wrap"] == g["wrap"];
    IntInjective(p.width, q.width);
    IntInjective(p.height, q.height);
  }

  lemma ConfigBotsInjective(p: Config, q: Config)
    requires ConfigJson(p) == ConfigJson(q)
    ensures p.bots == q.bots
  {
    hide Int;
    var f, g := ConfigJson(p).fields, ConfigJson(q).fields;
    assert p.bots != 0 <==> "bots" in f;
    assert p.bots != 0 ==> f["bots"] == g["bots"];
    if p.bots != 0 {
      IntInjective(p.bots, q.bots);
    }
  }

  lemma ConfigPaceInjective(p: Config, q: Config)
    requires ConfigJson(p) == ConfigJson(q)
    ensures p.tickRate == q.tickRate && p.ticksPerMove == q.ticksPerMove && p.maxPlayers == q.maxPlayers
  {
    hide Int;
    var f, g := ConfigJson(p).fields, ConfigJson(q).fields;
    assert f["tick_rate"] == g["tick_rate"] && f["ticks_per_move"] == g["ticks_per_move"];
    assert f["max_players"] == g["max_players"];
    IntInjective(p.tickRate, q.tickRate);
    IntInjective(p.ticksPerMove, q.ticksPerMove);
    IntInjective(p.maxPlayers, q.maxPlayers);
  }

  lemma ConfigFoodInjective(p: Config, q: Config)
    requires ConfigJson(p) == ConfigJson(q)
    ensures p.foodCount == q.foodCount && p.seed == q.seed
  {
    hide Int;
    var f, g := ConfigJson(p).fields, ConfigJson(q).fields;
    assert f["food_count"] == g["food_count"] && f["seed"] == g["seed"];
    IntInjective(p.foodCount, q.foodCount);
    IntInjective(p.seed, q.seed);
  }

  lemma ConfigInjective(p: Config, q: Config)
    requires ConfigJson(p) == ConfigJson(q)
    ensures p == q
  {
    hide ConfigJson;
    ConfigShapeInjective(p, q);
    ConfigPaceInjective(p, q);
    ConfigFoodInjective(p, q);
    ConfigBotsInjective(p, q);
  }

  lemma ListInjective<T(!new)>(f: T -> Json, s: seq<T>, t: seq<T>)
    requires ListJson(f, s) == ListJson(f, t)
    requires forall x, y :: f(x) == f(y) ==> x == y
    ensures s == t
  {
    if |s| > 0 && |t| > 0 {
      assert |s| == |ListJson(f, s).items| == |t|;
      forall i | 0 <= i < |s|
        ensures s[i] == t[i]
      {
        assert ListJson(f, s).items[i] == f(s[i]) && ListJson(f, t).items[i] == f(t[i]);
      }
    }
  }

  lemma ResultListsInjective(r: MatchResult, q: MatchResult)
    requires ResultJson(r) == ResultJson(q)
    ensures r.participants == q.participants && r.placements == q.placements
  {
    var f, g := ResultJson(r).fields, ResultJson(q).fields;
    hide Int, ListJson, ConfigJson;
    assert f["participants"] == g["participants"] && f["placements"] == g["placements"];
    forall x, y | ParticipantJson(x) == ParticipantJson(y) ensures x == y { ParticipantInjective(x, y); }
    ListInjective(ParticipantJson, r.participants, q.participants);
    forall x, y | PlacementJson(x) == PlacementJson(y) ensures x == y { PlacementInjective(x, y); }
    ListInjective(PlacementJson, r.placements, q.placements);
  }

  lemma ResultInjective(r: MatchResult, q: MatchResult)
    requires ResultJson(r) == ResultJson(q)
    ensures r == q
  {
    hide Int, ListJson, ConfigJson;
    ResultListsInjective(r, q);
    var f, g := ResultJson(r).fields, ResultJson(q).fields;
    assert f["version"] == g["version"] && f["match_id"] == g["match_id"] && f["lobby_name"] == g["lobby_name"];
    assert f["config"] == g["config"] && f["started_at"] == g["started_at"] && f["ended_at"] == g["ended_at"];
    assert f["host_pubkey"] == g["host_pubkey"];
    IntInjective(r.version, q.version);
    ConfigInjective(r.config, q.config);
  }

  lemma ListWellFormed<T(!new)>(f: T -> Json, s: seq<T>)
    requires forall x :: WellFormed(f(x))
    ensures WellFormed(ListJson(f, s))
  {
  }

  lemma ParticipantWellFormed(p: Participant)
    ensures WellFormed(ParticipantJson(p))
  {
    IntWellFormed(p.seat);
    hide Int;
    var f := ParticipantJson(p).fields;
    forall k | k in f
      ensures WellFormed(f[k])
    {
    }
  }

  lemma PlacementWellFormed(p: Placement)
    ensures WellFormed(PlacementJson(p))
  {
    IntWellFormed(p.place);
    IntWellFormed(p.length);
    IntWellFormed(p.score);
    IntWellFormed(p.kills);
    IntWellFormed(p.survivalTicks);
    hide Int;
  }

  lemma ConfigWellFormed(c: Config)
    ensures WellFormed(ConfigJson(c))
  {
    hide Int;
    forall n: int ensures WellFormed(Int(n)) { IntWellFormed(n); }
    var fields := ConfigJson(c).fields;
    assert forall k :: k in fields ==> WellFormed(fields[k]);
  }

  lemma ResultWellFormed(r: MatchResult)
    ensures WellFormed(ResultJson(r))
  {
    IntWellFormed(r.version);
    ConfigWellFormed(r.config);
    forall p ensures WellFormed(ParticipantJson(p)) { ParticipantWellFormed(p); }
    forall p ensures WellFormed(PlacementJson(p)) { PlacementWellFormed(p); }
    ListWellFormed(ParticipantJson, r.participants);
    ListWellFormed(PlacementJson, r.placements);
    hide Int, ConfigJson, ListJson, ParticipantJson, PlacementJson;
  }

  /** Equal canonical bytes describe the same result, up to the order of its lists. */
  lemma BytesBindContent(r: MatchResult, q: MatchResult)
    requires CanonicalBytes(r) == CanonicalBytes(q)
    ensures Normalize(r) == Normalize(q) && SameUpToOrder(r, q)
  {
    ResultWellFormed(Normalize(r));
    ResultWellFormed(Normalize(q));
    CanonicalIsInjective(ResultJson(Normalize(r)), ResultJson(Normalize(q)));
    ResultInjective(Normalize(r), Normalize(q));
  }
}
