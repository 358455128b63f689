/**
 The text a result is hashed as, written out: every member of every object by name, in order
 (internal/proto/match.go, internal/game/types.go). Records of older versions keep their hashes only
 as long as this stays as it is.
*/
module HashedText {
  import opened Types
  import opened Text
  import opened Canonical
  import opened Records
  import opened Attestation

  type Member = (string, string)

  /** Members as an object lists them: quoted names, colons, commas, no space. */
  function Listing(ms: seq<Member>): string {
    if |ms| == 0 then ""
    else Quote(ms[0].0) + ":" + ms[0].1 + (if |ms| == 1 then "" else "," + Listing(ms[1..]))
  }

  /** Values as a list lists them. */
  function Row(texts: seq<string>): string {
    if |texts| == 0 then "" else texts[0] + (if |texts| == 1 then "" else "," + Row(texts[1..]))
  }

  // ---- Strings and numbers ----

  predicate Plain(c: char) {
    c as int >= 0x20 && c !in "\"\\<>&" && c as int != 0x2028 && c as int != 0x2029
  }

  predicate AllPlain(s: string) { forall i :: 0 <= i < |s| ==> Plain(s[i]) }

  /** What stands for each character inside quotes: the short escapes, four hex digits for what HTML
      or JavaScript would take for its own, and itself otherwise. */
  lemma EscapesMean()
    ensures Escape('"') == "\\\"" && Escape('\\') == "\\\\"
    ensures Escape('\n') == "\\n" && Escape('\r') == "\\r" && Escape('\t') == "\\t"
    ensures Escape(8 as char) == "\\b" && Escape(12 as char) == "\\f"
  {
  }

  lemma HiddenFromMarkup()
    ensures Escape('<') == "\\u003c" && Escape('>') == "\\u003e" && Escape('&') == "\\u0026"
  {
  }

  lemma HiddenFromScript()
    ensures Escape(0x2028 as char) == "\\u2028" && Escape(0x2029 as char) == "\\u2029"
  {
  }

  lemma PlainMeans(c: char)
    ensures Plain(c) <==> Escape(c) == [c]
  {
  }

  lemma ControlEscapeMeans(c: char)
    requires c as int < 0x20 && c as int !in {8, 9, 10, 12, 13}
    ensures Escape(c) == "\\u00" + [if c as int < 16 then '0' else '1', "0123456789abcdef"[c as int % 16]]
  {
  }

  lemma {:induction false} PlainStays(s: string)
    requires AllPlain(s)
    ensures EscapeAll(s) == s
  {
    hide Escape, Plain;
    if |s| > 0 {
      PlainMeans(s[0]);
      PlainStays(s[1..]);
      assert s == [s[0]] + s[1..];
    }
  }

  /** A number is written in decimal, with no zero in front and a sign only below zero. */
  lemma {:induction false} DigitsMean(n: nat)
    ensures DigitsValue(Digits(n)) == n && AllPlain(Digits(n))
    ensures |Digits(n)| > 0 && (Digits(n)[0] == '0' ==> n == 0 && |Digits(n)| == 1)
    ensures forall i :: 0 <= i < |Digits(n)| ==> '0' <= Digits(n)[i] <= '9'
  {
    DigitsRoundTrip(n);
    if n >= 10 {
      DigitsMean(n / 10);
    }
  }

  // ---- Objects ----

  /** Names in order: neighbours agree up to where the first is less, or ends. */
  ghost predicate Steps(names: seq<string>, at: seq<nat>) {
    && |names| == |at| + 1
    && forall i :: 0 <= i < |at| ==> LessFrom(names[i], names[i + 1], at[i])
  }

  lemma {:induction false} StepsAscend(names: seq<string>, at: seq<nat>, a: nat, b: nat)
    requires Steps(names, at) && a < b < |names|
    ensures StrLess(names[a], names[b])
    decreases b
  {
    hide StrLess, LessFrom;
    assert LessFrom(names[b - 1], names[b], at[b - 1]);
    StrLessIff(names[b - 1], names[b]);
    if a < b - 1 {
      StepsAscend(names, at, a, b - 1);
      StrLessTransitive(names[a], names[b - 1], names[b]);
    }
  }

  function Names(ms: seq<Member>): (names: seq<string>)
    ensures |names| == |ms| && forall i :: 0 <= i < |ms| ==> names[i] == ms[i].0
  {
    seq(|ms|, i requires 0 <= i < |ms| => ms[i].0)
  }

  /** These are the members of v, each with its text. */
  ghost predicate MembersOf(v: Json, ms: seq<Member>) {
    && v.Obj?
    && (forall k :: k in v.fields ==> k in Names(ms))
    && forall i :: 0 <= i < |ms| ==> IsMember(v, ms[i])
  }

  ghost predicate IsMember(v: Json, m: Member)
    requires v.Obj?
  {
    m.0 in v.fields && m.1 == Encode(v.fields[m.0])
  }

  /** An object's text lists its members, in order of their names. */
  lemma ObjectText(v: Json, ms: seq<Member>, at: seq<nat>)
    requires MembersOf(v, ms) && Steps(Names(ms), at)
    ensures Encode(v) == "{" + Listing(ms) + "}"
  {
    hide StrLess, LessFrom, Encode, EncodeFields, Listing;
    var names := Names(ms);
    assert forall k :: k in names ==> k in v.fields;
    forall a, b | 0 <= a < b < |names|
      ensures Precedes(names[a], names[b])
    {
      StepsAscend(names, at, a, b);
      StrLessIff(names[a], names[b]);
    }
    MembersInOrder(v.fields, names);
    FieldsText(v, ms, names);
  }

  lemma {:induction false} FieldsText(v: Json, ms: seq<Member>, names: seq<string>)
    requires v.Obj? && names == Names(ms) && forall k :: k in names ==> k in v.fields
    requires forall i :: 0 <= i < |ms| ==> IsMember(v, ms[i])
    ensures EncodeFields(v, names) == Listing(ms)
  {
    hide Encode, Quote;
    if |ms| > 0 {
      assert IsMember(v, ms[0]);
      assert names[1..] == Names(ms[1..]);
      assert forall k :: k in names[1..] ==> k in names;
      FieldsText(v, ms[1..], names[1..]);
    }
  }

  // ---- The records ----

  function PlacementMembers(p: Placement): seq<Member> {
    [("kills", Decimal(p.kills)), ("length", Decimal(p.length)), ("place", Decimal(p.place)),
     ("pubkey", Quote(p.pubKey)), ("score", Decimal(p.score)), ("survival_ticks", Decimal(p.survivalTicks))]
  }

  lemma PlacementNames(p: Placement)
    ensures Names(PlacementMembers(p)) == ["kills", "length", "place", "pubkey", "score", "survival_ticks"]
    ensures Steps(Names(PlacementMembers(p)), [0, 0, 1, 0, 1])
  {
    hide Decimal, Quote;
  }

  lemma PlacementText(p: Placement)
    ensures Encode(PlacementJson(p)) == "{" + Listing(PlacementMembers(p)) + "}"
  {
    hide Listing, Decimal, Quote, Steps;
    PlacementNames(p);
    ObjectText(PlacementJson(p), PlacementMembers(p), [0, 0, 1, 0, 1]);
  }

  /** Login and device are left out where they are not known. */
  function ParticipantMembers(p: Participant): seq<Member> {
    [("display_name", Quote(p.displayName))]
    + (if p.login == "" then [] else [("login", Quote(p.login))])
    + (if p.node == "" then [] else [("node", Quote(p.node))])
    + [("pubkey", Quote(p.pubKey)), ("seat", Decimal(p.seat))]
  }

  lemma ParticipantNames(p: Participant) returns (at: seq<nat>)
    ensures Names(ParticipantMembers(p))
      == ["display_name"] + (if p.login == "" then [] else ["login"]) + (if p.node == "" then [] else ["node"])
         + ["pubkey", "seat"]
    ensures Steps(Names(ParticipantMembers(p)), at)
  {
    hide Decimal, Quote;
    at := seq(|ParticipantMembers(p)| - 1, _ => 0);
  }

  lemma ParticipantText(p: Participant)
    ensures Encode(ParticipantJson(p)) == "{" + Listing(ParticipantMembers(p)) + "}"
  {
    hide Listing, Decimal, Quote, Steps;
    var at := ParticipantNames(p);
    ObjectText(ParticipantJson(p), ParticipantMembers(p), at);
  }

  /** The number of bots is left out where there are none, so results without any keep the text they
      had before there were bots. */
  function ConfigMembers(c: Config): seq<Member> {
    (if c.bots == 0 then [] else [("bots", Decimal(c.bots))])
    + [("food_count", Decimal(c.foodCount)), ("height", Decimal(c.height)), ("max_players", Decimal(c.maxPlayers)),
       ("name", Quote(c.name)), ("seed", Decimal(c.seed)), ("tick_rate", Decimal(c.tickRate)),
       ("ticks_per_move", Decimal(c.ticksPerMove)), ("width", Decimal(c.width)),
       ("wrap", if c.wrap then "true" else "false")]
  }

  lemma ConfigNames(c: Config) returns (at: seq<nat>)
    ensures Names(ConfigMembers(c))
      == (if c.bots == 0 then [] else ["bots"])
         + ["food_count", "height", "max_players", "name", "seed", "tick_rate", "ticks_per_move", "width", "wrap"]
    ensures Steps(Names(ConfigMembers(c)), at)
  {
    hide Decimal, Quote;
    at := (if c.bots == 0 then [] else [0]) + [0, 0, 0, 0, 0, 4, 0, 1];
  }

  lemma ConfigText(c: Config)
    ensures Encode(ConfigJson(c)) == "{" + Listing(ConfigMembers(c)) + "}"
  {
    hide Listing, Decimal, Quote, Steps;
    var at := ConfigNames(c);
    ObjectText(ConfigJson(c), ConfigMembers(c), at);
  }

  /** What a list is written as, given what its entries are; an empty one is null. */
  function ListText(texts: seq<string>): string {
    if |texts| == 0 then "null" else "[" + Row(texts) + "]"
  }

  lemma {:induction false} ItemsText(items: seq<Json>, texts: seq<string>)
    requires |items| == |texts| && forall i :: 0 <= i < |items| ==> texts[i] == Encode(items[i])
    ensures EncodeItems(items) == Row(texts)
  {
    if |items| > 0 {
      ItemsText(items[1..], texts[1..]);
    }
  }

  lemma ListIs<T(!new)>(f: T -> Json, s: seq<T>, texts: seq<string>)
    requires |s| == |texts| && forall i :: 0 <= i < |s| ==> texts[i] == Encode(f(s[i]))
    ensures Encode(ListJson(f, s)) == ListText(texts)
  {
    hide Row;
    if |s| > 0 {
      ItemsText(ListJson(f, s).items, texts);
    }
  }

  function PlacementTexts(ps: seq<Placement>): (texts: seq<string>)
    ensures |texts| == |ps|
  {
    seq(|ps|, i requires 0 <= i < |ps| => "{" + Listing(PlacementMembers(ps[i])) + "}")
  }

  function ParticipantTexts(ps: seq<Participant>): (texts: seq<string>)
    ensures |texts| == |ps|
  {
    seq(|ps|, i requires 0 <= i < |ps| => "{" + Listing(ParticipantMembers(ps[i])) + "}")
  }

  function ResultMembers(r: MatchResult): seq<Member> {
    [("config", "{" + Listing(ConfigMembers(r.config)) + "}"), ("ended_at", Quote(r.endedAt)),
     ("host_pubkey", Quote(r.hostPubKey)), ("lobby_name", Quote(r.lobbyName)), ("match_id", Quote(r.matchId)),
     ("participants", ListText(ParticipantTexts(r.participants))),
     ("placements", ListText(PlacementTexts(r.placements))),
     ("started_at", Quote(r.startedAt)), ("version", Decimal(r.version))]
  }

  lemma ResultNames(r: MatchResult)
    ensures Names(ResultMembers(r))
      == ["config", "ended_at", "host_pubkey", "lobby_name", "match_id", "participants", "placements", "started_at",
          "version"]
    ensures Steps(Names(ResultMembers(r)), [0, 0, 0, 0, 0, 1, 0, 0])
  {
    hide Listing, Decimal, Quote, ListText, ConfigMembers;
  }

  lemma ResultText(r: MatchResult)
    ensures Encode(ResultJson(r)) == "{" + Listing(ResultMembers(r)) + "}"
  {
    hide Listing, Decimal, Quote, ListText, ConfigMembers, ConfigJson, ListJson, Steps;
    ConfigText(r.config);
    ListsText(r);
    ResultNames(r);
    ObjectText(ResultJson(r), ResultMembers(r), [0, 0, 0, 0, 0, 1, 0, 0]);
  }

  lemma ListsText(r: MatchResult)
    ensures Encode(ListJson(ParticipantJson, r.participants)) == ListText(ParticipantTexts(r.participants))
    ensures Encode(ListJson(PlacementJson, r.placements)) == ListText(PlacementTexts(r.placements))
  {
    hide Encode, Listing, ListText, ParticipantMembers, PlacementMembers, ListJson, ParticipantJson, PlacementJson;
    forall i | 0 <= i < |r.participants|
      ensures ParticipantTexts(r.participants)[i] == Encode(ParticipantJson(r.participants[i]))
    {
      ParticipantText(r.participants[i]);
    }
    ListIs(ParticipantJson, r.participants, ParticipantTexts(r.participants));
    forall i | 0 <= i < |r.placements|
      ensures PlacementTexts(r.placements)[i] == Encode(PlacementJson(r.placements[i]))
    {
      PlacementText(r.placements[i]);
    }
    ListIs(PlacementJson, r.placements, PlacementTexts(r.placements));
  }

  /** What the digest is taken of, in whatever order the lists were given: the domain, and the result
      as it is written with both lists in order. */
  lemma HashedBytes(c: Crypto, r: MatchResult, q: MatchResult)
    requires DistinctKeys(PubKeyOf, r.participants) && DistinctRanks(r.placements)
    requires SameUpToOrder(r, q) && Listed(q)
    ensures HashHex(c, r) == c.digest("tailsnail/match-result/v1\n" + ("{" + Listing(ResultMembers(q)) + "}"))
  {
    hide Listing, ResultMembers, ResultJson, Normalize, Encode, Listed;
    ListedIsArranged(r, q);
    NormalizeTwice(r, q);
    ResultText(q);
  }

  lemma ListedIsArranged(r: MatchResult, q: MatchResult)
    requires SameUpToOrder(r, q) && Listed(q)
    ensures Arranged(r, q)
  {
    hide StrLess, Precedes;
    forall a, b | 0 <= a < b < |q.participants|
      ensures !ByKey(PubKeyOf)(q.participants[b], q.participants[a])
    {
      var x, y := q.participants[a], q.participants[b];
      assert PubKeyOf(x) == x.pubKey && PubKeyOf(y) == y.pubKey;
      StrLessIff(x.pubKey, y.pubKey);
      StrLessTrichotomy(x.pubKey, y.pubKey);
    }
    forall a, b | 0 <= a < b < |q.placements|
      ensures !PlacedBefore(q.placements[b], q.placements[a])
    {
      var x, y := q.placements[a], q.placements[b];
      StrLessIff(x.pubKey, y.pubKey);
      StrLessTrichotomy(x.pubKey, y.pubKey);
    }
  }
}
