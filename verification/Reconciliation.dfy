/**
 What repeated exchanges make of the signatures of one match (internal/gossip/gossip.go, over
 internal/store/store.go), and of which matches they make nothing at all.
*/
module Reconciliation {
  import opened Types
  import Sorting
  import opened Text
  import opened Records
  import opened Attestation
  import opened Store
  import opened Gossip
  import opened Convergence
  import opened Samples

  ghost function SignersAt(recs: Recs, id: string): set<string> {
    if id in recs then Signers(recs[id]) else {}
  }

  /** One of the two lacks the match, or has fewer signatures under the hash of the other. */
  ghost predicate Lacking(a: Recs, b: Recs, id: string) {
    id in Lacks(a, b) || id in Lacks(b, a)
  }

  ghost predicate Uncapped(a: Recs, b: Recs) {
    |Lacks(a, b)| <= MAX_RECORDS && |Lacks(b, a)| <= MAX_RECORDS
  }

  // ---- One exchange, one match ----

  /** What the source knows of a match that mine lacks has joined mine. */
  ghost predicate Gains(mine: Recs, mine': Recs, source: Recs, source': Recs, id: string) {
    && id in Lacks(mine, source) && id in source && MatchOf(source[id]) == id
    && Joined(mine, mine', source[id]) && Untouched(source, source', id)
  }

  /** An exchange, seen from one match: only a batch cut short leaves a lacking match alone. */
  ghost predicate ExchangedAt(a: Recs, b: Recs, a': Recs, b': Recs, id: string) {
    || (Untouched(a, a', id) && Untouched(b, b', id) && (Uncapped(a, b) ==> !Lacking(a, b, id)))
    || Gains(a, a', b, b', id)
    || Gains(b, b', a, a', id)
  }

  lemma ExchangeAt(c: Crypto, dialer: Recs, listener: Recs, id: string)
    requires Peers(c, dialer, listener)
    ensures var x := Exchanged(c, dialer, listener); ExchangedAt(dialer, listener, x.dialer, x.listener, id)
  {
    hide StoreOk, Agreeing, SortedSet, PutAll, Held, Pullable, Exchanged, Capped, Joined, Lacks;
    var x := Exchanged(c, dialer, listener);
    var ids, want := Capped(SortedSet(Lacks(dialer, listener))), Capped(SortedSet(Lacks(listener, dialer)));
    FirstHalf(c, dialer, listener);
    SecondHalf(c, dialer, listener);
    ExchangedParts(c, dialer, listener);
    CappedMembers(Lacks(dialer, listener));
    CappedMembers(Lacks(listener, dialer));
    PullEffect(c, dialer, listener, ids, id);
    PullEffect(c, listener, x.dialer, want, id);
    LacksInside(dialer, listener, id);
    LacksInside(listener, dialer, id);
  }

  lemma LacksInside(mine: Recs, theirs: Recs, id: string)
    ensures id in Lacks(mine, theirs) ==>
      id in theirs && id !in Lacks(theirs, mine) && (id in mine ==> mine[id].hash == theirs[id].hash)
  {
  }

  lemma RoundAt(c: Crypto, a: Recs, b: Recs, aDials: bool, id: string)
    requires Peers(c, a, b)
    ensures var (a', b') := Round(c, a, b, aDials); Peers(c, a', b') && ExchangedAt(a, b, a', b', id)
  {
    hide StoreOk, Agreeing, Exchanged, Joined, Untouched, Lacks, Deficit, Settled;
    RoundProgress(c, a, b, aDials);
    if aDials {
      ExchangeAt(c, a, b, id);
    } else {
      AgreeingSymmetric(a, b);
      ExchangeAt(c, b, a, id);
    }
  }

  // ---- Who ends up with which signatures ----

  /** One store holds all that either knew of a match, the other no more than that, both
      under one hash. */
  ghost predicate OneHasAll(full: Recs, part: Recs, id: string, all: set<string>) {
    && id in full && id in part && full[id].hash == part[id].hash
    && Signers(full[id]) == all && Signers(part[id]) <= all
  }

  ghost predicate Collected(a: Recs, b: Recs, id: string, all: set<string>) {
    OneHasAll(a, b, id, all) || OneHasAll(b, a, id, all)
  }

  lemma GainCollects(a: Recs, b: Recs, a': Recs, b': Recs, id: string)
    requires Gains(a, a', b, b', id)
    ensures OneHasAll(a', b', id, SignersAt(a, id) + SignersAt(b, id))
  {
    hide Signers;
  }

  lemma CountsAreSigners(c: Crypto, recs: Recs, id: string)
    requires StoreOk(c, recs) && id in recs
    ensures |recs[id].signatures| == |Signers(recs[id])|
  {
    hide Verified, ValidMatchId;
    SignersPlay(c, recs[id]);
  }

  lemma MoreSigners(s: set<string>, t: set<string>)
    requires s <= t && s != t
    ensures |s| < |t|
  {
    var k :| k in t && k !in s;
    Sorting.SubsetSize(s, t - {k});
  }

  lemma LacksByCount(c: Crypto, full: Recs, part: Recs, id: string, all: set<string>)
    requires StoreOk(c, full) && StoreOk(c, part) && OneHasAll(full, part, id, all)
    ensures id in Lacks(part, full) <==> Signers(part[id]) != all
    ensures id !in Lacks(full, part)
  {
    CountsAreSigners(c, full, id);
    CountsAreSigners(c, part, id);
    hide StoreOk, Signers;
    if Signers(part[id]) != all {
      MoreSigners(Signers(part[id]), all);
    }
  }

  /** What is collected stays collected, and what is lacking of it is passed on unless cut short. */
  lemma CollectedStays(c: Crypto, a: Recs, b: Recs, a': Recs, b': Recs, id: string, all: set<string>)
    requires StoreOk(c, a) && StoreOk(c, b) && OneHasAll(a, b, id, all) && ExchangedAt(a, b, a', b', id)
    ensures OneHasAll(a', b', id, all) && (Uncapped(a, b) ==> Signers(b'[id]) == all)
  {
    hide StoreOk, Signers, Lacks, Uncapped;
    LacksByCount(c, a, b, id, all);
    if Gains(b, b', a, a', id) {
      assert all + Signers(b[id]) == all;
    }
  }

  lemma {:induction false} RoundsKeepCollected(
      c: Crypto, a: Recs, b: Recs, id: string, all: set<string>, aDials: seq<bool>)
    requires Peers(c, a, b) && Collected(a, b, id, all)
    ensures var (a', b') := Rounds(c, a, b, aDials); Collected(a', b', id, all)
    decreases |aDials|
  {
    hide StoreOk, Agreeing, OneHasAll, ExchangedAt, Round;
    if |aDials| > 0 {
      RoundAt(c, a, b, aDials[0], id);
      var (a', b') := Round(c, a, b, aDials[0]);
      CollectedEitherWay(c, a, b, a', b', id, all);
      RoundsKeepCollected(c, a', b', id, all, aDials[1..]);
    }
  }

  lemma CollectedEitherWay(c: Crypto, a: Recs, b: Recs, a': Recs, b': Recs, id: string, all: set<string>)
    requires Peers(c, a, b) && Collected(a, b, id, all) && ExchangedAt(a, b, a', b', id)
    ensures Collected(a', b', id, all)
    ensures Uncapped(a, b) ==> id in a' && id in b' && Signers(a'[id]) == Signers(b'[id]) == all
  {
    hide StoreOk, Agreeing, ExchangedAt, Signers;
    ExchangedEitherWay(a, b, a', b', id);
    if OneHasAll(a, b, id, all) {
      CollectedStays(c, a, b, a', b', id, all);
    } else {
      CollectedStays(c, b, a, b', a', id, all);
    }
  }

  lemma ExchangedEitherWay(a: Recs, b: Recs, a': Recs, b': Recs, id: string)
    ensures ExchangedAt(a, b, a', b', id) <==> ExchangedAt(b, a, b', a', id)
    ensures Uncapped(a, b) <==> Uncapped(b, a)
  {
  }

  /** A match on which two stores differ is either as it was, or one of the two has collected
      everything known of it. */
  ghost predicate AsItWasOrCollected(a: Recs, b: Recs, a': Recs, b': Recs, id: string) {
    || (Untouched(a, a', id) && Untouched(b, b', id))
    || Collected(a', b', id, SignersAt(a, id) + SignersAt(b, id))
  }

  lemma {:induction false} RoundsAt(c: Crypto, a: Recs, b: Recs, id: string, aDials: seq<bool>)
    requires Peers(c, a, b)
    ensures var (a', b') := Rounds(c, a, b, aDials);
      AsItWasOrCollected(a, b, a', b', id) && (!Lacking(a, b, id) ==> Untouched(a, a', id) && Untouched(b, b', id))
    decreases |aDials|
  {
    hide StoreOk, Agreeing, Round, Joined, Lacks, Signers, OneHasAll;
    if |aDials| > 0 {
      RoundAt(c, a, b, aDials[0], id);
      var (a1, b1) := Round(c, a, b, aDials[0]);
      if Gains(a, a1, b, b1, id) {
        GainCollects(a, b, a1, b1, id);
        RoundsKeepCollected(c, a1, b1, id, SignersAt(a, id) + SignersAt(b, id), aDials[1..]);
      } else if Gains(b, b1, a, a1, id) {
        GainCollects(b, a, b1, a1, id);
        assert SignersAt(b, id) + SignersAt(a, id) == SignersAt(a, id) + SignersAt(b, id);
        RoundsKeepCollected(c, a1, b1, id, SignersAt(a, id) + SignersAt(b, id), aDials[1..]);
      } else {
        SameLacking(a, b, a1, b1, id);
        RoundsAt(c, a1, b1, id, aDials[1..]);
      }
    }
  }

  lemma SameLacking(a: Recs, b: Recs, a': Recs, b': Recs, id: string)
    requires Untouched(a, a', id) && Untouched(b, b', id)
    ensures Lacking(a, b, id) <==> Lacking(a', b', id)
  {
  }

  // ---- The theorems ----

  lemma {:induction false} RoundsKeepPeers(c: Crypto, a: Recs, b: Recs, aDials: seq<bool>)
    requires Peers(c, a, b)
    ensures var (a', b') := Rounds(c, a, b, aDials); Peers(c, a', b')
    decreases |aDials|
  {
    hide Peers, Round, Deficit, Settled;
    if |aDials| > 0 {
      RoundProgress(c, a, b, aDials[0]);
      var (a', b') := Round(c, a, b, aDials[0]);
      RoundsKeepPeers(c, a', b', aDials[1..]);
    }
  }

  /** Once two peers are settled, whoever dialled and whatever the batch limit: every match one side
      lacked, or had fewer signatures of under the same hash, is held by both with all signers
      either knew; every other match is exactly as it was. */
  lemma SettledIsReconciled(c: Crypto, a: Recs, b: Recs, id: string, aDials: seq<bool>)
    requires Peers(c, a, b) && Settled(Rounds(c, a, b, aDials).0, Rounds(c, a, b, aDials).1)
    ensures var (a', b') := Rounds(c, a, b, aDials);
      if Lacking(a, b, id) then
        && id in a' && id in b'
        && Signers(a'[id]) == Signers(b'[id]) == SignersAt(a, id) + SignersAt(b, id)
      else Untouched(a, a', id) && Untouched(b, b', id)
  {
    hide StoreOk, Agreeing, Rounds, Lacks, Signers, OneHasAll;
    var (a', b') := Rounds(c, a, b, aDials);
    RoundsKeepPeers(c, a, b, aDials);
    RoundsAt(c, a, b, id, aDials);
    if Lacking(a, b, id) {
      var all := SignersAt(a, id) + SignersAt(b, id);
      if OneHasAll(a', b', id, all) {
        SettledCollected(c, a', b', id, all);
      } else if OneHasAll(b', a', id, all) {
        SettledCollected(c, b', a', id, all);
      } else {
        SameLacking(a, b, a', b', id);
      }
    }
  }

  /** So it is after as many exchanges as one of the two knows facts the other does not. */
  lemma Reconciled(c: Crypto, a: Recs, b: Recs, id: string, aDials: seq<bool>)
    requires Peers(c, a, b) && |aDials| >= Deficit(a, b)
    ensures var (a', b') := Rounds(c, a, b, aDials);
      if Lacking(a, b, id) then
        && id in a' && id in b'
        && Signers(a'[id]) == Signers(b'[id]) == SignersAt(a, id) + SignersAt(b, id)
      else Untouched(a, a', id) && Untouched(b, b', id)
  {
    hide Peers, Rounds, Deficit, Lacking, Signers, Untouched, Settled;
    GossipConverges(c, a, b, aDials);
    SettledIsReconciled(c, a, b, id, aDials);
  }

  lemma SettledCollected(c: Crypto, full: Recs, part: Recs, id: string, all: set<string>)
    requires StoreOk(c, full) && StoreOk(c, part) && OneHasAll(full, part, id, all) && id !in Lacks(part, full)
    ensures id in full && id in part && Signers(full[id]) == Signers(part[id]) == all
  {
    LacksByCount(c, full, part, id, all);
    hide StoreOk, Signers, Lacks;
  }

  /** Exactly when two stores end with the same signers of a match: when one lacked it or had
      fewer signatures under the same hash, or when the signers were the same all along. */
  lemma SignersAgreeIff(c: Crypto, a: Recs, b: Recs, id: string, aDials: seq<bool>)
    requires Peers(c, a, b) && |aDials| >= Deficit(a, b)
    ensures var (a', b') := Rounds(c, a, b, aDials);
      SignersAt(a', id) == SignersAt(b', id) <==> Lacking(a, b, id) || SignersAt(a, id) == SignersAt(b, id)
  {
    hide Peers, Rounds, Deficit, Lacking, Signers;
    Reconciled(c, a, b, id, aDials);
  }

  /** Both hold the match under one hash with as many signatures. */
  ghost predicate EqualCounts(a: Recs, b: Recs, id: string) {
    id in a && id in b && a[id].hash == b[id].hash && |a[id].signatures| == |b[id].signatures|
  }

  /** Signature sets of equal size are never reconciled, however different they are: no
      number of exchanges touches such a match. */
  lemma EqualCountsNeverReconcile(c: Crypto, a: Recs, b: Recs, id: string, aDials: seq<bool>)
    requires Peers(c, a, b) && EqualCounts(a, b, id)
    ensures var (a', b') := Rounds(c, a, b, aDials); Untouched(a, a', id) && Untouched(b, b', id)
  {
    assert !Lacking(a, b, id);
    hide Peers, Rounds, Lacking, EqualCounts, Untouched;
    RoundsAt(c, a, b, id, aDials);
  }

  /** Two exchanges that no batch limit cuts short, dialled by whichever side, already give both
      the union of the signers of every match one of them lacked or had fewer signatures for. */
  lemma TwoExchangesUnite(c: Crypto, a: Recs, b: Recs, id: string, p: bool, q: bool)
    requires Peers(c, a, b) && Lacking(a, b, id)
    requires Uncapped(a, b) && Uncapped(Round(c, a, b, p).0, Round(c, a, b, p).1)
    ensures var (a', b') := Rounds(c, a, b, [p, q]);
      && id in a' && id in b'
      && Signers(a'[id]) == Signers(b'[id]) == SignersAt(a, id) + SignersAt(b, id)
  {
    hide StoreOk, Agreeing, Lacks, Round, Signers, OneHasAll, Uncapped, Lacking, SignersAt, Gains;
    var (a1, b1) := Round(c, a, b, p);
    var (a2, b2) := Round(c, a1, b1, q);
    RoundAt(c, a, b, p, id);
    RoundAt(c, a1, b1, q, id);
    var all := SignersAt(a, id) + SignersAt(b, id);
    assert all == SignersAt(b, id) + SignersAt(a, id);
    if Gains(a, a1, b, b1, id) {
      GainCollects(a, b, a1, b1, id);
    } else {
      GainCollects(b, a, b1, a1, id);
    }
    hide ExchangedAt, Peers;
    CollectedEitherWay(c, a1, b1, a2, b2, id, all);
    TwoRounds(c, a, b, p, q);
  }

  lemma TwoRounds(c: Crypto, a: Recs, b: Recs, p: bool, q: bool)
    ensures var (a1, b1) := Round(c, a, b, p); Rounds(c, a, b, [p, q]) == Round(c, a1, b1, q)
  {
    hide Round;
    var (a1, b1) := Round(c, a, b, p);
    assert [p, q][1..] == [q] && [q][1..] == [];
    assert Rounds(c, a1, b1, [q]) == Round(c, a1, b1, q);
  }

  // ---- Stores filled by Puts ----

  lemma PrefixesCollisionFree(c: Crypto, xs: seq<Record>, ys: seq<Record>)
    requires CollisionFree(c, xs + ys)
    ensures CollisionFree(c, xs) && CollisionFree(c, ys)
  {
    hide NoCollision;
    forall i, j | 0 <= i < |xs| && 0 <= j < |xs|
      ensures NoCollision(c, xs[i].result, xs[j].result)
    {
      assert NoCollision(c, (xs + ys)[i].result, (xs + ys)[j].result);
    }
    forall i, j | 0 <= i < |ys| && 0 <= j < |ys|
      ensures NoCollision(c, ys[i].result, ys[j].result)
    {
      assert NoCollision(c, (xs + ys)[|xs| + i].result, (xs + ys)[|xs| + j].result);
    }
  }

  /** Stores filled from offers on which the digest does not collide cannot contradict each other. */
  lemma PutsArePeers(c: Crypto, xs: seq<Record>, ys: seq<Record>)
    requires CollisionFree(c, xs + ys)
    ensures Peers(c, PutAll(c, map[], xs), PutAll(c, map[], ys))
  {
    hide NoCollision, SamePeople, Good, PutAll, Signers, FirstOffer, OfferedSigners;
    var a, b := PutAll(c, map[], xs), PutAll(c, map[], ys);
    PrefixesCollisionFree(c, xs, ys);
    AnyPutsUnite(c, xs, "");
    AnyPutsUnite(c, ys, "");
    forall id | id in a && id in b && a[id].hash == b[id].hash
      ensures SamePeople(a[id].result, b[id].result)
    {
      AnyPutsUnite(c, xs, id);
      AnyPutsUnite(c, ys, id);
      var j, k := FirstOffer(c, xs, id), FirstOffer(c, ys, id);
      assert NoCollision(c, (xs + ys)[j].result, (xs + ys)[|xs| + k].result);
      HeldAlike(c, a[id], b[id]);
    }
  }

  lemma HeldAlike(c: Crypto, a: Record, b: Record)
    requires Good(c, a) && Good(c, b) && a.hash == b.hash && NoCollision(c, a.result, b.result)
    ensures SamePeople(a.result, b.result)
  {
    hide NoCollision, ValidMatchId, SamePeople;
    EqualHashSameMatch(c, a, b);
  }

  /** What a store filled by Puts knows of the signers of a match under the hash it holds, or
      under any hash when it holds nothing. */
  lemma OfferedAt(c: Crypto, offers: seq<Record>, id: string, hash: string)
    requires CollisionFree(c, offers)
    ensures var recs := PutAll(c, map[], offers);
      (id in recs ==> recs[id].hash == hash) ==> SignersAt(recs, id) == OfferedSigners(c, offers, id, hash)
  {
    AnyPutsUnite(c, offers, id);
    NoneYet(c, offers, id, hash);
    hide CollisionFree, StoreOk, PutAll, Signers, OfferedSigners, Good, Offers;
  }

  /** Two stores, each filled by any sequence of Puts: as long as the digest does not collide on
      the results offered, enough exchanges settle them, and leave both with everybody who signed
      a good offer to either store of a match one of them was behind on. */
  lemma PutsReconcile(c: Crypto, xs: seq<Record>, ys: seq<Record>, id: string, aDials: seq<bool>)
    requires CollisionFree(c, xs + ys)
    requires |aDials| >= Deficit(PutAll(c, map[], xs), PutAll(c, map[], ys))
    ensures var a, b := PutAll(c, map[], xs), PutAll(c, map[], ys);
      var (a', b') := Rounds(c, a, b, aDials);
      && Settled(a', b')
      && (Lacking(a, b, id) ==>
            && id in a' && id in b'
            && var hash := if id in a then a[id].hash else b[id].hash;
               Signers(a'[id]) == Signers(b'[id])
               == OfferedSigners(c, xs, id, hash) + OfferedSigners(c, ys, id, hash))
  {
    hide CollisionFree, StoreOk, PutAll, Signers, OfferedSigners, Deficit, Rounds, Settled, Agreeing, SignersAt;
    var a, b := PutAll(c, map[], xs), PutAll(c, map[], ys);
    PutsArePeers(c, xs, ys);
    PrefixesCollisionFree(c, xs, ys);
    GossipConverges(c, a, b, aDials);
    Reconciled(c, a, b, id, aDials);
    if Lacking(a, b, id) {
      LacksInside(a, b, id);
      LacksInside(b, a, id);
      var hash := if id in a then a[id].hash else b[id].hash;
      OfferedAt(c, xs, id, hash);
      OfferedAt(c, ys, id, hash);
    }
  }

  // ---- Two stores that stay apart for ever ----

  lemma OnePut(c: Crypto, rec: Record)
    requires Good(c, rec)
    ensures PutAll(c, map[], [rec]) == map[rec.result.matchId := rec] && StoreOk(c, PutAll(c, map[], [rec]))
  {
    hide Good;
    assert [rec][..0] == [];
    assert PutAll(c, map[], []) == map[];
  }

  lemma OneResult(c: Crypto, x: Record, y: Record)
    requires Good(c, x) && Good(c, y) && x.result == y.result
    ensures x.hash == y.hash && CollisionFree(c, [x, y])
  {
    hide CanonicalBytes, ValidResult, ValidMatchId;
  }

  lemma StillSignedBy(recs: Recs, recs': Recs, id: string)
    requires Untouched(recs, recs', id)
    ensures SignersAt(recs', id) == SignersAt(recs, id)
  {
    hide Signers;
  }

  /** Two copies of one match, signed by equally many, each put into a store of its own: the two
      stores are at rest as they are, and keep their signers for ever. */
  lemma HalvesStayApart(c: Crypto, x: Record, y: Record, aDials: seq<bool>)
    requires Good(c, x) && Good(c, y) && x.result == y.result && |x.signatures| == |y.signatures|
    ensures CollisionFree(c, [x, y])
    ensures var a, b := PutAll(c, map[], [x]), PutAll(c, map[], [y]);
      var (a', b') := Rounds(c, a, b, aDials);
      && Peers(c, a, b) && Settled(a, b)
      && SignersAt(a', x.result.matchId) == Signers(x) && SignersAt(b', x.result.matchId) == Signers(y)
  {
    hide Good, Signers, PutAll, CollisionFree, StoreOk, Peers, Rounds, Settled, Untouched;
    OnePut(c, x);
    OnePut(c, y);
    OneResult(c, x, y);
    assert [x] + [y] == [x, y];
    PutsArePeers(c, [x], [y]);
    var a, b := PutAll(c, map[], [x]), PutAll(c, map[], [y]);
    SettledMeaning(a, b);
    EqualCountsNeverReconcile(c, a, b, x.result.matchId, aDials);
    StillSignedBy(a, Rounds(c, a, b, aDials).0, x.result.matchId);
    StillSignedBy(b, Rounds(c, a, b, aDials).1, x.result.matchId);
  }

  const DUEL := MatchResult(
    VERSION, "00000000-0000-0000-0000-000000000000", "friendly", FRIENDLY, "", "", "ann",
    [Participant("ann", "Ann", "", "", 0), Participant("ben", "Ben", "", "", 1)], [])

  ghost function DuelSignedBy(key: string): Record {
    var hash := HashHex(PLAIN, DUEL);
    Record(DUEL, hash, [Signature(key, key + hash)])
  }

  lemma DuelIsValid()
    ensures ValidResult(PLAIN, DUEL) && ValidMatchId(DUEL.matchId)
    ensures Plays(DUEL, "ann") && Plays(DUEL, "ben")
  {
    assert DUEL.participants[0] in DUEL.participants && DUEL.participants[1] in DUEL.participants;
  }

  lemma DuelIsGood(key: string)
    requires key in {"ann", "ben"}
    ensures Good(PLAIN, DuelSignedBy(key)) && Signers(DuelSignedBy(key)) == {key}
  {
    hide HashHex, ValidResult, ValidMatchId, Plays;
    DuelIsValid();
    var rec := DuelSignedBy(key);
    assert rec.signatures[0] in rec.signatures;
  }

  /** One store has the duel signed by Ann alone, the other the same duel signed by Ben alone:
      they are never reconciled, although both records verify and nothing collides. */
  lemma DuelStaysHalfSigned(aDials: seq<bool>)
    ensures var x, y := DuelSignedBy("ann"), DuelSignedBy("ben");
      var a, b := PutAll(PLAIN, map[], [x]), PutAll(PLAIN, map[], [y]);
      var (a', b') := Rounds(PLAIN, a, b, aDials);
      && CollisionFree(PLAIN, [x, y]) && Peers(PLAIN, a, b) && Settled(a, b)
      && SignersAt(a', x.result.matchId) == {"ann"} && SignersAt(b', x.result.matchId) == {"ben"}
  {
    hide HashHex, Good, Signers, Peers, CollisionFree, PutAll, Rounds, Settled, SignersAt;
    DuelIsGood("ann");
    DuelIsGood("ben");
    HalvesStayApart(PLAIN, DuelSignedBy("ann"), DuelSignedBy("ben"), aDials);
  }
}
