/** Repeated exchanges converge (internal/gossip/gossip.go). */
module Convergence {
  import opened Types
  import Sorting
  import opened Text
  import opened Records
  import opened Attestation
  import opened Store
  import opened Gossip

  // ---- Facts: what a store knows ----

  datatype Fact = Holds(id: string) | SignedFor(id: string, key: string)

  ghost function Facts(recs: Recs): (facts: set<Fact>)
    ensures forall id :: Holds(id) in facts <==> id in recs
    ensures forall id, key :: SignedFor(id, key) in facts <==> id in recs && key in Signers(recs[id])
  {
    (set id | id in recs :: Holds(id))
    + (set id, s | id in recs && s in recs[id].signatures :: SignedFor(id, s.pubKey))
  }

  /** What one more exchange may still teach the two stores. */
  ghost function Deficit(a: Recs, b: Recs): int {
    2 * |Facts(a) + Facts(b)| - |Facts(a)| - |Facts(b)|
  }

  lemma PulledFacts(c: Crypto, mine: Recs, source: Recs, ids: seq<string>)
    requires Pullable(c, mine, source, ids)
    ensures var mine' := PutAll(c, mine, Held(source, ids));
      Facts(mine) <= Facts(mine') <= Facts(mine) + Facts(source)
  {
    hide Signers, Held, PutAll, Lacks, StoreOk, Agreeing, Facts;
    var mine' := PutAll(c, mine, Held(source, ids));
    forall id
      ensures id in mine ==> id in mine'
      ensures id in mine' ==> id in mine || id in source
      ensures forall key :: id in mine && key in Signers(mine[id]) ==> key in Signers(mine'[id])
      ensures forall key :: id in mine' && key in Signers(mine'[id]) ==>
        (id in mine && key in Signers(mine[id])) || (id in source && key in Signers(source[id]))
    {
      PullEffect(c, mine, source, ids, id);
    }
    forall f | f in Facts(mine)
      ensures f in Facts(mine')
    {
      match f case Holds(id) => case SignedFor(id, key) =>
    }
    forall f | f in Facts(mine')
      ensures f in Facts(mine) + Facts(source)
    {
      match f case Holds(id) => case SignedFor(id, key) =>
    }
  }

  lemma PulledNews(c: Crypto, mine: Recs, source: Recs, ids: seq<string>)
    requires Pullable(c, mine, source, ids) && |ids| > 0
    ensures var mine' := PutAll(c, mine, Held(source, ids)); Facts(mine) != Facts(mine')
  {
    var id := ids[0];
    PullEffect(c, mine, source, ids, id);
    WorthPulling(c, mine, source, id);
    hide Signers, Held, PutAll, StoreOk, Agreeing, Facts;
    var mine' := PutAll(c, mine, Held(source, ids));
    if id in mine {
      var key :| key in Signers(source[id]) && key !in Signers(mine[id]);
      assert SignedFor(id, key) in Facts(mine') && SignedFor(id, key) !in Facts(mine);
    } else {
      assert Holds(id) in Facts(mine') && Holds(id) !in Facts(mine);
    }
  }

  lemma PulledAgreeAt(c: Crypto, mine: Recs, source: Recs, ids: seq<string>, id: string)
    requires Pullable(c, mine, source, ids)
    ensures var mine' := PutAll(c, mine, Held(source, ids));
      && StoreOk(c, mine')
      && (id in mine' && id in source && mine'[id].hash == source[id].hash ==>
            SamePeople(mine'[id].result, source[id].result) && SamePeople(source[id].result, mine'[id].result))
  {
    PullEffect(c, mine, source, ids, id);
    var mine' := PutAll(c, mine, Held(source, ids));
    hide Signers, Held, PutAll, StoreOk, SamePeople, Lacks;
    if id in mine' && id in source && mine'[id].hash == source[id].hash {
      if id in mine {
        assert mine'[id].result == mine[id].result;
        if id in ids {
          LackedHash(c, mine, source, ids, id);
        }
        AgreeingAt(c, mine, source, ids, id);
        PeopleRelation(mine[id].result, source[id].result);
      } else {
        PeopleRelation(source[id].result, source[id].result);
      }
    }
  }

  lemma AgreeingAt(c: Crypto, mine: Recs, source: Recs, ids: seq<string>, id: string)
    requires Pullable(c, mine, source, ids) && id in mine && id in source && mine[id].hash == source[id].hash
    ensures SamePeople(mine[id].result, source[id].result)
  {
    hide StoreOk, SamePeople, Lacks;
  }

  lemma LackedHash(c: Crypto, mine: Recs, source: Recs, ids: seq<string>, id: string)
    requires Pullable(c, mine, source, ids) && id in ids && id in mine
    ensures id in source && mine[id].hash == source[id].hash
  {
    hide StoreOk, Agreeing;
    assert id in Lacks(mine, source);
  }

  /** A pull leaves the two stores agreeing, either way round. */
  lemma PulledAgree(c: Crypto, mine: Recs, source: Recs, ids: seq<string>)
    requires Pullable(c, mine, source, ids)
    ensures var mine' := PutAll(c, mine, Held(source, ids));
      StoreOk(c, mine') && Agreeing(mine', source) && Agreeing(source, mine')
  {
    hide Signers, Held, PutAll, StoreOk, SamePeople, Pullable;
    var mine' := PutAll(c, mine, Held(source, ids));
    PulledAgreeAt(c, mine, source, ids, "");
    forall id | id in mine' && id in source && mine'[id].hash == source[id].hash
      ensures SamePeople(mine'[id].result, source[id].result) && SamePeople(source[id].result, mine'[id].result)
    {
      PulledAgreeAt(c, mine, source, ids, id);
    }
  }

  lemma PeopleRelation(r: MatchResult, q: MatchResult)
    ensures SamePeople(r, r) && (SamePeople(r, q) ==> SamePeople(q, r))
  {
  }

  /** What the listener lacked before the dialer learnt more, it still lacks after. */
  lemma StillLacks(c: Crypto, mine: Recs, source: Recs, ids: seq<string>, id: string)
    requires Pullable(c, mine, source, ids) && id in Lacks(source, mine)
    ensures id in Lacks(source, PutAll(c, mine, Held(source, ids)))
  {
    var mine' := PutAll(c, mine, Held(source, ids));
    PullEffect(c, mine, source, ids, id);
    hide Signers, Held, PutAll, Agreeing, Verified, ValidMatchId, SamePeople;
    SignersPlay(c, mine[id]);
    SignersPlay(c, mine'[id]);
    Sorting.SubsetSize(Signers(mine[id]), Signers(mine'[id]));
  }

  lemma CappedMembers(s: set<string>)
    ensures var ids := Capped(SortedSet(s));
      && Sorting.NoRepeats(ids) && (forall id :: id in ids ==> id in s)
      && |ids| == (if |s| > MAX_RECORDS then MAX_RECORDS else |s|)
      && (|s| <= MAX_RECORDS ==> forall id :: id in s ==> id in ids)
  {
    var all := SortedSet(s);
    SortedSetOnce(s);
    hide SortedSet, Capped;
    assert Sorting.Elements(all) == s;
    CappedPrefix(all);
  }

  lemma SortedSetOnce(s: set<string>)
    ensures Sorting.NoRepeats(SortedSet(s)) && forall id :: id in SortedSet(s) <==> id in s
  {
    SortedSetAscending(s);
    hide SortedSet, StrLess;
    AscendingDistinct(Same, SortedSet(s));
  }

  lemma CappedPrefix(all: seq<string>)
    requires Sorting.NoRepeats(all)
    ensures Sorting.NoRepeats(Capped(all)) && forall id :: id in Capped(all) ==> id in all
    ensures |Capped(all)| == (if |all| > MAX_RECORDS then MAX_RECORDS else |all|)
    ensures |all| <= MAX_RECORDS ==> Capped(all) == all
  {
  }

  lemma FirstHalf(c: Crypto, dialer: Recs, listener: Recs)
    requires StoreOk(c, dialer) && StoreOk(c, listener) && Agreeing(dialer, listener)
    ensures Pullable(c, dialer, listener, Capped(SortedSet(Lacks(dialer, listener))))
  {
    CappedMembers(Lacks(dialer, listener));
  }

  lemma CappedTwice(ids: seq<string>)
    ensures Capped(Capped(ids)) == Capped(ids)
  {
  }

  lemma SecondHalf(c: Crypto, dialer: Recs, listener: Recs)
    requires StoreOk(c, dialer) && StoreOk(c, listener) && Agreeing(dialer, listener)
    ensures Pullable(c, listener, Exchanged(c, dialer, listener).dialer, Capped(SortedSet(Lacks(listener, dialer))))
  {
    var ids := Capped(SortedSet(Lacks(dialer, listener)));
    FirstHalf(c, dialer, listener);
    PulledAgree(c, dialer, listener, ids);
    var want := Capped(SortedSet(Lacks(listener, dialer)));
    CappedMembers(Lacks(listener, dialer));
    hide StoreOk, Agreeing, Lacks, Capped, SortedSet, PutAll, Held;
    forall id | id in want
      ensures id in Lacks(listener, Exchanged(c, dialer, listener).dialer)
    {
      StillLacks(c, dialer, listener, ids, id);
    }
  }

  /** One exchange between two stores that do not contradict each other: both only grow, and
      nothing is invented. */
  lemma ExchangeGrows(c: Crypto, dialer: Recs, listener: Recs)
    requires StoreOk(c, dialer) && StoreOk(c, listener) && Agreeing(dialer, listener)
    ensures var x := Exchanged(c, dialer, listener);
      && StoreOk(c, x.dialer) && StoreOk(c, x.listener) && Agreeing(x.dialer, x.listener)
      && Facts(dialer) <= Facts(x.dialer) && Facts(listener) <= Facts(x.listener)
      && Facts(x.dialer) + Facts(x.listener) == Facts(dialer) + Facts(listener)
      && (!Settled(dialer, listener) ==> Facts(dialer) != Facts(x.dialer) || Facts(listener) != Facts(x.listener))
  {
    var x := Exchanged(c, dialer, listener);
    var ids, want := Capped(SortedSet(Lacks(dialer, listener))), Capped(SortedSet(Lacks(listener, dialer)));
    FirstHalf(c, dialer, listener);
    SecondHalf(c, dialer, listener);
    ExchangedParts(c, dialer, listener);
    BatchesAreEmpty(dialer, listener);
    hide StoreOk, Agreeing, Lacks, SortedSet, PutAll, Held, Facts, Received, Rejected, Pullable;
    hide Exchanged, Capped, Settled;
    PullSummary(c, dialer, listener, ids);
    PullSummary(c, listener, x.dialer, want);
    NothingInvented(Facts(dialer), Facts(listener), Facts(x.dialer), Facts(x.listener));
  }

  lemma BatchesAreEmpty(a: Recs, b: Recs)
    ensures Settled(a, b) <==> |Capped(SortedSet(Lacks(a, b)))| == 0 && |Capped(SortedSet(Lacks(b, a)))| == 0
  {
    CappedMembers(Lacks(a, b));
    CappedMembers(Lacks(b, a));
    SomeInside(Lacks(a, b));
    SomeInside(Lacks(b, a));
    hide Lacks, SortedSet, Capped;
  }

  /** Exactly the lesser of the batch limit and what is lacking moves in each direction, all of
      it is news to the side that gets it, and nothing is refused. */
  lemma ExchangeMoves(c: Crypto, dialer: Recs, listener: Recs)
    requires StoreOk(c, dialer) && StoreOk(c, listener) && Agreeing(dialer, listener)
    ensures var x := Exchanged(c, dialer, listener);
      && |x.sentToDialer| == Min(48, |Lacks(dialer, listener)|)
      && |x.sentToListener| == Min(48, |Lacks(listener, dialer)|)
      && Received(c, dialer, x.sentToDialer) == |x.sentToDialer|
      && Received(c, listener, x.sentToListener) == |x.sentToListener|
      && Rejected(c, dialer, x.sentToDialer) == 0 && Rejected(c, listener, x.sentToListener) == 0
  {
    hide StoreOk, Agreeing, Lacks, SortedSet, PutAll, Held, Facts, Received, Rejected, Pullable, Exchanged, Capped;
    var x := Exchanged(c, dialer, listener);
    var ids, want := Capped(SortedSet(Lacks(dialer, listener))), Capped(SortedSet(Lacks(listener, dialer)));
    FirstHalf(c, dialer, listener);
    SecondHalf(c, dialer, listener);
    ExchangedParts(c, dialer, listener);
    CappedMembers(Lacks(dialer, listener));
    CappedMembers(Lacks(listener, dialer));
    PullSummary(c, dialer, listener, ids);
    PullSummary(c, listener, x.dialer, want);
  }

  lemma NothingInvented(a: set<Fact>, b: set<Fact>, a': set<Fact>, b': set<Fact>)
    requires a <= a' <= a + b && b <= b' <= b + a'
    ensures a' + b' == a + b
  {
  }

  lemma ExchangedParts(c: Crypto, dialer: Recs, listener: Recs)
    ensures var x := Exchanged(c, dialer, listener);
      var ids, want := Capped(SortedSet(Lacks(dialer, listener))), Capped(SortedSet(Lacks(listener, dialer)));
      && x.sentToDialer == Held(listener, ids) && x.dialer == PutAll(c, dialer, x.sentToDialer)
      && x.sentToListener == Held(x.dialer, want) && x.listener == PutAll(c, listener, x.sentToListener)
  {
    CappedTwice(SortedSet(Lacks(listener, dialer)));
  }

  lemma PullSummary(c: Crypto, mine: Recs, source: Recs, ids: seq<string>)
    requires Pullable(c, mine, source, ids)
    ensures var batch := Held(source, ids); var mine' := PutAll(c, mine, batch);
      && StoreOk(c, mine') && Agreeing(mine', source) && Agreeing(source, mine')
      && Facts(mine) <= Facts(mine') <= Facts(mine) + Facts(source)
      && (|ids| > 0 ==> Facts(mine) != Facts(mine'))
      && |batch| == |ids| && Received(c, mine, batch) == |ids| && Rejected(c, mine, batch) == 0
  {
    hide StoreOk, Agreeing, PutAll, Held, Facts, Received, Rejected, Pullable;
    PulledFacts(c, mine, source, ids);
    PulledAgree(c, mine, source, ids);
    PulledCounts(c, mine, source, ids);
    if |ids| > 0 {
      PulledNews(c, mine, source, ids);
    }
  }

  lemma PulledCounts(c: Crypto, mine: Recs, source: Recs, ids: seq<string>)
    requires Pullable(c, mine, source, ids)
    ensures var batch := Held(source, ids);
      |batch| == |ids| && Received(c, mine, batch) == |ids| && Rejected(c, mine, batch) == 0
  {
    PullIsWelcome(c, mine, source, ids);
    hide StoreOk, Agreeing, Welcome, News;
    StoreOkOf(c, mine, source, ids);
    NewsIsReceived(c, mine, Held(source, ids));
  }

  ghost predicate Settled(a: Recs, b: Recs) {
    Lacks(a, b) == {} && Lacks(b, a) == {}
  }

  /** Settled means the same matches and, wherever the hashes agree, as many signatures. */
  lemma SettledMeaning(a: Recs, b: Recs)
    ensures Settled(a, b) <==>
      && a.Keys == b.Keys
      && forall id :: id in a && id in b && a[id].hash == b[id].hash ==>
           |a[id].signatures| == |b[id].signatures|
  {
    assert forall id :: id in Lacks(a, b) ==> id !in {};
    if Settled(a, b) {
      forall id
        ensures id in a <==> id in b
        ensures id in a && id in b && a[id].hash == b[id].hash ==> |a[id].signatures| == |b[id].signatures|
      {
        assert id !in Lacks(a, b) && id !in Lacks(b, a);
      }
    }
  }

  /** Every exchange that can move something makes the deficit strictly smaller. */
  lemma ExchangeProgress(c: Crypto, dialer: Recs, listener: Recs)
    requires StoreOk(c, dialer) && StoreOk(c, listener) && Agreeing(dialer, listener)
    ensures var x := Exchanged(c, dialer, listener);
      if Settled(dialer, listener) then x.dialer == dialer && x.listener == listener
      else Deficit(x.dialer, x.listener) < Deficit(dialer, listener)
    ensures Deficit(dialer, listener) >= 0
  {
    var x := Exchanged(c, dialer, listener);
    ExchangeGrows(c, dialer, listener);
    FewerFacts(Facts(dialer), Facts(listener), Facts(x.dialer), Facts(x.listener));
    if Settled(dialer, listener) {
      NothingMoves(c, dialer, listener);
    }
    hide StoreOk, Agreeing, Facts, Exchanged, Settled;
  }

  lemma NothingMoves(c: Crypto, dialer: Recs, listener: Recs)
    requires Settled(dialer, listener)
    ensures var x := Exchanged(c, dialer, listener); x.dialer == dialer && x.listener == listener
  {
    BatchesAreEmpty(dialer, listener);
    ExchangedParts(c, dialer, listener);
    hide Exchanged, SortedSet, Lacks, Capped;
  }

  lemma SomeInside<T>(s: set<T>)
    ensures s == {} <==> |s| == 0
  {
  }

  lemma FewerFacts(a: set<Fact>, b: set<Fact>, a': set<Fact>, b': set<Fact>)
    requires a <= a' && b <= b' && a' + b' == a + b
    ensures 2 * |a + b| - |a| - |b| >= 0
    ensures a != a' || b != b' ==> 2 * |a' + b'| - |a'| - |b'| < 2 * |a + b| - |a| - |b|
  {
    Sorting.SubsetSize(a, a + b);
    Sorting.SubsetSize(b, a + b);
    Sorting.SubsetSize(a, a');
    Sorting.SubsetSize(b, b');
    if a != a' {
      var f :| f in a' && f !in a;
      Sorting.SubsetSize(a, a' - {f});
    }
    if b != b' {
      var f :| f in b' && f !in b;
      Sorting.SubsetSize(b, b' - {f});
    }
  }

  /** One exchange between a and b, dialled by either. */
  ghost function Round(c: Crypto, a: Recs, b: Recs, aDials: bool): (Recs, Recs) {
    if aDials then var x := Exchanged(c, a, b); (x.dialer, x.listener)
    else var x := Exchanged(c, b, a); (x.listener, x.dialer)
  }

  /** Any number of exchanges between a and b, either of them dialling each time. */
  ghost function Rounds(c: Crypto, a: Recs, b: Recs, aDials: seq<bool>): (Recs, Recs)
    decreases |aDials|
  {
    if |aDials| == 0 then (a, b)
    else var (a', b') := Round(c, a, b, aDials[0]); Rounds(c, a', b', aDials[1..])
  }

  lemma DeficitSymmetric(a: Recs, b: Recs)
    ensures Deficit(a, b) == Deficit(b, a)
  {
    assert Facts(a) + Facts(b) == Facts(b) + Facts(a);
  }

  lemma AgreeingSymmetric(a: Recs, b: Recs)
    requires Agreeing(a, b)
    ensures Agreeing(b, a)
  {
    hide SamePeople;
    forall id | id in a && id in b && a[id].hash == b[id].hash
      ensures SamePeople(b[id].result, a[id].result)
    {
      PeopleRelation(a[id].result, b[id].result);
    }
  }

  /** Two stores whose contents verify and do not contradict each other. */
  ghost predicate Peers(c: Crypto, a: Recs, b: Recs) {
    StoreOk(c, a) && StoreOk(c, b) && Agreeing(a, b)
  }

  /** Whoever dials, a round leaves settled stores as they are and makes the deficit of others
      strictly smaller. */
  lemma RoundProgress(c: Crypto, a: Recs, b: Recs, aDials: bool)
    requires Peers(c, a, b)
    ensures var (a', b') := Round(c, a, b, aDials);
      && Peers(c, a', b')
      && (if Settled(a, b) then (a', b') == (a, b) else Deficit(a', b') < Deficit(a, b))
    ensures Deficit(a, b) >= 0
  {
    hide StoreOk, Agreeing, Lacks, Deficit, Facts, Exchanged;
    ExchangeProgress(c, a, b);
    if aDials {
      ExchangeGrows(c, a, b);
    } else {
      AgreeingSymmetric(a, b);
      ExchangeProgress(c, b, a);
      ExchangeGrows(c, b, a);
      var x := Exchanged(c, b, a);
      AgreeingSymmetric(x.dialer, x.listener);
      DeficitSymmetric(a, b);
      DeficitSymmetric(x.dialer, x.listener);
    }
  }

  /** Two stores that do not contradict each other settle, whoever dials, in at most as many
      exchanges as their deficit, and stay settled. */
  lemma {:induction false} GossipConverges(c: Crypto, a: Recs, b: Recs, aDials: seq<bool>)
    requires Peers(c, a, b) && |aDials| >= Deficit(a, b)
    ensures var (a', b') := Rounds(c, a, b, aDials); Peers(c, a', b') && Settled(a', b')
    decreases |aDials|
  {
    hide Peers, Settled, Deficit, Round;
    RoundProgress(c, a, b, true);
    if Settled(a, b) {
      SettledStays(c, a, b, aDials);
    } else if |aDials| > 0 {
      RoundProgress(c, a, b, aDials[0]);
      var (a', b') := Round(c, a, b, aDials[0]);
      GossipConverges(c, a', b', aDials[1..]);
    } else {
      var (a', b') := Round(c, a, b, true);
      RoundProgress(c, a', b', true);
    }
  }

  lemma {:induction false} SettledStays(c: Crypto, a: Recs, b: Recs, aDials: seq<bool>)
    requires Peers(c, a, b) && Settled(a, b)
    ensures Rounds(c, a, b, aDials) == (a, b)
  {
    hide Peers, Settled, Deficit, Round;
    if |aDials| > 0 {
      RoundProgress(c, a, b, aDials[0]);
      SettledStays(c, a, b, aDials[1..]);
    }
  }
}
