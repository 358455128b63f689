/** Any number of peers, exchanging in pairs (internal/gossip/gossip.go). */
module GossipNetwork {
  import opened Types
  import Sorting
  import opened Text
  import opened Records
  import opened Attestation
  import opened Store
  import opened Gossip
  import opened Convergence
  import opened Reconciliation

  type Net = seq<Recs>

  /** A meeting of two peers: who dials, and who listens. */
  type Meeting = (nat, nat)

  ghost predicate Network(c: Crypto, net: Net) {
    forall i, j :: 0 <= i < |net| && 0 <= j < |net| ==> Peers(c, net[i], net[j])
  }

  predicate Proper(n: nat, m: Meeting) { m.0 < n && m.1 < n && m.0 != m.1 }

  ghost predicate AllProper(n: nat, ms: seq<Meeting>) {
    forall m :: m in ms ==> Proper(n, m)
  }

  ghost function Met(c: Crypto, net: Net, m: Meeting): (net': Net)
    requires Proper(|net|, m)
    ensures |net'| == |net|
  {
    var x := Exchanged(c, net[m.0], net[m.1]);
    net[m.0 := x.dialer][m.1 := x.listener]
  }

  ghost function AllMet(c: Crypto, net: Net, ms: seq<Meeting>): (net': Net)
    requires AllProper(|net|, ms)
    ensures |net'| == |net|
    decreases |ms|
  {
    if |ms| == 0 then net else AllMet(c, Met(c, net, ms[0]), ms[1..])
  }

  // ---- Nobody comes to contradict a third ----

  lemma PulledAgreesWith(c: Crypto, mine: Recs, source: Recs, ids: seq<string>, third: Recs)
    requires Pullable(c, mine, source, ids) && Agreeing(mine, third) && Agreeing(source, third)
    ensures Agreeing(PutAll(c, mine, Held(source, ids)), third)
  {
    hide Signers, Held, PutAll, StoreOk, SamePeople, Lacks, Pullable;
    var mine' := PutAll(c, mine, Held(source, ids));
    forall id | id in mine' && id in third && mine'[id].hash == third[id].hash
      ensures SamePeople(mine'[id].result, third[id].result)
    {
      PullEffect(c, mine, source, ids, id);
      if id in mine && id in ids {
        LackedHash(c, mine, source, ids, id);
      }
    }
  }

  lemma ExchangeAgreesWith(c: Crypto, dialer: Recs, listener: Recs, third: Recs)
    requires Peers(c, dialer, listener) && Peers(c, dialer, third) && Peers(c, listener, third)
    ensures var x := Exchanged(c, dialer, listener); Peers(c, x.dialer, third) && Peers(c, x.listener, third)
  {
    hide StoreOk, Agreeing, SortedSet, PutAll, Held, Pullable, Exchanged, Capped, Lacks, Facts, Settled;
    var x := Exchanged(c, dialer, listener);
    var ids, want := Capped(SortedSet(Lacks(dialer, listener))), Capped(SortedSet(Lacks(listener, dialer)));
    FirstHalf(c, dialer, listener);
    SecondHalf(c, dialer, listener);
    ExchangedParts(c, dialer, listener);
    ExchangeGrows(c, dialer, listener);
    PulledAgreesWith(c, dialer, listener, ids, third);
    PulledAgreesWith(c, listener, x.dialer, want, third);
  }

  lemma PeersSymmetric(c: Crypto, a: Recs, b: Recs)
    requires Peers(c, a, b)
    ensures Peers(c, b, a)
  {
    hide StoreOk, Agreeing;
    AgreeingSymmetric(a, b);
  }

  lemma SelfPeer(c: Crypto, a: Recs)
    requires StoreOk(c, a)
    ensures Peers(c, a, a)
  {
    hide SamePeople, StoreOk;
    forall id | id in a
      ensures SamePeople(a[id].result, a[id].result)
    {
      PeopleRelation(a[id].result, a[id].result);
    }
  }

  lemma PeersOfOk(c: Crypto, a: Recs, b: Recs)
    requires Peers(c, a, b)
    ensures StoreOk(c, a) && StoreOk(c, b) && Agreeing(a, b)
  {
  }

  lemma MeetingKeepsPeers(c: Crypto, net: Net, m: Meeting, j: nat)
    requires Network(c, net) && Proper(|net|, m) && j < |net| && j != m.0 && j != m.1
    ensures var net' := Met(c, net, m); net'[j] == net[j] && Peers(c, net'[m.0], net[j]) && Peers(c, net'[m.1], net[j])
  {
    hide Peers, Exchanged;
    ExchangeAgreesWith(c, net[m.0], net[m.1], net[j]);
  }

  lemma PairKeepsPeers(c: Crypto, a: Recs, b: Recs)
    requires Peers(c, a, b)
    ensures var x := Exchanged(c, a, b); Peers(c, x.dialer, x.listener) && Peers(c, x.listener, x.dialer)
    ensures var x := Exchanged(c, a, b); Peers(c, x.dialer, x.dialer) && Peers(c, x.listener, x.listener)
  {
    hide StoreOk, Agreeing, Exchanged, Facts, Settled;
    var x := Exchanged(c, a, b);
    ExchangeGrows(c, a, b);
    AgreeingSymmetric(x.dialer, x.listener);
    SelfPeer(c, x.dialer);
    SelfPeer(c, x.listener);
  }

  lemma MeetingKeepsNetwork(c: Crypto, net: Net, m: Meeting)
    requires Network(c, net) && Proper(|net|, m)
    ensures Network(c, Met(c, net, m))
  {
    hide Peers, Exchanged;
    var net' := Met(c, net, m);
    PairKeepsPeers(c, net[m.0], net[m.1]);
    forall i, j | 0 <= i < |net| && 0 <= j < |net|
      ensures Peers(c, net'[i], net'[j])
    {
      if j != m.0 && j != m.1 {
        MeetingKeepsPeers(c, net, m, j);
      } else if i != m.0 && i != m.1 {
        MeetingKeepsPeers(c, net, m, i);
        PeersSymmetric(c, net'[j], net'[i]);
      }
    }
  }

  // ---- What is known, by anybody and altogether ----

  ghost function AllFacts(net: Net): (facts: set<Fact>)
    ensures forall i, f :: 0 <= i < |net| && f in Facts(net[i]) ==> f in facts
    ensures forall f :: f in facts ==> exists i :: 0 <= i < |net| && f in Facts(net[i])
  {
    set i, f | 0 <= i < |net| && f in Facts(net[i]) :: f
  }

  ghost function Known(net: Net): nat {
    if |net| == 0 then 0 else Known(net[..|net|-1]) + |Facts(net[|net|-1])|
  }

  /** How many facts all peers together have yet to learn. */
  ghost function Gap(net: Net): int { |net| * |AllFacts(net)| - Known(net) }

  lemma {:induction false} KnownUpdate(net: Net, i: nat, recs: Recs)
    requires i < |net|
    ensures Known(net[i := recs]) == Known(net) - |Facts(net[i])| + |Facts(recs)|
  {
    hide Facts;
    var n := |net| - 1;
    if i < n {
      KnownUpdate(net[..n], i, recs);
      assert net[i := recs][..n] == net[..n][i := recs];
    } else {
      assert net[i := recs][..n] == net[..n];
    }
  }

  lemma {:induction false} KnownBound(net: Net, all: set<Fact>)
    requires forall i :: 0 <= i < |net| ==> Facts(net[i]) <= all
    ensures Known(net) <= |net| * |all|
  {
    hide Facts;
    if |net| > 0 {
      var n := |net| - 1;
      KnownBound(net[..n], all);
      assert Facts(net[n]) <= all;
      Sorting.SubsetSize(Facts(net[n]), all);
      assert |net| * |all| == n * |all| + |all|;
    }
  }

  lemma GapIsNatural(net: Net)
    ensures Gap(net) >= 0
  {
    hide Facts, Known;
    assert forall i :: 0 <= i < |net| ==> Facts(net[i]) <= AllFacts(net);
    KnownBound(net, AllFacts(net));
  }

  /** The facts of two peers, once they have met. */
  ghost predicate Shared(a: Recs, b: Recs, a': Recs, b': Recs) {
    Facts(a) <= Facts(a') && Facts(b) <= Facts(b') && Facts(a') + Facts(b') == Facts(a) + Facts(b)
  }

  lemma MeetingShares(c: Crypto, net: Net, m: Meeting)
    requires Network(c, net) && Proper(|net|, m)
    ensures var net' := Met(c, net, m); Shared(net[m.0], net[m.1], net'[m.0], net'[m.1])
    ensures var net' := Met(c, net, m);
      !Settled(net[m.0], net[m.1]) ==> Facts(net'[m.0]) != Facts(net[m.0]) || Facts(net'[m.1]) != Facts(net[m.1])
    ensures Settled(net[m.0], net[m.1]) ==> Met(c, net, m) == net
  {
    hide StoreOk, Agreeing, Exchanged, Facts, Settled, Deficit;
    assert Peers(c, net[m.0], net[m.1]);
    ExchangeGrows(c, net[m.0], net[m.1]);
    ExchangeProgress(c, net[m.0], net[m.1]);
  }

  lemma SameAllFacts(c: Crypto, net: Net, m: Meeting)
    requires Network(c, net) && Proper(|net|, m)
    ensures AllFacts(Met(c, net, m)) == AllFacts(net)
  {
    hide Facts, Settled, Network, AllFacts;
    MeetingShares(c, net, m);
    var net' := Met(c, net, m);
    hide Met;
    forall f
      ensures f in AllFacts(net') <==> f in AllFacts(net)
    {
      OthersUntouched(c, net, m);
      if f in AllFacts(net) {
        var i :| 0 <= i < |net| && f in Facts(net[i]);
        assert f in Facts(net'[i]) by { if i != m.0 && i != m.1 { assert net'[i] == net[i]; } }
      }
      if f in AllFacts(net') {
        var i :| 0 <= i < |net'| && f in Facts(net'[i]);
        if i == m.0 || i == m.1 {
          assert f in Facts(net[m.0]) + Facts(net[m.1]);
        } else {
          assert f in Facts(net[i]);
        }
      }
    }
  }

  lemma OthersUntouched(c: Crypto, net: Net, m: Meeting)
    requires Proper(|net|, m)
    ensures forall i :: 0 <= i < |net| && i != m.0 && i != m.1 ==> Met(c, net, m)[i] == net[i]
  {
    hide Exchanged;
  }

  /** A meeting of two who are not settled closes the gap by at least one; any other changes
      nothing. */
  lemma MeetingProgress(c: Crypto, net: Net, m: Meeting)
    requires Network(c, net) && Proper(|net|, m)
    ensures Network(c, Met(c, net, m))
    ensures if Settled(net[m.0], net[m.1]) then Met(c, net, m) == net else Gap(Met(c, net, m)) < Gap(net)
  {
    hide Facts, Settled, Network, Exchanged, AllFacts, Known;
    MeetingKeepsNetwork(c, net, m);
    MeetingShares(c, net, m);
    SameAllFacts(c, net, m);
    var x := Exchanged(c, net[m.0], net[m.1]);
    KnownUpdate(net, m.0, x.dialer);
    KnownUpdate(net[m.0 := x.dialer], m.1, x.listener);
    MoreFacts(Facts(net[m.0]), Facts(x.dialer));
    MoreFacts(Facts(net[m.1]), Facts(x.listener));
  }

  lemma MoreFacts(a: set<Fact>, b: set<Fact>)
    requires a <= b
    ensures |a| <= |b| && (a != b ==> |a| < |b|)
  {
    Sorting.SubsetSize(a, b);
    if a != b {
      var f :| f in b && f !in a;
      Sorting.SubsetSize(a, b - {f});
    }
  }

  // ---- Schedules ----

  lemma {:induction false} NothingIsLost(c: Crypto, net: Net, ms: seq<Meeting>)
    requires Network(c, net) && AllProper(|net|, ms)
    ensures Network(c, AllMet(c, net, ms)) && Gap(AllMet(c, net, ms)) <= Gap(net)
    ensures AllFacts(AllMet(c, net, ms)) == AllFacts(net)
    decreases |ms|
  {
    hide Network, Gap, AllFacts, Met, Settled;
    if |ms| > 0 {
      assert ms[0] in ms && forall m :: m in ms[1..] ==> m in ms;
      MeetingProgress(c, net, ms[0]);
      SameAllFacts(c, net, ms[0]);
      NothingIsLost(c, Met(c, net, ms[0]), ms[1..]);
    }
  }

  /** How many of the meetings are of two peers that are not settled. */
  ghost function Useful(c: Crypto, net: Net, ms: seq<Meeting>): nat
    requires AllProper(|net|, ms)
    decreases |ms|
  {
    if |ms| == 0 then 0
    else
      assert ms[0] in ms && Proper(|net|, ms[0]);
      (if Settled(net[ms[0].0], net[ms[0].1]) then 0 else 1) + Useful(c, Met(c, net, ms[0]), ms[1..])
  }

  /** Of any sequence of meetings at most as many move anything as there are facts to be learnt. */
  lemma {:induction false} FewAreUseful(c: Crypto, net: Net, ms: seq<Meeting>)
    requires Network(c, net) && AllProper(|net|, ms)
    ensures Useful(c, net, ms) <= Gap(net) - Gap(AllMet(c, net, ms)) <= Gap(net)
    decreases |ms|
  {
    hide Network, Gap, Met, Settled, AllFacts;
    GapIsNatural(AllMet(c, net, ms));
    if |ms| > 0 {
      assert ms[0] in ms && forall m :: m in ms[1..] ==> m in ms;
      MeetingProgress(c, net, ms[0]);
      FewAreUseful(c, Met(c, net, ms[0]), ms[1..]);
    }
  }

  ghost predicate AllSettled(net: Net) {
    forall i, j :: 0 <= i < j < |net| ==> Settled(net[i], net[j])
  }

  /** Every two peers meet in it at least once, either of them dialling. */
  ghost predicate Full(n: nat, round: seq<Meeting>) {
    AllProper(n, round) && forall i: nat, j: nat :: i < j < n ==> (i, j) in round || (j, i) in round
  }

  lemma SettledEitherWay(a: Recs, b: Recs)
    ensures Settled(a, b) == Settled(b, a)
  {
  }

  lemma {:induction false} UnsettledIsUseful(c: Crypto, net: Net, ms: seq<Meeting>, k: nat)
    requires Network(c, net) && AllProper(|net|, ms) && k < |ms| && Proper(|net|, ms[k])
    requires !Settled(net[ms[k].0], net[ms[k].1])
    ensures Gap(AllMet(c, net, ms)) < Gap(net)
    decreases |ms|
  {
    hide Network, Gap, Met, Settled, AllFacts;
    assert ms[0] in ms && forall m :: m in ms[1..] ==> m in ms;
    MeetingProgress(c, net, ms[0]);
    if Settled(net[ms[0].0], net[ms[0].1]) {
      UnsettledIsUseful(c, net, ms[1..], k - 1);
    } else {
      NothingIsLost(c, Met(c, net, ms[0]), ms[1..]);
    }
  }

  lemma {:induction false} SettledStay(c: Crypto, net: Net, ms: seq<Meeting>)
    requires Network(c, net) && AllProper(|net|, ms) && AllSettled(net)
    ensures AllMet(c, net, ms) == net
    decreases |ms|
  {
    hide Network, Gap, Met, Settled;
    if |ms| > 0 {
      assert ms[0] in ms && forall m :: m in ms[1..] ==> m in ms;
      SettledEitherWay(net[ms[0].0], net[ms[0].1]);
      MeetingProgress(c, net, ms[0]);
      SettledStay(c, net, ms[1..]);
    }
  }

  /** A full round settles nobody new or closes the gap by at least one. */
  lemma FullRoundProgress(c: Crypto, net: Net, round: seq<Meeting>)
    requires Network(c, net) && Full(|net|, round)
    ensures Network(c, AllMet(c, net, round))
    ensures if AllSettled(net) then AllMet(c, net, round) == net else Gap(AllMet(c, net, round)) < Gap(net)
  {
    hide Network, Gap, Met, Settled, AllMet, AllFacts;
    NothingIsLost(c, net, round);
    if AllSettled(net) {
      SettledStay(c, net, round);
    } else {
      var i: nat, j: nat :| i < j < |net| && !Settled(net[i], net[j]);
      SettledEitherWay(net[i], net[j]);
      var m := if (i, j) in round then (i, j) else (j, i);
      var k :| 0 <= k < |round| && round[k] == m;
      UnsettledIsUseful(c, net, round, k);
    }
  }

  ghost predicate AllFull(n: nat, rounds: seq<seq<Meeting>>) {
    forall round :: round in rounds ==> Full(n, round)
  }

  ghost function AfterRounds(c: Crypto, net: Net, rounds: seq<seq<Meeting>>): (net': Net)
    requires AllFull(|net|, rounds)
    ensures |net'| == |net|
    decreases |rounds|
  {
    if |rounds| == 0 then net
    else
      assert rounds[0] in rounds;
      assert forall round :: round in rounds[1..] ==> round in rounds;
      AfterRounds(c, AllMet(c, net, rounds[0]), rounds[1..])
  }

  /** However the peers meet, as long as every two keep meeting: after as many full rounds as there
      are facts to be learnt every two of them are settled, and nothing was lost or invented. */
  lemma {:induction false} NetworkConverges(c: Crypto, net: Net, rounds: seq<seq<Meeting>>)
    requires Network(c, net) && AllFull(|net|, rounds) && |rounds| >= Gap(net)
    ensures var net' := AfterRounds(c, net, rounds);
      Network(c, net') && AllSettled(net') && AllFacts(net') == AllFacts(net)
    decreases |rounds|
  {
    hide Network, Gap, Met, Settled, AllMet, AllFacts, Full, AllSettled;
    GapIsNatural(net);
    if |rounds| > 0 {
      assert rounds[0] in rounds && forall round :: round in rounds[1..] ==> round in rounds;
      FullRoundProgress(c, net, rounds[0]);
      FullIsProper(|net|, rounds[0]);
      NothingIsLost(c, net, rounds[0]);
      GapIsNatural(AllMet(c, net, rounds[0]));
      if AllSettled(net) {
        SettledRounds(c, net, rounds);
      } else {
        NetworkConverges(c, AllMet(c, net, rounds[0]), rounds[1..]);
      }
    } else {
      NoGapIsSettled(c, net);
    }
  }

  lemma FullIsProper(n: nat, round: seq<Meeting>)
    requires Full(n, round)
    ensures AllProper(n, round)
  {
  }

  lemma {:induction false} SettledRounds(c: Crypto, net: Net, rounds: seq<seq<Meeting>>)
    requires Network(c, net) && AllFull(|net|, rounds) && AllSettled(net)
    ensures AfterRounds(c, net, rounds) == net
    decreases |rounds|
  {
    hide Network, AllMet, Full, AllSettled;
    if |rounds| > 0 {
      assert rounds[0] in rounds && forall round :: round in rounds[1..] ==> round in rounds;
      FullIsProper(|net|, rounds[0]);
      SettledStay(c, net, rounds[0]);
      SettledRounds(c, net, rounds[1..]);
    }
  }

  lemma NoGapIsSettled(c: Crypto, net: Net)
    requires Network(c, net) && Gap(net) <= 0
    ensures AllSettled(net)
  {
    hide Network, Gap, Met, Settled, AllFacts;
    forall i: nat, j: nat | i < j < |net|
      ensures Settled(net[i], net[j])
    {
      MeetingProgress(c, net, (i, j));
      GapIsNatural(Met(c, net, (i, j)));
    }
  }

  // ---- A peer that knows all heals the others ----

  /** Everybody who holds the match holds it under this hash. */
  ghost predicate OneHashAt(net: Net, id: string, hash: string) {
    forall i :: 0 <= i < |net| && id in net[i] ==> net[i][id].hash == hash
  }

  lemma GainKeepsHash(a: Recs, b: Recs, a': Recs, b': Recs, id: string, hash: string)
    requires ExchangedAt(a, b, a', b', id)
    requires (id in a ==> a[id].hash == hash) && (id in b ==> b[id].hash == hash)
    ensures (id in a' ==> a'[id].hash == hash) && (id in b' ==> b'[id].hash == hash)
  {
    hide Signers, Lacks, Uncapped;
  }

  lemma MeetingKeepsHash(c: Crypto, net: Net, m: Meeting, id: string, hash: string)
    requires Network(c, net) && Proper(|net|, m) && OneHashAt(net, id, hash)
    ensures OneHashAt(Met(c, net, m), id, hash)
  {
    hide Exchanged, Peers, ExchangedAt;
    assert Peers(c, net[m.0], net[m.1]);
    ExchangeAt(c, net[m.0], net[m.1], id);
    var x := Exchanged(c, net[m.0], net[m.1]);
    GainKeepsHash(net[m.0], net[m.1], x.dialer, x.listener, id, hash);
  }

  lemma {:induction false} MeetingsKeepHash(c: Crypto, net: Net, ms: seq<Meeting>, id: string, hash: string)
    requires Network(c, net) && AllProper(|net|, ms) && OneHashAt(net, id, hash)
    ensures OneHashAt(AllMet(c, net, ms), id, hash)
    decreases |ms|
  {
    hide Network, Met, OneHashAt, Settled, Gap;
    if |ms| > 0 {
      assert ms[0] in ms && forall m :: m in ms[1..] ==> m in ms;
      MeetingProgress(c, net, ms[0]);
      MeetingKeepsHash(c, net, ms[0], id, hash);
      MeetingsKeepHash(c, Met(c, net, ms[0]), ms[1..], id, hash);
    }
  }

  lemma {:induction false} RoundsKeepHash(c: Crypto, net: Net, rounds: seq<seq<Meeting>>, id: string, hash: string)
    requires Network(c, net) && AllFull(|net|, rounds) && OneHashAt(net, id, hash)
    ensures OneHashAt(AfterRounds(c, net, rounds), id, hash)
    decreases |rounds|
  {
    hide Network, AllMet, OneHashAt, Full, Gap;
    if |rounds| > 0 {
      assert rounds[0] in rounds && forall round :: round in rounds[1..] ==> round in rounds;
      FullIsProper(|net|, rounds[0]);
      NothingIsLost(c, net, rounds[0]);
      MeetingsKeepHash(c, net, rounds[0], id, hash);
      RoundsKeepHash(c, AllMet(c, net, rounds[0]), rounds[1..], id, hash);
    }
  }

  lemma MeetingKeepsFacts(c: Crypto, net: Net, m: Meeting, k: nat)
    requires Network(c, net) && Proper(|net|, m) && k < |net|
    ensures Facts(net[k]) <= Facts(Met(c, net, m)[k])
  {
    hide Network, Facts, Settled;
    MeetingShares(c, net, m);
    OthersUntouched(c, net, m);
  }

  lemma {:induction false} RoundsKeepFacts(c: Crypto, net: Net, rounds: seq<seq<Meeting>>, k: nat)
    requires Network(c, net) && AllFull(|net|, rounds) && k < |net|
    ensures Facts(net[k]) <= Facts(AfterRounds(c, net, rounds)[k])
    decreases |rounds|
  {
    hide Network, AllMet, Facts, Full, Gap;
    if |rounds| > 0 {
      assert rounds[0] in rounds && forall round :: round in rounds[1..] ==> round in rounds;
      FullIsProper(|net|, rounds[0]);
      NothingIsLost(c, net, rounds[0]);
      MeetingsKeepFacts(c, net, rounds[0], k);
      RoundsKeepFacts(c, AllMet(c, net, rounds[0]), rounds[1..], k);
    }
  }

  lemma {:induction false} MeetingsKeepFacts(c: Crypto, net: Net, ms: seq<Meeting>, k: nat)
    requires Network(c, net) && AllProper(|net|, ms) && k < |net|
    ensures Facts(net[k]) <= Facts(AllMet(c, net, ms)[k])
    decreases |ms|
  {
    hide Network, Met, Facts, Settled, Gap;
    if |ms| > 0 {
      assert ms[0] in ms && forall m :: m in ms[1..] ==> m in ms;
      MeetingProgress(c, net, ms[0]);
      MeetingKeepsFacts(c, net, ms[0], k);
      MeetingsKeepFacts(c, Met(c, net, ms[0]), ms[1..], k);
    }
  }

  /** Peer k has the match, and every signer of it that anybody knows of, under the only hash. */
  ghost predicate KnowsAll(net: Net, k: nat, id: string) {
    && k < |net| && id in net[k] && OneHashAt(net, id, net[k][id].hash)
    && forall i :: 0 <= i < |net| ==> SignersAt(net[i], id) <= Signers(net[k][id])
  }

  lemma SignersWithin(net: Net, net': Net, id: string, all: set<string>, i: nat)
    requires |net'| == |net| && i < |net| && AllFacts(net') == AllFacts(net)
    requires forall j :: 0 <= j < |net| ==> SignersAt(net[j], id) <= all
    ensures SignersAt(net'[i], id) <= all
  {
    hide Signers, AllFacts;
    forall key | key in SignersAt(net'[i], id)
      ensures key in all
    {
      assert SignedFor(id, key) in Facts(net'[i]);
      assert SignedFor(id, key) in AllFacts(net);
      var j :| 0 <= j < |net| && SignedFor(id, key) in Facts(net[j]);
      assert key in SignersAt(net[j], id);
    }
  }

  lemma StillKnows(a: Recs, a': Recs, id: string)
    requires Facts(a) <= Facts(a') && id in a
    ensures id in a' && Signers(a[id]) <= Signers(a'[id])
  {
    hide Signers;
    assert Holds(id) in Facts(a');
    forall key | key in Signers(a[id])
      ensures key in Signers(a'[id])
    {
      assert SignedFor(id, key) in Facts(a');
    }
  }

  lemma SettledWithKnower(c: Crypto, a: Recs, b: Recs, id: string, all: set<string>)
    requires Peers(c, a, b) && Settled(a, b) && id in b && Signers(b[id]) == all
    requires (id in a ==> a[id].hash == b[id].hash) && SignersAt(a, id) <= all
    ensures id in a && Signers(a[id]) == all
  {
    SettledMeaning(a, b);
    hide StoreOk, Agreeing, Signers, Settled;
    CountsAreSigners(c, a, id);
    CountsAreSigners(c, b, id);
    if Signers(a[id]) != all {
      MoreSigners(Signers(a[id]), all);
    }
  }

  /** A peer with all signers of a match heals the others, whatever equal counts kept any two of
      them apart: after enough full rounds everybody holds the match with all its signers. */
  lemma KnowerHeals(c: Crypto, net: Net, rounds: seq<seq<Meeting>>, k: nat, id: string, i: nat)
    requires Network(c, net) && AllFull(|net|, rounds) && |rounds| >= Gap(net)
    requires KnowsAll(net, k, id) && i < |net|
    ensures var net' := AfterRounds(c, net, rounds); id in net'[i] && Signers(net'[i][id]) == Signers(net[k][id])
  {
    hide Facts, Gap, Full, AllFacts, Settled, Signers, AfterRounds, Peers;
    var net', hash, all := AfterRounds(c, net, rounds), net[k][id].hash, Signers(net[k][id]);
    NetworkConverges(c, net, rounds);
    RoundsKeepFacts(c, net, rounds, k);
    RoundsKeepHash(c, net, rounds, id, hash);
    StillKnows(net[k], net'[k], id);
    SignersWithin(net, net', id, all, k);
    SignersWithin(net, net', id, all, i);
    assert Peers(c, net'[i], net'[k]);
    if i != k {
      SettledEitherWay(net'[i], net'[k]);
      SettledWithKnower(c, net'[i], net'[k], id, all);
    }
  }

  // ---- Stores filled by Puts ----

  ghost function FilledBy(c: Crypto, offers: seq<seq<Record>>): (net: Net)
    ensures |net| == |offers| && forall i :: 0 <= i < |net| ==> net[i] == PutAll(c, map[], offers[i])
  {
    seq(|offers|, i requires 0 <= i < |offers| => PutAll(c, map[], offers[i]))
  }

  /** Any number of stores, each filled by any sequence of Puts: if the digest collides on none of
      the results put into any two of them, enough full rounds settle every two. */
  lemma PutsNetworkConverges(c: Crypto, offers: seq<seq<Record>>, rounds: seq<seq<Meeting>>)
    requires forall i, j :: 0 <= i < |offers| && 0 <= j < |offers| ==> CollisionFree(c, offers[i] + offers[j])
    requires AllFull(|offers|, rounds) && |rounds| >= Gap(FilledBy(c, offers))
    ensures Network(c, FilledBy(c, offers)) && AllSettled(AfterRounds(c, FilledBy(c, offers), rounds))
  {
    hide CollisionFree, PutAll, Peers, Gap, AllFull, AllSettled;
    forall i, j | 0 <= i < |offers| && 0 <= j < |offers|
      ensures Peers(c, PutAll(c, map[], offers[i]), PutAll(c, map[], offers[j]))
    {
      PutsArePeers(c, offers[i], offers[j]);
    }
    NetworkConverges(c, FilledBy(c, offers), rounds);
  }
}
