/**
 Anti-entropy between two stores (internal/gossip/gossip.go): what one exchange moves, and
 that repeated exchanges, each limited to a batch a direction, bring two stores to agree.
 */
module Gossip {
  import opened Types
  import Sorting
  import opened Text
  import opened Records
  import opened Attestation
  import opened Store

  const MAX_RECORDS := 48

  // ---- What a peer lacks ----

  /** The entry a map built from the inventory holds for an ID: the last one listed. */
  function LastEntry(inv: seq<InvEntry>, id: string): (k: int)
    ensures -1 <= k < |inv| && (k >= 0 ==> inv[k].matchId == id)
    ensures forall j :: k < j < |inv| ==> inv[j].matchId != id
  {
    if |inv| == 0 then -1
    else if inv[|inv|-1].matchId == id then |inv| - 1
    else LastEntry(inv[..|inv|-1], id)
  }

  /** Not held at all, or held under the same hash with strictly fewer signatures. */
  predicate Wants(mine: seq<InvEntry>, e: InvEntry) {
    var k := LastEntry(mine, e.matchId);
    k < 0 || (mine[k].hash == e.hash && e.sigs > mine[k].sigs)
  }

  function Wanted(mine: seq<InvEntry>, theirs: seq<InvEntry>): (ids: seq<string>)
    ensures forall id :: id in ids <==>
      exists i :: 0 <= i < |theirs| && theirs[i].matchId == id && Wants(mine, theirs[i])
  {
    if |theirs| == 0 then []
    else
      var ids := Wanted(mine, theirs[..|theirs|-1]);
      assert forall i :: 0 <= i < |theirs| - 1 ==> theirs[..|theirs|-1][i] == theirs[i];
      if Wants(mine, theirs[|theirs|-1]) then ids + [theirs[|theirs|-1].matchId] else ids
  }

  /** What is held, by match; a later entry replaces an earlier one. */
  method IndexEntries(mine: seq<InvEntry>) returns (have: map<string, InvEntry>)
    ensures forall id :: id in have <==> LastEntry(mine, id) >= 0
    ensures forall id :: id in have ==> have[id] == mine[LastEntry(mine, id)]
  {
    have := map[];
    for i := 0 to |mine|
      invariant forall id :: id in have <==> LastEntry(mine[..i], id) >= 0
      invariant forall id :: id in have ==> have[id] == mine[LastEntry(mine[..i], id)]
    {
      assert mine[..i + 1][..i] == mine[..i];
      have := have[mine[i].matchId := mine[i]];
    }
    assert mine[..|mine|] == mine;
  }

  method Missing(mine: seq<InvEntry>, theirs: seq<InvEntry>) returns (want: seq<string>)
    ensures want == Sorting.SortBy(ByKey(Same), Wanted(mine, theirs))
  {
    hide Wanted, LastEntry;
    var have := IndexEntries(mine);
    want := [];
    WantedSteps(mine, theirs);
    for i := 0 to |theirs|
      invariant want == Wanted(mine, theirs[..i])
    {
      var e := theirs[i];
      if e.matchId !in have {
        want := want + [e.matchId];
      } else {
        var held := have[e.matchId];
        if held.hash == e.hash && e.sigs > held.sigs {
          want := want + [e.matchId];
        }
      }
    }
    assert theirs[..|theirs|] == theirs;
    want := Sorting.SortBy(ByKey(Same), want);
  }

  lemma WantedSteps(mine: seq<InvEntry>, theirs: seq<InvEntry>)
    ensures Wanted(mine, theirs[..0]) == []
    ensures forall i :: 0 <= i < |theirs| ==>
      Wanted(mine, theirs[..i + 1])
      == Wanted(mine, theirs[..i]) + (if Wants(mine, theirs[i]) then [theirs[i].matchId] else [])
  {
    hide Wants;
    forall i | 0 <= i < |theirs|
      ensures Wanted(mine, theirs[..i + 1])
        == Wanted(mine, theirs[..i]) + (if Wants(mine, theirs[i]) then [theirs[i].matchId] else [])
    {
      assert theirs[..i + 1][..i] == theirs[..i];
    }
  }

  /** The matches that `mine` lacks and `theirs` could supply. */
  ghost function Lacks(mine: Recs, theirs: Recs): set<string> {
    set id | id in theirs &&
      (id !in mine || (mine[id].hash == theirs[id].hash && |theirs[id].signatures| > |mine[id].signatures|))
  }

  lemma LastEntryOfInventory(recs: Recs, id: string)
    ensures var inv := InventoryOf(recs); var k := LastEntry(inv, id);
      (k >= 0 <==> id in recs) && (k >= 0 ==> inv[k] == EntryOf(recs, id))
  {
    InventoryMembers(recs);
    hide InventoryOf;
    var inv := InventoryOf(recs);
    var k := LastEntry(inv, id);
    if k >= 0 {
      assert inv[k] in inv;
    }
    if id in recs {
      assert EntryOf(recs, id) in inv;
    }
  }

  lemma {:induction false} WantedNoRepeats(mine: seq<InvEntry>, theirs: seq<InvEntry>)
    requires DistinctKeys(IdOf, theirs)
    ensures Sorting.NoRepeats(Wanted(mine, theirs))
  {
    hide Wants;
    if |theirs| > 0 {
      var init, last := theirs[..|theirs|-1], theirs[|theirs|-1];
      WantedNoRepeats(mine, init);
      assert last.matchId !in Wanted(mine, init) by {
        assert forall i :: 0 <= i < |init| ==> IdOf(theirs[i]) != IdOf(last);
      }
    }
  }

  /** On the inventories of two stores, `Missing` is exactly what one lacks, in order. */
  lemma MissingIsLacks(mine: Recs, theirs: Recs)
    ensures Sorting.SortBy(ByKey(Same), Wanted(InventoryOf(mine), InventoryOf(theirs)))
      == SortedSet(Lacks(mine, theirs))
  {
    var m, t := InventoryOf(mine), InventoryOf(theirs);
    InventoryMembers(theirs);
    AscendingDistinct(IdOf, t);
    WantedNoRepeats(m, t);
    forall id
      ensures id in Wanted(m, t) <==> id in Lacks(mine, theirs)
    {
      LastEntryOfInventory(mine, id);
      hide InventoryOf, Wanted;
      if i :| 0 <= i < |t| && t[i].matchId == id && Wants(m, t[i]) {
        assert t[i] in t;
      }
      if id in Lacks(mine, theirs) {
        assert EntryOf(theirs, id) in t;
        var i :| 0 <= i < |t| && t[i] == EntryOf(theirs, id);
      }
    }
    SortForgetsOrder(Wanted(m, t), Lacks(mine, theirs));
  }

  // ---- One exchange ----

  function Capped(ids: seq<string>): (r: seq<string>)
    ensures |r| == if |ids| > MAX_RECORDS then MAX_RECORDS else |ids|
  {
    if |ids| > MAX_RECORDS then ids[..MAX_RECORDS] else ids
  }

  /** The records held under the given IDs. */
  function Held(recs: Recs, ids: seq<string>): (r: seq<Record>)
    ensures |r| <= |ids|
  {
    if |ids| == 0 then []
    else
      Held(recs, ids[..|ids|-1]) + (if ids[|ids|-1] in recs then [recs[ids[|ids|-1]]] else [])
  }

  function Collect(recs: Recs, ids: seq<string>): seq<Record> {
    Held(recs, Capped(ids))
  }

  datatype Exchange = Exchange(dialer: Recs, listener: Recs, sentToDialer: seq<Record>, sentToListener: seq<Record>)

  /** The listener answers with what the dialer lacks and asks for what it lacks itself; the
      dialer takes that in and then supplies what was asked for. */
  ghost function Exchanged(c: Crypto, dialer: Recs, listener: Recs): Exchange {
    var give := Collect(listener, SortedSet(Lacks(dialer, listener)));
    var dialer' := PutAll(c, dialer, give);
    var want := Capped(SortedSet(Lacks(listener, dialer)));
    var back := Collect(dialer', want);
    Exchange(dialer', PutAll(c, listener, back), give, back)
  }

  // ---- Taking in a batch ----

  function BatchIndex(batch: seq<Record>, id: string): (k: int)
    ensures -1 <= k < |batch| && (k >= 0 ==> batch[k].result.matchId == id)
    ensures k < 0 ==> forall j :: 0 <= j < |batch| ==> batch[j].result.matchId != id
  {
    if |batch| == 0 then -1
    else if batch[|batch|-1].result.matchId == id then |batch| - 1
    else BatchIndex(batch[..|batch|-1], id)
  }

  function MatchOf(rec: Record): string { rec.result.matchId }

  /** Good records of different matches, none of which contradicts what is held. */
  ghost predicate Welcome(c: Crypto, recs: Recs, batch: seq<Record>) {
    && DistinctKeys(MatchOf, batch)
    && forall k :: 0 <= k < |batch| ==>
         Good(c, batch[k]) && (MatchOf(batch[k]) in recs ==> SameMatch(recs[MatchOf(batch[k])], batch[k]))
  }

  /** What became of one match when rec was put in: its signers joined those already held. */
  ghost predicate Joined(recs: Recs, recs': Recs, rec: Record) {
    var id := rec.result.matchId;
    && id in recs'
    && recs'[id].hash == rec.hash
    && recs'[id].result == (if id in recs then recs[id].result else rec.result)
    && Signers(recs'[id]) == (if id in recs then Signers(recs[id]) else {}) + Signers(rec)
  }

  ghost predicate Untouched(recs: Recs, recs': Recs, id: string) {
    (id in recs' <==> id in recs) && (id in recs ==> recs'[id] == recs[id])
  }

  lemma WelcomePrefix(c: Crypto, recs: Recs, batch: seq<Record>)
    requires |batch| > 0 && Welcome(c, recs, batch)
    ensures Welcome(c, recs, batch[..|batch|-1]) && BatchIndex(batch[..|batch|-1], MatchOf(batch[|batch|-1])) < 0
  {
    hide Good, SameMatch;
  }

  lemma {:induction false} BatchTakenIn(c: Crypto, recs: Recs, batch: seq<Record>, id: string)
    requires StoreOk(c, recs) && Welcome(c, recs, batch)
    ensures var recs', k := PutAll(c, recs, batch), BatchIndex(batch, id);
      StoreOk(c, recs') && (if k < 0 then Untouched(recs, recs', id) else Joined(recs, recs', batch[k]))
  {
    hide StoreOk, Good, SameMatch, PutInto, Signers;
    if |batch| > 0 {
      var init, last := batch[..|batch|-1], batch[|batch|-1];
      WelcomePrefix(c, recs, batch);
      BatchTakenIn(c, recs, init, id);
      BatchTakenIn(c, recs, init, MatchOf(last));
      PutEffect(c, PutAll(c, recs, init), last);
    }
  }

  /** How many of the offers change the store, and how many it refuses. */
  ghost function Received(c: Crypto, recs: Recs, offers: seq<Record>): nat {
    if |offers| == 0 then 0
    else
      Received(c, recs, offers[..|offers|-1])
      + (if PutInto(c, PutAll(c, recs, offers[..|offers|-1]), offers[|offers|-1]).1 == Changed then 1 else 0)
  }

  ghost function Rejected(c: Crypto, recs: Recs, offers: seq<Record>): nat {
    if |offers| == 0 then 0
    else
      Rejected(c, recs, offers[..|offers|-1])
      + (if PutInto(c, PutAll(c, recs, offers[..|offers|-1]), offers[|offers|-1]).1 == Refused then 1 else 0)
  }

  /** Every record of the batch tells the store something it does not know. */
  ghost predicate News(recs: Recs, batch: seq<Record>) {
    forall k :: 0 <= k < |batch| ==>
      MatchOf(batch[k]) in recs ==> !(Signers(batch[k]) <= Signers(recs[MatchOf(batch[k])]))
  }

  lemma {:induction false} NewsIsReceived(c: Crypto, recs: Recs, batch: seq<Record>)
    requires StoreOk(c, recs) && Welcome(c, recs, batch) && News(recs, batch)
    ensures Received(c, recs, batch) == |batch| && Rejected(c, recs, batch) == 0
  {
    hide StoreOk, Good, SameMatch, PutInto, Signers;
    if |batch| > 0 {
      var init, last := batch[..|batch|-1], batch[|batch|-1];
      WelcomePrefix(c, recs, batch);
      assert News(recs, init) by { assert forall k :: 0 <= k < |init| ==> init[k] == batch[k]; }
      NewsIsReceived(c, recs, init);
      BatchTakenIn(c, recs, init, MatchOf(last));
      PutEffect(c, PutAll(c, recs, init), last);
    }
  }

  // ---- Pulling from another store ----

  /** Where the two stores hold a match under the same hash, they hold the same people. */
  ghost predicate Agreeing(a: Recs, b: Recs) {
    forall id :: id in a && id in b && a[id].hash == b[id].hash ==> SamePeople(a[id].result, b[id].result)
  }

  lemma {:induction false} HeldAre(c: Crypto, recs: Recs, ids: seq<string>)
    requires StoreOk(c, recs) && forall id :: id in ids ==> id in recs
    ensures |Held(recs, ids)| == |ids|
    ensures forall k :: 0 <= k < |ids| ==>
      && ids[k] in recs && Held(recs, ids)[k] == recs[ids[k]] && MatchOf(Held(recs, ids)[k]) == ids[k]
  {
    hide Good;
    if |ids| > 0 {
      HeldAre(c, recs, ids[..|ids|-1]);
      assert ids[|ids|-1] in ids;
    }
  }

  ghost predicate Pullable(c: Crypto, mine: Recs, source: Recs, ids: seq<string>) {
    && StoreOk(c, mine) && StoreOk(c, source) && Agreeing(mine, source)
    && Sorting.NoRepeats(ids) && forall id :: id in ids ==> id in Lacks(mine, source)
  }

  lemma LackedSigners(c: Crypto, mine: Recs, source: Recs, id: string)
    requires StoreOk(c, mine) && StoreOk(c, source) && id in Lacks(mine, source) && id in mine
    ensures !(Signers(source[id]) <= Signers(mine[id]))
  {
    hide Verified, ValidMatchId;
    SignersPlay(c, mine[id]);
    SignersPlay(c, source[id]);
    hide Signers;
    if Signers(source[id]) <= Signers(mine[id]) {
      Sorting.SubsetSize(Signers(source[id]), Signers(mine[id]));
    }
  }

  lemma WorthPulling(c: Crypto, mine: Recs, source: Recs, id: string)
    requires StoreOk(c, mine) && StoreOk(c, source) && Agreeing(mine, source) && id in Lacks(mine, source)
    ensures id in source && Good(c, source[id]) && MatchOf(source[id]) == id
    ensures id in mine ==> SameMatch(mine[id], source[id]) && !(Signers(source[id]) <= Signers(mine[id]))
  {
    hide Good, Signers, SamePeople;
    if id in mine {
      LackedSigners(c, mine, source, id);
    }
  }

  lemma PullIsWelcome(c: Crypto, mine: Recs, source: Recs, ids: seq<string>)
    requires Pullable(c, mine, source, ids)
    ensures var batch := Held(source, ids);
      && |batch| == |ids| && Welcome(c, mine, batch) && News(mine, batch)
      && forall k :: 0 <= k < |ids| ==> ids[k] in source && batch[k] == source[ids[k]] && MatchOf(batch[k]) == ids[k]
  {
    hide Good, SameMatch, Signers, Held, MatchOf, Lacks, StoreOk, Agreeing;
    forall id | id in ids
      ensures id in source && Good(c, source[id]) && MatchOf(source[id]) == id
      ensures id in mine ==> SameMatch(mine[id], source[id]) && !(Signers(source[id]) <= Signers(mine[id]))
    {
      WorthPulling(c, mine, source, id);
    }
    HeldAre(c, source, ids);
    assert forall k :: 0 <= k < |ids| ==> ids[k] in ids;
  }

  /** One match after a pull: united with the source's if asked for, untouched if not. */
  ghost predicate PulledAt(mine: Recs, source: Recs, ids: seq<string>, mine': Recs, id: string) {
    if id in ids && id in source then Joined(mine, mine', source[id]) && source[id].result.matchId == id
    else Untouched(mine, mine', id)
  }

  lemma PullEffect(c: Crypto, mine: Recs, source: Recs, ids: seq<string>, id: string)
    requires Pullable(c, mine, source, ids)
    ensures var mine' := PutAll(c, mine, Held(source, ids));
      StoreOk(c, mine') && PulledAt(mine, source, ids, mine', id)
  {
    hide StoreOk, Good, SamePeople, Signers, Agreeing, Lacks, Welcome, News, PutAll, Held;
    hide BatchIndex, Joined, Untouched;
    PullIsWelcome(c, mine, source, ids);
    StoreOkOf(c, mine, source, ids);
    var batch := Held(source, ids);
    BatchTakenIn(c, mine, batch, id);
    var k := BatchIndex(batch, id);
    if id in ids {
      var j :| 0 <= j < |ids| && ids[j] == id;
      assert MatchOf(batch[j]) == id;
    }
  }

  lemma StoreOkOf(c: Crypto, mine: Recs, source: Recs, ids: seq<string>)
    requires Pullable(c, mine, source, ids)
    ensures StoreOk(c, mine)
  {
  }

  // ---- The exchange as it runs ----

  datatype Tally = Tally(sent: int, received: int, rejected: int)

  method CollectFrom(store: MatchStore, ids: seq<string>) returns (batch: seq<Record>)
    ensures batch == Collect(store.recs, ids)
  {
    var capped := Capped(ids);
    batch := [];
    for i := 0 to |capped|
      invariant batch == Held(store.recs, capped[..i])
    {
      assert capped[..i + 1][..i] == capped[..i];
      if capped[i] in store.recs {
        batch := batch + [store.recs[capped[i]]];
      }
    }
    assert capped[..|capped|] == capped;
  }

  /** Stores what a peer offered; one bad record does not abort the batch. */
  method Absorb(store: MatchStore, records: seq<Record>, tally: Tally) returns (out: Tally)
    modifies store
    ensures store.recs == PutAll(store.crypto, old(store.recs), records)
    ensures out.sent == tally.sent
    ensures out.received == tally.received + Received(store.crypto, old(store.recs), records)
    ensures out.rejected == tally.rejected + Rejected(store.crypto, old(store.recs), records)
  {
    hide PutInto;
    out := tally;
    for i := 0 to |records|
      invariant store.recs == PutAll(store.crypto, old(store.recs), records[..i])
      invariant out.sent == tally.sent
      invariant out.received == tally.received + Received(store.crypto, old(store.recs), records[..i])
      invariant out.rejected == tally.rejected + Rejected(store.crypto, old(store.recs), records[..i])
    {
      assert records[..i + 1][..i] == records[..i];
      var outcome := store.Put(records[i]);
      if outcome == Refused {
        out := out.(rejected := out.rejected + 1);
      } else if outcome == Changed {
        out := out.(received := out.received + 1);
      }
    }
    assert records[..|records|] == records;
  }

  /** The listener's answer to an inventory: what it wants, and what the dialer lacks. */
  method Answer(store: MatchStore, inv: seq<InvEntry>) returns (want: seq<string>, give: seq<Record>, tally: Tally)
    ensures want == Capped(Sorting.SortBy(ByKey(Same), Wanted(InventoryOf(store.recs), inv)))
    ensures give == Collect(store.recs, Sorting.SortBy(ByKey(Same), Wanted(inv, InventoryOf(store.recs))))
    ensures tally == Tally(|give|, 0, 0)
  {
    var mine := store.Inventory();
    want := Missing(mine, inv);
    var theirs := Missing(inv, mine);
    give := CollectFrom(store, theirs);
    tally := Tally(|give|, 0, 0);
    want := Capped(want);
  }

  datatype Third = NoMessage | Message(records: seq<Record>)

  /** The dialer's reply: it takes in what it was given and sends a third message exactly
      when the answer asked for something. */
  method Reply(store: MatchStore, want: seq<string>, records: seq<Record>) returns (third: Third, tally: Tally)
    modifies store
    ensures store.recs == PutAll(store.crypto, old(store.recs), records)
    ensures third == if |want| == 0 then NoMessage else Message(Collect(store.recs, want))
    ensures tally.received == Received(store.crypto, old(store.recs), records)
    ensures tally.rejected == Rejected(store.crypto, old(store.recs), records)
    ensures tally.sent == if third.Message? then |third.records| else 0
  {
    tally := Absorb(store, records, Tally(0, 0, 0));
    if |want| == 0 {
      return NoMessage, tally;
    }
    var give := CollectFrom(store, want);
    tally := tally.(sent := |give|);
    return Message(give), tally;
  }

  /** Both halves over a connection that delivers every message. */
  method RunExchange(dialer: MatchStore, listener: MatchStore) returns (initiated: Tally, responded: Tally)
    requires dialer != listener && dialer.crypto == listener.crypto
    modifies dialer, listener
    ensures var x := Exchanged(dialer.crypto, old(dialer.recs), old(listener.recs));
      && dialer.recs == x.dialer && listener.recs == x.listener
      && initiated.sent == |x.sentToListener| && responded.sent == |x.sentToDialer|
      && initiated.received == Received(dialer.crypto, old(dialer.recs), x.sentToDialer)
      && responded.received == Received(listener.crypto, old(listener.recs), x.sentToListener)
      && initiated.rejected == Rejected(dialer.crypto, old(dialer.recs), x.sentToDialer)
      && responded.rejected == Rejected(listener.crypto, old(listener.recs), x.sentToListener)
  {
    hide PutAll, Received, Rejected, Lacks, InventoryOf, Wanted, SortedSet, Held;
    MissingIsLacks(dialer.recs, listener.recs);
    MissingIsLacks(listener.recs, dialer.recs);
    var inv := dialer.Inventory();
    var want, give, answered := Answer(listener, inv);
    var third, tally := Reply(dialer, want, give);
    initiated := tally;
    // The listener reads on only if it asked for something, which is when the dialer wrote.
    if |want| == 0 {
      responded := answered;
      NothingWanted(dialer.recs);
      NothingTakenIn(listener.crypto, listener.recs);
    } else {
      responded := Absorb(listener, third.records, answered);
    }
  }

  lemma NothingWanted(recs: Recs)
    ensures Collect(recs, []) == []
  {
  }

  lemma NothingTakenIn(c: Crypto, recs: Recs)
    ensures PutAll(c, recs, []) == recs && Received(c, recs, []) == 0 && Rejected(c, recs, []) == 0
  {
  }
}
