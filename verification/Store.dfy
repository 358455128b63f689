/** The grow-only store of attested records (internal/store/store.go). */
module Store {
  import opened Types
  import Sorting
  import opened Text
  import opened Records
  import opened Attestation

  predicate LowerHex(c: char) { '0' <= c <= '9' || 'a' <= c <= 'f' }

  /** A canonical lower-case UUID. */
  predicate ValidMatchId(id: string) {
    |id| == 36 && forall i :: 0 <= i < 36 ==> if i in {8, 13, 18, 23} then id[i] == '-' else LowerHex(id[i])
  }

  method CheckMatchId(id: string) returns (ok: bool)
    ensures ok <==> ValidMatchId(id)
  {
    if |id| != 36 {
      return false;
    }
    for i := 0 to |id|
      invariant forall j :: 0 <= j < i ==> if j in {8, 13, 18, 23} then id[j] == '-' else LowerHex(id[j])
    {
      if i == 8 || i == 13 || i == 18 || i == 23 {
        if id[i] != '-' {
          return false;
        }
      } else if !LowerHex(id[i]) {
        return false;
      }
    }
    return true;
  }

  type Recs = map<string, Record>

  datatype Outcome = Refused | Unchanged | Changed

  /** A record the store takes in at all. */
  ghost predicate Good(c: Crypto, rec: Record) {
    Verified(c, rec) && ValidMatchId(rec.result.matchId)
  }

  ghost predicate StoreOk(c: Crypto, recs: Recs) {
    forall id :: id in recs ==> Good(c, recs[id]) && recs[id].result.matchId == id
  }

  datatype Merge = Failed | Merged(rec: Record, added: bool)

  /** The loop over the incoming signatures: those under a new key are added. */
  ghost function Merging(c: Crypto, held: Record, sigs: seq<Signature>): Merge {
    if |sigs| == 0 then Merged(held, false)
    else
      var m := Merging(c, held, sigs[..|sigs|-1]);
      var s := sigs[|sigs|-1];
      if m.Failed? || s.pubKey in Signers(m.rec) then m
      else if !Accepts(c, m.rec, s) then Failed
      else Merged(Signed(c, m.rec, s), true)
  }

  ghost function PutInto(c: Crypto, recs: Recs, rec: Record): (Recs, Outcome) {
    var id := rec.result.matchId;
    if !Good(c, rec) then (recs, Refused)
    else if id !in recs then (recs[id := rec], Changed)
    else if recs[id].hash != rec.hash then (recs, Refused)
    else
      match Merging(c, recs[id], rec.signatures)
      case Failed => (recs, Refused)
      case Merged(merged, added) => if added then (recs[id := merged], Changed) else (recs, Unchanged)
  }

  class MatchStore {
    const crypto: Crypto
    var recs: Recs

    ghost predicate Valid()
      reads this
    {
      StoreOk(crypto, recs)
    }

    constructor (crypto: Crypto)
      ensures this.crypto == crypto && recs == map[] && Valid()
    {
      this.crypto := crypto;
      recs := map[];
    }

    /** Writing the file is taken to succeed. */
    method Put(rec: Record) returns (outcome: Outcome)
      modifies this
      ensures (recs, outcome) == PutInto(crypto, old(recs), rec)
      ensures old(Valid()) ==> Valid()
    {
      hide Verified, ValidMatchId, Merging, Accepts;
      if Valid() {
        PutKeepsStoreOk(crypto, recs, rec);
      }
      var verified := Verify(crypto, rec);
      if !verified {
        return Refused;
      }
      var wellNamed := CheckMatchId(rec.result.matchId);
      if !wellNamed {
        return Refused;
      }
      var id := rec.result.matchId;
      if id !in recs {
        recs := recs[id := rec];
        return Changed;
      }
      var existing := recs[id];
      if existing.hash != rec.hash {
        return Refused;
      }
      var merge := MergeSignatures(crypto, existing, rec.signatures);
      if merge.Failed? {
        return Refused;
      }
      if !merge.added {
        return Unchanged;
      }
      recs := recs[id := merge.rec];
      return Changed;
    }

    /** What this store holds, sorted by match ID. */
    method Inventory() returns (inv: seq<InvEntry>)
      ensures inv == InventoryOf(recs)
    {
      var rest := recs.Keys;
      inv := [];
      while rest != {}
        invariant rest <= recs.Keys
        invariant forall e :: e in inv <==> e.matchId in recs.Keys - rest && e == EntryOf(recs, e.matchId)
        invariant DistinctKeys(IdOf, inv)
        decreases |rest|
      {
        var id :| id in rest;
        rest := rest - {id};
        inv := inv + [EntryOf(recs, id)];
      }
      SortedEntries(recs, inv);
      inv := Sorting.SortBy(ByKey(IdOf), inv);
    }
  }

  datatype InvEntry = InvEntry(matchId: string, hash: string, sigs: int)

  function IdOf(e: InvEntry): string { e.matchId }

  function EntryOf(recs: Recs, id: string): InvEntry {
    if id in recs then InvEntry(id, recs[id].hash, |recs[id].signatures|) else InvEntry(id, "", 0)
  }

  ghost function InventoryOf(recs: Recs): (inv: seq<InvEntry>)
    ensures |inv| == |SortedSet(recs.Keys)|
    ensures forall i :: 0 <= i < |inv| ==> inv[i] == EntryOf(recs, SortedSet(recs.Keys)[i])
  {
    var ids := SortedSet(recs.Keys);
    seq(|ids|, i requires 0 <= i < |ids| => EntryOf(recs, ids[i]))
  }

  lemma InventoryMembers(recs: Recs)
    ensures forall e :: e in InventoryOf(recs) <==> e.matchId in recs && e == EntryOf(recs, e.matchId)
    ensures Ascending(IdOf, InventoryOf(recs))
  {
    var ids, inv := SortedSet(recs.Keys), InventoryOf(recs);
    SortedSetAscending(recs.Keys);
    hide SortedSet, StrLess;
    forall e
      ensures e in inv <==> e.matchId in recs && e == EntryOf(recs, e.matchId)
    {
      if e in inv {
        var i :| 0 <= i < |inv| && inv[i] == e;
        assert ids[i] in ids;
      }
      if e.matchId in recs && e == EntryOf(recs, e.matchId) {
        assert e.matchId in ids;
        var i :| 0 <= i < |ids| && ids[i] == e.matchId;
        assert inv[i] == e;
      }
    }
    forall a, b | 0 <= a < b < |inv|
      ensures StrLess(IdOf(inv[a]), IdOf(inv[b]))
    {
      assert StrLess(Same(ids[a]), Same(ids[b]));
    }
  }

  lemma SortedEntries(recs: Recs, inv: seq<InvEntry>)
    requires forall e :: e in inv <==> e.matchId in recs && e == EntryOf(recs, e.matchId)
    requires DistinctKeys(IdOf, inv)
    ensures Sorting.SortBy(ByKey(IdOf), inv) == InventoryOf(recs)
  {
    hide SortedSet, StrLess;
    SortAscending(IdOf, inv);
    Sorting.SameMembers(inv, Sorting.SortBy(ByKey(IdOf), inv));
    InventoryMembers(recs);
    AscendingUnique(IdOf, Sorting.SortBy(ByKey(IdOf), inv), InventoryOf(recs));
  }

  method MergeSignatures(c: Crypto, held: Record, sigs: seq<Signature>) returns (m: Merge)
    ensures m == Merging(c, held, sigs)
  {
    hide Accepts;
    var existing, added := held, false;
    for i := 0 to |sigs|
      invariant Merged(existing, added) == Merging(c, held, sigs[..i])
    {
      assert sigs[..i + 1][..i] == sigs[..i];
      var signed := SignedBy(existing, sigs[i].pubKey);
      if !signed {
        var out, ok := AddSignature(c, existing, sigs[i]);
        if !ok {
          FailureStands(c, held, sigs, i + 1);
          return Failed;
        }
        existing, added := out, true;
      }
    }
    assert sigs[..|sigs|] == sigs;
    return Merged(existing, added);
  }

  lemma {:induction false} FailureStands(c: Crypto, held: Record, sigs: seq<Signature>, i: nat)
    requires i <= |sigs| && Merging(c, held, sigs[..i]).Failed?
    ensures Merging(c, held, sigs).Failed?
  {
    hide Accepts;
    if i < |sigs| {
      assert sigs[..|sigs|-1][..i] == sigs[..i];
      FailureStands(c, held, sigs[..|sigs|-1], i);
    } else {
      assert sigs[..i] == sigs;
    }
  }

  // ---- What merging achieves ----

  lemma {:induction false} MergingKeeps(c: Crypto, held: Record, sigs: seq<Signature>)
    requires Verified(c, held)
    ensures var m := Merging(c, held, sigs);
      m.Merged? ==> Verified(c, m.rec) && m.rec.result == held.result && m.rec.hash == held.hash
  {
    hide Verified, Accepts;
    if |sigs| > 0 {
      MergingKeeps(c, held, sigs[..|sigs|-1]);
      var m := Merging(c, held, sigs[..|sigs|-1]);
      if m.Merged? {
        SignedStaysVerified(c, m.rec, sigs[|sigs|-1]);
      }
    }
  }

  lemma PutKeepsStoreOk(c: Crypto, recs: Recs, rec: Record)
    requires StoreOk(c, recs)
    ensures StoreOk(c, PutInto(c, recs, rec).0)
  {
    hide Verified, ValidMatchId, Merging;
    var id := rec.result.matchId;
    if id in recs {
      MergingKeeps(c, recs[id], rec.signatures);
    }
  }

  ghost predicate SamePeople(r: MatchResult, q: MatchResult) {
    forall key :: Plays(r, key) <==> Plays(q, key)
  }

  /** The two are the same match and its hash says so. */
  ghost predicate SameMatch(a: Record, b: Record) {
    a.result.matchId == b.result.matchId && a.hash == b.hash && SamePeople(a.result, b.result)
  }

  lemma AcceptsAlike(c: Crypto, held: Record, rec: Record, s: Signature)
    requires Verified(c, held) && Verified(c, rec) && SameMatch(held, rec) && s in rec.signatures
    ensures Accepts(c, held, s)
  {
    hide ValidResult, HashHex;
  }

  /** Signatures from another copy of the same match are all taken in. */
  lemma {:induction false} MergingUnites(c: Crypto, held: Record, rec: Record, n: nat)
    requires Verified(c, held) && Verified(c, rec) && SameMatch(held, rec) && n <= |rec.signatures|
    ensures var m := Merging(c, held, rec.signatures[..n]);
      && m.Merged? && m.rec.result == held.result && m.rec.hash == held.hash && Verified(c, m.rec)
      && Signers(m.rec) == Signers(held) + KeySet(SignerOf, rec.signatures[..n])
      && (m.added <==> !(KeySet(SignerOf, rec.signatures[..n]) <= Signers(held)))
  {
    hide Verified, Accepts;
    var sigs := rec.signatures[..n];
    if n == 0 {
      assert KeySet(SignerOf, sigs) == {};
    } else {
      MergingUnites(c, held, rec, n - 1);
      var s := rec.signatures[n - 1];
      assert sigs[..n - 1] == rec.signatures[..n - 1] && sigs[n - 1] == s;
      var m := Merging(c, held, rec.signatures[..n - 1]);
      AcceptsAlike(c, m.rec, rec, s);
      SignedStaysVerified(c, m.rec, s);
      KeySetStep(sigs);
      AddedStep(Signers(held), KeySet(SignerOf, rec.signatures[..n - 1]), s.pubKey);
    }
  }

  lemma AddedStep(held: set<string>, before: set<string>, key: string)
    ensures key in held + before ==>
      held + (before + {key}) == held + before && (before + {key} <= held <==> before <= held)
    ensures key !in held + before ==> !(before + {key} <= held) && held + (before + {key}) == held + before + {key}
  {
  }

  lemma KeySetStep(sigs: seq<Signature>)
    requires |sigs| > 0
    ensures KeySet(SignerOf, sigs) == KeySet(SignerOf, sigs[..|sigs|-1]) + {sigs[|sigs|-1].pubKey}
  {
    var init, last := sigs[..|sigs|-1], sigs[|sigs|-1];
    assert sigs == init + [last];
    forall k
      ensures k in KeySet(SignerOf, sigs) <==> k in KeySet(SignerOf, init) || k == last.pubKey
    {
      assert last in sigs && SignerOf(last) == last.pubKey;
    }
  }

  // ---- One Put ----

  /** A record was taken in: only its match changed, and that to the union of the signers. */
  ghost predicate TakenIn(recs: Recs, rec: Record, recs': Recs, outcome: Outcome) {
    var id := rec.result.matchId;
    && outcome != Refused
    && id in recs' && recs' == recs[id := recs'[id]]
    && recs'[id].hash == rec.hash
    && recs'[id].result == (if id in recs then recs[id].result else rec.result)
    && Signers(recs'[id]) == (if id in recs then Signers(recs[id]) else {}) + Signers(rec)
    && (outcome == Changed <==> id !in recs || !(Signers(rec) <= Signers(recs[id])))
    && (outcome == Unchanged ==> recs' == recs)
  }

  lemma NewMatchTakenIn(c: Crypto, recs: Recs, rec: Record)
    requires Good(c, rec) && rec.result.matchId !in recs
    ensures var (recs', outcome) := PutInto(c, recs, rec); TakenIn(recs, rec, recs', outcome)
  {
    hide Good, Signers;
  }

  lemma PutIsMerge(c: Crypto, recs: Recs, rec: Record)
    requires Good(c, rec) && rec.result.matchId in recs && recs[rec.result.matchId].hash == rec.hash
    requires Merging(c, recs[rec.result.matchId], rec.signatures).Merged?
    ensures var id, m := rec.result.matchId, Merging(c, recs[rec.result.matchId], rec.signatures);
      PutInto(c, recs, rec) == if m.added then (recs[id := m.rec], Changed) else (recs, Unchanged)
  {
    hide Good, Merging;
  }

  lemma HeldMatchTakenIn(c: Crypto, recs: Recs, rec: Record)
    requires Good(c, rec) && rec.result.matchId in recs
    requires Verified(c, recs[rec.result.matchId]) && SameMatch(recs[rec.result.matchId], rec)
    ensures var (recs', outcome) := PutInto(c, recs, rec); TakenIn(recs, rec, recs', outcome)
  {
    hide Verified, ValidMatchId, Merging, SamePeople, Signers, PutInto, KeySet;
    var id := rec.result.matchId;
    MergingUnites(c, recs[id], rec, |rec.signatures|);
    assert rec.signatures[..|rec.signatures|] == rec.signatures;
    SignersAreKeys(rec);
    PutIsMerge(c, recs, rec);
    assert recs == recs[id := recs[id]];
  }

  lemma SignersAreKeys(rec: Record)
    ensures Signers(rec) == KeySet(SignerOf, rec.signatures)
  {
  }

  /** What Put does with another copy of a match the store holds, or with a new match. */
  lemma PutEffect(c: Crypto, recs: Recs, rec: Record)
    requires StoreOk(c, recs) && Good(c, rec)
    requires rec.result.matchId in recs ==> SameMatch(recs[rec.result.matchId], rec)
    ensures var (recs', outcome) := PutInto(c, recs, rec);
      TakenIn(recs, rec, recs', outcome) && StoreOk(c, recs')
  {
    PutKeepsStoreOk(c, recs, rec);
    hide Verified, PutInto, TakenIn, SameMatch, ValidMatchId;
    if rec.result.matchId in recs {
      HeldMatchTakenIn(c, recs, rec);
    } else {
      NewMatchTakenIn(c, recs, rec);
    }
  }

  /** A record under a hash the store does not hold for that match is refused. */
  lemma ConflictIsRefused(c: Crypto, recs: Recs, rec: Record)
    requires rec.result.matchId in recs && recs[rec.result.matchId].hash != rec.hash
    ensures PutInto(c, recs, rec) == (recs, Refused)
  {
  }

  /** Where the digest does not collide, copies under one hash are copies of one match. */
  lemma EqualHashSameMatch(c: Crypto, a: Record, b: Record)
    requires Verified(c, a) && Verified(c, b) && a.hash == b.hash && NoCollision(c, a.result, b.result)
    ensures SameMatch(a, b)
  {
    HashBindsResult(c, a.result, b.result);
  }

  // ---- Any number of Puts ----

  ghost function PutAll(c: Crypto, recs: Recs, offers: seq<Record>): Recs {
    if |offers| == 0 then recs
    else PutInto(c, PutAll(c, recs, offers[..|offers|-1]), offers[|offers|-1]).0
  }

  ghost predicate Offers(c: Crypto, rec: Record, id: string) {
    Good(c, rec) && rec.result.matchId == id
  }

  /** Two good records offered for one match under one hash. */
  ghost predicate OfferedAlike(c: Crypto, a: Record, b: Record, id: string) {
    Offers(c, a, id) && Offers(c, b, id) && a.hash == b.hash
  }

  /** The good records offered for this match under one hash are of the same people. Others may
      be offered under other hashes. */
  ghost predicate Coherent(c: Crypto, offers: seq<Record>, id: string) {
    forall a, b :: 0 <= a < |offers| && 0 <= b < |offers| && OfferedAlike(c, offers[a], offers[b], id) ==>
      SameMatch(offers[a], offers[b])
  }

  ghost predicate AllCoherent(c: Crypto, offers: seq<Record>) {
    forall id :: Coherent(c, offers, id)
  }

  /** The first good offer of a match, or -1. */
  ghost function FirstOffer(c: Crypto, offers: seq<Record>, id: string): (k: int)
    ensures -1 <= k < |offers| && (k >= 0 ==> Offers(c, offers[k], id))
  {
    if |offers| == 0 then -1
    else
      var k := FirstOffer(c, offers[..|offers|-1], id);
      if k >= 0 then k else if Offers(c, offers[|offers|-1], id) then |offers| - 1 else -1
  }

  ghost predicate OffersUnder(c: Crypto, rec: Record, id: string, hash: string) {
    Offers(c, rec, id) && rec.hash == hash
  }

  /** All who signed some good offer of a match under a hash. */
  ghost function OfferedSigners(c: Crypto, offers: seq<Record>, id: string, hash: string): set<string> {
    if |offers| == 0 then {}
    else
      OfferedSigners(c, offers[..|offers|-1], id, hash)
      + (if OffersUnder(c, offers[|offers|-1], id, hash) then Signers(offers[|offers|-1]) else {})
  }

  lemma {:induction false} OfferedSignersMeaning(c: Crypto, offers: seq<Record>, id: string, hash: string, key: string)
    ensures key in OfferedSigners(c, offers, id, hash) <==>
      exists k :: 0 <= k < |offers| && OffersUnder(c, offers[k], id, hash) && key in Signers(offers[k])
  {
    hide OffersUnder, Signers;
    if |offers| > 0 {
      OfferedSignersMeaning(c, offers[..|offers|-1], id, hash, key);
      assert forall k :: 0 <= k < |offers| - 1 ==> offers[..|offers|-1][k] == offers[k];
    }
  }

  lemma {:induction false} FirstOfferMeaning(c: Crypto, offers: seq<Record>, id: string)
    ensures FirstOffer(c, offers, id) >= 0 <==> exists k :: 0 <= k < |offers| && Offers(c, offers[k], id)
    ensures forall k :: 0 <= k < |offers| && Offers(c, offers[k], id) ==> FirstOffer(c, offers, id) <= k
  {
    hide Offers;
    if |offers| > 0 {
      FirstOfferMeaning(c, offers[..|offers|-1], id);
      assert forall k :: 0 <= k < |offers| - 1 ==> offers[..|offers|-1][k] == offers[k];
    }
  }

  /** What a store holds of one match is what was offered: the result and hash of the first good
      offer, signed by everybody who signed any good offer under that hash. */
  ghost predicate HoldsOffered(c: Crypto, recs: Recs, offers: seq<Record>, id: string) {
    var k := FirstOffer(c, offers, id);
    && (id in recs <==> k >= 0)
    && (id in recs ==>
          && recs[id].result == offers[k].result && recs[id].hash == offers[k].hash
          && Signers(recs[id]) == OfferedSigners(c, offers, id, offers[k].hash))
  }

  lemma OneMoreOffer(c: Crypto, recs: Recs, offers: seq<Record>, recs': Recs, outcome: Outcome, id: string)
    requires |offers| > 0 && HoldsOffered(c, recs, offers[..|offers|-1], id)
    requires Good(c, offers[|offers|-1]) && TakenIn(recs, offers[|offers|-1], recs', outcome)
    requires id == offers[|offers|-1].result.matchId && id in recs ==> SameMatch(recs[id], offers[|offers|-1])
    ensures HoldsOffered(c, recs', offers, id)
  {
    hide Good, Signers, SamePeople;
    NoneYet(c, offers[..|offers|-1], id, offers[|offers|-1].hash);
  }

  lemma {:induction false} NoneYet(c: Crypto, offers: seq<Record>, id: string, hash: string)
    ensures FirstOffer(c, offers, id) < 0 ==> OfferedSigners(c, offers, id, hash) == {}
  {
    hide Offers, Signers;
    if |offers| > 0 {
      NoneYet(c, offers[..|offers|-1], id, hash);
    }
  }

  /** An offer that is no good, or of another hash than the one held, changes nothing. */
  lemma AnotherBadOffer(c: Crypto, recs: Recs, offers: seq<Record>, id: string)
    requires |offers| > 0 && HoldsOffered(c, recs, offers[..|offers|-1], id)
    requires var last := offers[|offers|-1];
      !Good(c, last) || (last.result.matchId in recs && recs[last.result.matchId].hash != last.hash)
    ensures HoldsOffered(c, recs, offers, id) && PutInto(c, recs, offers[|offers|-1]).0 == recs
  {
    hide Good, Signers;
  }

  /** After any sequence of Puts, with repeats, bad records and conflicting ones among them. */
  lemma {:induction false} PutsUniteOffers(c: Crypto, offers: seq<Record>, id: string)
    requires AllCoherent(c, offers)
    ensures StoreOk(c, PutAll(c, map[], offers)) && HoldsOffered(c, PutAll(c, map[], offers), offers, id)
  {
    hide StoreOk, Good, Signers, SamePeople, PutInto, HoldsOffered, Offers, AllCoherent;
    if |offers| == 0 {
      NothingOffered(c, id);
    } else {
      var init, last := offers[..|offers|-1], offers[|offers|-1];
      CoherentPrefix(c, offers);
      PutsUniteOffers(c, init, id);
      var recs := PutAll(c, map[], init);
      PutKeepsStoreOk(c, recs, last);
      var mine := last.result.matchId;
      if !Good(c, last) || (mine in recs && recs[mine].hash != last.hash) {
        AnotherBadOffer(c, recs, offers, id);
      } else {
        PutsUniteOffers(c, init, mine);
        HeldMatchIsSame(c, recs, offers);
        PutEffect(c, recs, last);
        OneMoreOffer(c, recs, offers, PutInto(c, recs, last).0, PutInto(c, recs, last).1, id);
      }
    }
  }

  lemma NothingOffered(c: Crypto, id: string)
    ensures StoreOk(c, map[]) && HoldsOffered(c, map[], [], id)
  {
  }

  lemma HeldMatchIsSame(c: Crypto, recs: Recs, offers: seq<Record>)
    requires |offers| > 0 && AllCoherent(c, offers) && Good(c, offers[|offers|-1])
    requires HoldsOffered(c, recs, offers[..|offers|-1], offers[|offers|-1].result.matchId)
    ensures var last := offers[|offers|-1]; var id := last.result.matchId;
      id in recs && recs[id].hash == last.hash ==> SameMatch(recs[id], last)
  {
    LastMatches(c, offers);
    hide Good, AllCoherent, Signers;
  }

  lemma CoherentPrefix(c: Crypto, offers: seq<Record>)
    requires |offers| > 0 && AllCoherent(c, offers)
    ensures AllCoherent(c, offers[..|offers|-1])
  {
    hide OfferedAlike, SameMatch;
    var init := offers[..|offers|-1];
    forall i
      ensures Coherent(c, init, i)
    {
      assert Coherent(c, offers, i);
    }
  }

  lemma LastMatches(c: Crypto, offers: seq<Record>)
    requires |offers| > 0 && AllCoherent(c, offers) && Good(c, offers[|offers|-1])
    ensures var id := offers[|offers|-1].result.matchId;
      var k := FirstOffer(c, offers[..|offers|-1], id);
      k >= 0 && offers[k].hash == offers[|offers|-1].hash ==> SameMatch(offers[k], offers[|offers|-1])
  {
    hide Good, SameMatch;
    var id := offers[|offers|-1].result.matchId;
    var k := FirstOffer(c, offers[..|offers|-1], id);
    assert Coherent(c, offers, id) && Offers(c, offers[|offers|-1], id);
    assert k >= 0 ==> offers[..|offers|-1][k] == offers[k];
  }

  /** All good offers of this match come under one hash. */
  ghost predicate OneHash(c: Crypto, offers: seq<Record>, id: string) {
    forall a, b :: 0 <= a < |offers| && 0 <= b < |offers| && Offers(c, offers[a], id) && Offers(c, offers[b], id) ==>
      offers[a].hash == offers[b].hash
  }

  /** The order of the Puts, and repeating them, changes neither which matches are held, nor who
      has signed under a hash both end with; and both end with the same if only one is offered. */
  lemma PutsForgetOrder(c: Crypto, offers: seq<Record>, others: seq<Record>, id: string)
    requires AllCoherent(c, offers) && AllCoherent(c, others)
    requires forall r :: r in offers <==> r in others
    ensures var a, b := PutAll(c, map[], offers), PutAll(c, map[], others);
      && (id in a <==> id in b)
      && (id in a && a[id].hash == b[id].hash ==> Signers(a[id]) == Signers(b[id]))
      && (id in a && OneHash(c, offers, id) ==> a[id].hash == b[id].hash)
  {
    PutsUniteOffers(c, offers, id);
    PutsUniteOffers(c, others, id);
    FirstOfferMeaning(c, offers, id);
    FirstOfferMeaning(c, others, id);
    var a := PutAll(c, map[], offers);
    if id in a {
      SameOffersSameSigners(c, offers, others, id, a[id].hash);
    }
    FirstOffersAgree(c, offers, others, id);
    hide Offers, StoreOk, PutAll, Signers;
  }

  lemma FirstOffersAgree(c: Crypto, offers: seq<Record>, others: seq<Record>, id: string)
    requires forall r :: r in offers <==> r in others
    ensures var j, k := FirstOffer(c, offers, id), FirstOffer(c, others, id);
      (j >= 0 <==> k >= 0) && (j >= 0 && OneHash(c, offers, id) ==> offers[j].hash == others[k].hash)
  {
    hide Offers;
    FirstOfferMeaning(c, offers, id);
    FirstOfferMeaning(c, others, id);
    var j, k := FirstOffer(c, offers, id), FirstOffer(c, others, id);
    if j >= 0 {
      assert offers[j] in others;
    }
    if k >= 0 {
      assert others[k] in offers;
    }
  }

  lemma SameOffersSameSigners(c: Crypto, offers: seq<Record>, others: seq<Record>, id: string, hash: string)
    requires forall r :: r in offers <==> r in others
    ensures OfferedSigners(c, offers, id, hash) == OfferedSigners(c, others, id, hash)
  {
    hide OffersUnder, Signers;
    forall key
      ensures key in OfferedSigners(c, offers, id, hash) <==> key in OfferedSigners(c, others, id, hash)
    {
      OfferedSignersMeaning(c, offers, id, hash, key);
      OfferedSignersMeaning(c, others, id, hash, key);
      if k :| 0 <= k < |offers| && OffersUnder(c, offers[k], id, hash) && key in Signers(offers[k]) {
        assert offers[k] in others;
      }
      if k :| 0 <= k < |others| && OffersUnder(c, others[k], id, hash) && key in Signers(others[k]) {
        assert others[k] in offers;
      }
    }
  }

  // ---- What the digest vouches for ----

  /** The digest does not collide on the results of these records. */
  ghost predicate CollisionFree(c: Crypto, offers: seq<Record>) {
    forall a, b :: 0 <= a < |offers| && 0 <= b < |offers| ==> NoCollision(c, offers[a].result, offers[b].result)
  }

  lemma CollisionFreeIsCoherent(c: Crypto, offers: seq<Record>)
    requires CollisionFree(c, offers)
    ensures AllCoherent(c, offers)
  {
    hide Verified, ValidMatchId, NoCollision, SameMatch;
    forall id, a, b | 0 <= a < |offers| && 0 <= b < |offers| && OfferedAlike(c, offers[a], offers[b], id)
      ensures SameMatch(offers[a], offers[b])
    {
      assert NoCollision(c, offers[a].result, offers[b].result);
      EqualHashSameMatch(c, offers[a], offers[b]);
    }
  }

  /** As long as the digest does not collide on what is offered, any sequence of Puts leaves of each
      match the first good result, signed by all who signed a good offer of the same hash. */
  lemma AnyPutsUnite(c: Crypto, offers: seq<Record>, id: string)
    requires CollisionFree(c, offers)
    ensures StoreOk(c, PutAll(c, map[], offers)) && HoldsOffered(c, PutAll(c, map[], offers), offers, id)
  {
    CollisionFreeIsCoherent(c, offers);
    hide AllCoherent, CollisionFree, HoldsOffered;
    PutsUniteOffers(c, offers, id);
  }
}
