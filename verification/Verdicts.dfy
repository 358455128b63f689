/**
 What is refused, case by case: results, records and match IDs (internal/proto/match.go,
 internal/store/store.go).
*/
module Verdicts {
  import opened Types
  import opened Text
  import opened Records
  import opened Attestation
  import Store

  // ---- Results ----

  predicate TwicePlaying(r: MatchResult) {
    exists a, b :: 0 <= a < b < |r.participants| && r.participants[a].pubKey == r.participants[b].pubKey
  }

  predicate BadKeyPlaying(c: Crypto, r: MatchResult) {
    exists a :: 0 <= a < |r.participants| && !c.keyOk(r.participants[a].pubKey)
  }

  predicate Stranger(r: MatchResult, key: string) {
    forall a :: 0 <= a < |r.participants| ==> r.participants[a].pubKey != key
  }

  predicate StrangerPlaced(r: MatchResult) {
    exists a :: 0 <= a < |r.placements| && Stranger(r, r.placements[a].pubKey)
  }

  /** Of another version, without an ID, a host or anybody playing; somebody playing twice, or under
      what is no key; a host who does not play, or somebody placed who does not. */
  predicate Defective(c: Crypto, r: MatchResult) {
    || r.version != 1 || r.matchId == "" || r.hostPubKey == "" || |r.participants| == 0
    || TwicePlaying(r) || BadKeyPlaying(c, r) || Stranger(r, r.hostPubKey) || StrangerPlaced(r)
  }

  lemma StrangerIff(r: MatchResult, key: string)
    ensures Stranger(r, key) <==> !Plays(r, key)
  {
    if Plays(r, key) {
      var p :| p in r.participants && p.pubKey == key;
      var a :| 0 <= a < |r.participants| && r.participants[a] == p;
    }
    if !Stranger(r, key) {
      var a :| 0 <= a < |r.participants| && r.participants[a].pubKey == key;
      assert r.participants[a] in r.participants;
    }
  }

  /** A result is refused for one of these reasons, and for no other. */
  lemma RefusedIff(c: Crypto, r: MatchResult)
    ensures !ValidResult(c, r) <==> Defective(c, r)
  {
    hide Plays;
    StrangerIff(r, r.hostPubKey);
    forall p | p in r.placements
      ensures Stranger(r, p.pubKey) <==> !Plays(r, p.pubKey)
    {
      StrangerIff(r, p.pubKey);
    }
    if StrangerPlaced(r) {
      var a :| 0 <= a < |r.placements| && Stranger(r, r.placements[a].pubKey);
      assert r.placements[a] in r.placements;
    }
    if p :| p in r.placements && !Plays(r, p.pubKey) {
      var a :| 0 <= a < |r.placements| && r.placements[a] == p;
      assert Stranger(r, r.placements[a].pubKey);
    }
    if BadKeyPlaying(c, r) {
      var a :| 0 <= a < |r.participants| && !c.keyOk(r.participants[a].pubKey);
      assert r.participants[a] in r.participants;
    }
    assert TwicePlaying(r) <==> !DistinctKeys(PubKeyOf, r.participants);
  }

  // ---- Records ----

  /** A signature by nobody who plays, under what is no key, or not over this digest. */
  predicate BadSignature(c: Crypto, rec: Record, hash: string, a: nat)
    requires a < |rec.signatures|
  {
    var s := rec.signatures[a];
    Stranger(rec.result, s.pubKey) || !c.keyOk(s.pubKey) || !c.sigOk(s.pubKey, hash, s.sig)
  }

  predicate SignedTwice(rec: Record) {
    exists a, b :: 0 <= a < b < |rec.signatures| && rec.signatures[a].pubKey == rec.signatures[b].pubKey
  }

  predicate SomeBadSignature(c: Crypto, rec: Record, hash: string) {
    exists a: nat :: a < |rec.signatures| && BadSignature(c, rec, hash, a)
  }

  /** A record is refused for its result, its hash, two signatures under one key, or a bad signature;
      and for nothing else, so a record with few signatures or none is as good. */
  lemma RecordRefusedIff(c: Crypto, rec: Record)
    ensures !Verified(c, rec) <==>
      || Defective(c, rec.result) || rec.hash != HashHex(c, rec.result) || SignedTwice(rec)
      || SomeBadSignature(c, rec, rec.hash)
  {
    hide ValidResult, HashHex, Plays, Stranger, Defective;
    RefusedIff(c, rec.result);
    forall s | s in rec.signatures
      ensures Stranger(rec.result, s.pubKey) <==> !Plays(rec.result, s.pubKey)
    {
      StrangerIff(rec.result, s.pubKey);
    }
    if SomeBadSignature(c, rec, rec.hash) {
      var a: nat :| a < |rec.signatures| && BadSignature(c, rec, rec.hash, a);
      assert rec.signatures[a] in rec.signatures;
    }
    if s :| s in rec.signatures && !(Plays(rec.result, s.pubKey) && Verifies(c, rec.result, s)) {
      var a: nat :| a < |rec.signatures| && rec.signatures[a] == s;
      assert rec.hash == HashHex(c, rec.result) ==> BadSignature(c, rec, rec.hash, a);
    }
    assert SignedTwice(rec) <==> !DistinctKeys(SignerOf, rec.signatures);
  }

  // ---- Match IDs ----

  predicate HexOf(s: string, n: nat) {
    |s| == n && forall i :: 0 <= i < n ==> s[i] in "0123456789abcdef"
  }

  /** Five groups of lower-case hex digits, joined by dashes. */
  ghost predicate Grouped(id: string, a: string, b: string, c: string, d: string, e: string) {
    && HexOf(a, 8) && HexOf(b, 4) && HexOf(c, 4) && HexOf(d, 4) && HexOf(e, 12)
    && id == a + "-" + b + "-" + c + "-" + d + "-" + e
  }

  lemma HexIff(c: char)
    ensures Store.LowerHex(c) <==> c in "0123456789abcdef"
  {
    if Store.LowerHex(c) {
      var i := if c <= '9' then c as int - '0' as int else c as int - 'a' as int + 10;
      assert "0123456789abcdef"[i] == c;
    }
  }

  lemma HexGroup(id: string, lo: nat, hi: nat)
    requires Store.ValidMatchId(id) && lo <= hi <= 36 && (hi <= 8 || 8 < lo) && (hi <= 13 || 13 < lo)
    requires (hi <= 18 || 18 < lo) && (hi <= 23 || 23 < lo)
    ensures HexOf(id[lo..hi], hi - lo)
  {
    hide Store.LowerHex;
    forall i | 0 <= i < hi - lo
      ensures id[lo..hi][i] in "0123456789abcdef"
    {
      assert Store.LowerHex(id[lo + i]);
      HexIff(id[lo + i]);
    }
  }

  lemma MatchIdIff(id: string)
    ensures Store.ValidMatchId(id) <==> exists a, b, c, d, e :: Grouped(id, a, b, c, d, e)
  {
    forall x: char
      ensures Store.LowerHex(x) <==> x in "0123456789abcdef"
    {
      HexIff(x);
    }
    hide Store.LowerHex;
    if Store.ValidMatchId(id) {
      var a, b, c, d, e := id[..8], id[9..13], id[14..18], id[19..23], id[24..];
      HexGroup(id, 0, 8);
      HexGroup(id, 9, 13);
      HexGroup(id, 14, 18);
      HexGroup(id, 19, 23);
      HexGroup(id, 24, 36);
      hide HexOf;
      assert id == a + "-" + b + "-" + c + "-" + d + "-" + e;
      assert Grouped(id, a, b, c, d, e);
    }
    if a, b, c, d, e :| Grouped(id, a, b, c, d, e) {
      forall i | 0 <= i < 36
        ensures if i in {8, 13, 18, 23} then id[i] == '-' else Store.LowerHex(id[i])
      {
        CharAt(id, a, b, c, d, e, i);
      }
    }
  }

  lemma CharAt(id: string, a: string, b: string, c: string, d: string, e: string, i: nat)
    requires Grouped(id, a, b, c, d, e) && i < 36
    ensures |id| == 36
    ensures id[i] == if i in {8, 13, 18, 23} then '-' else if i < 8 then a[i] else if i < 13 then b[i - 9]
                     else if i < 18 then c[i - 14] else if i < 23 then d[i - 19] else e[i - 24]
  {
  }
}
