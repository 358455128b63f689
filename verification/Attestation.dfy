/** Checking records and collecting signatures on them (internal/proto/match.go). */
module Attestation {
  import opened Types
  import Sorting
  import opened Text
  import opened Canonical
  import opened Records

  ghost function HashHex(c: Crypto, r: MatchResult): string {
    c.digest(SIG_DOMAIN + CanonicalBytes(r))
  }

  ghost predicate Plays(r: MatchResult, key: string) {
    exists p :: p in r.participants && p.pubKey == key
  }

  /** No error from `MatchResult.Validate`. */
  ghost predicate ValidResult(c: Crypto, r: MatchResult) {
    && r.version == VERSION && r.matchId != "" && |r.participants| > 0 && r.hostPubKey != ""
    && (forall p :: p in r.participants ==> c.keyOk(p.pubKey))
    && DistinctKeys(PubKeyOf, r.participants)
    && Plays(r, r.hostPubKey)
    && forall p :: p in r.placements ==> Plays(r, p.pubKey)
  }

  method Validate(c: Crypto, r: MatchResult) returns (ok: bool)
    ensures ok <==> ValidResult(c, r)
  {
    if r.version != VERSION || r.matchId == "" || |r.participants| == 0 || r.hostPubKey == "" {
      return false;
    }
    var seen: set<string> := {};
    for i := 0 to |r.participants|
      invariant forall k :: k in seen <==> exists j :: 0 <= j < i && r.participants[j].pubKey == k
      invariant forall j :: 0 <= j < i ==> c.keyOk(r.participants[j].pubKey)
      invariant forall a, b :: 0 <= a < b < i ==> r.participants[a].pubKey != r.participants[b].pubKey
    {
      var p := r.participants[i];
      if !c.keyOk(p.pubKey) || p.pubKey in seen {
        return false;
      }
      seen := seen + {p.pubKey};
    }
    assert forall k :: k in seen <==> Plays(r, k);
    if r.hostPubKey !in seen {
      return false;
    }
    for i := 0 to |r.placements|
      invariant forall j :: 0 <= j < i ==> Plays(r, r.placements[j].pubKey)
    {
      if r.placements[i].pubKey !in seen {
        return false;
      }
    }
    return true;
  }

  // ---- Signatures ----

  function SignerOf(s: Signature): string { s.pubKey }

  ghost function Signers(rec: Record): set<string> {
    KeySet(SignerOf, rec.signatures)
  }

  ghost function KeySet<T(!new)>(key: T -> string, s: seq<T>): (keys: set<string>)
    ensures forall k :: k in keys <==> exists x :: x in s && key(x) == k
  {
    set x | x in s :: key(x)
  }

  /** `verifyOne` against the record's digest. */
  ghost predicate Verifies(c: Crypto, r: MatchResult, s: Signature) {
    c.keyOk(s.pubKey) && c.sigOk(s.pubKey, HashHex(c, r), s.sig)
  }

  /** No error from `AttestedRecord.Verify`. */
  ghost predicate Verified(c: Crypto, rec: Record) {
    && ValidResult(c, rec.result)
    && rec.hash == HashHex(c, rec.result)
    && DistinctKeys(SignerOf, rec.signatures)
    && forall s :: s in rec.signatures ==> Plays(rec.result, s.pubKey) && Verifies(c, rec.result, s)
  }

  method HasPlayer(r: MatchResult, key: string) returns (found: bool)
    ensures found <==> Plays(r, key)
  {
    for i := 0 to |r.participants|
      invariant forall j :: 0 <= j < i ==> r.participants[j].pubKey != key
    {
      if r.participants[i].pubKey == key {
        return true;
      }
    }
    return false;
  }

  /** `HashHex`, from the normalised result through its generic form. */
  method ComputeHash(c: Crypto, r: MatchResult) returns (hash: string)
    ensures hash == HashHex(c, r)
  {
    hide ResultJson, Normalize, Encode;
    var bytes := WriteCanonical("", ResultJson(Normalize(r)));
    assert "" + CanonicalBytes(r) == CanonicalBytes(r);
    hash := c.digest(SIG_DOMAIN + bytes);
  }

  /** The record a result starts out as; a result that fails validation gets none. */
  method NewAttestedRecord(c: Crypto, r: MatchResult) returns (rec: Record, ok: bool)
    ensures ok <==> ValidResult(c, Normalize(r))
    ensures rec == Record(Normalize(r), HashHex(c, Normalize(r)), [])
  {
    hide ValidResult, HashHex, Normalize;
    var result := Normalize(r);
    ok := Validate(c, result);
    var hash := ComputeHash(c, result);
    rec := Record(result, hash, []);
  }

  method Verify(c: Crypto, rec: Record) returns (ok: bool)
    ensures ok <==> Verified(c, rec)
  {
    hide ValidResult, HashHex;
    var valid := Validate(c, rec.result);
    if !valid {
      return false;
    }
    var want := ComputeHash(c, rec.result);
    if rec.hash != want {
      return false;
    }
    var seen: set<string> := {};
    for i := 0 to |rec.signatures|
      invariant forall k :: k in seen <==> exists j :: 0 <= j < i && rec.signatures[j].pubKey == k
      invariant forall a, b :: 0 <= a < b < i ==> rec.signatures[a].pubKey != rec.signatures[b].pubKey
      invariant forall j :: 0 <= j < i ==>
        Plays(rec.result, rec.signatures[j].pubKey) && Verifies(c, rec.result, rec.signatures[j])
    {
      var s := rec.signatures[i];
      if s.pubKey in seen {
        return false;
      }
      seen := seen + {s.pubKey};
      var plays := HasPlayer(rec.result, s.pubKey);
      if !plays || !c.keyOk(s.pubKey) || !c.sigOk(s.pubKey, want, s.sig) {
        assert s in rec.signatures;
        return false;
      }
    }
    return true;
  }

  method SignedBy(rec: Record, key: string) returns (signed: bool)
    ensures signed <==> key in Signers(rec)
  {
    for i := 0 to |rec.signatures|
      invariant forall j :: 0 <= j < i ==> rec.signatures[j].pubKey != key
    {
      if rec.signatures[i].pubKey == key {
        assert SignerOf(rec.signatures[i]) == key;
        return true;
      }
    }
    return false;
  }

  /** The signatures after one more is taken in: it replaces an earlier one under the same
      key, or else joins in the order of keys. */
  function WithSignature(sigs: seq<Signature>, s: Signature): seq<Signature> {
    var k := KeyIndex(sigs, s.pubKey);
    if k >= 0 then sigs[k := s] else Sorting.SortBy(ByKey(SignerOf), sigs + [s])
  }

  function KeyIndex(sigs: seq<Signature>, key: string): (k: int)
    ensures -1 <= k < |sigs|
    ensures k >= 0 ==> sigs[k].pubKey == key
    ensures k < 0 ==> forall j :: 0 <= j < |sigs| ==> sigs[j].pubKey != key
    ensures forall j :: 0 <= j < k ==> sigs[j].pubKey != key
  {
    if |sigs| == 0 then -1
    else if sigs[0].pubKey == key then 0
    else var k := KeyIndex(sigs[1..], key); if k < 0 then -1 else k + 1
  }

  ghost predicate Accepts(c: Crypto, rec: Record, s: Signature) {
    Plays(rec.result, s.pubKey) && Verifies(c, rec.result, s)
  }

  ghost function Signed(c: Crypto, rec: Record, s: Signature): Record {
    if Accepts(c, rec, s) then rec.(signatures := WithSignature(rec.signatures, s)) else rec
  }

  method AddSignature(c: Crypto, rec: Record, s: Signature) returns (out: Record, ok: bool)
    ensures ok == Accepts(c, rec, s) && out == Signed(c, rec, s)
  {
    hide HashHex;
    var digest := ComputeHash(c, rec.result);
    var plays := HasPlayer(rec.result, s.pubKey);
    if !plays || !c.keyOk(s.pubKey) || !c.sigOk(s.pubKey, digest, s.sig) {
      return rec, false;
    }
    var sigs := rec.signatures;
    for i := 0 to |sigs|
      invariant forall j :: 0 <= j < i ==> sigs[j].pubKey != s.pubKey
    {
      if sigs[i].pubKey == s.pubKey {
        return rec.(signatures := sigs[i := s]), true;
      }
    }
    return rec.(signatures := Sorting.SortBy(ByKey(SignerOf), sigs + [s])), true;
  }

  lemma WithSignatureMembers(sigs: seq<Signature>, s: Signature, x: Signature)
    requires DistinctKeys(SignerOf, sigs)
    ensures x in WithSignature(sigs, s) <==> x == s || (x in sigs && x.pubKey != s.pubKey)
  {
    var k := KeyIndex(sigs, s.pubKey);
    var out := WithSignature(sigs, s);
    if k >= 0 {
      assert out[k] == s;
      if x in sigs && x.pubKey != s.pubKey {
        var i :| 0 <= i < |sigs| && sigs[i] == x;
        assert out[i] == x;
      }
    } else {
      Sorting.SameMembers(sigs + [s], out);
    }
  }

  lemma WithSignatureDistinct(sigs: seq<Signature>, s: Signature)
    requires DistinctKeys(SignerOf, sigs)
    ensures DistinctKeys(SignerOf, WithSignature(sigs, s))
  {
    var k := KeyIndex(sigs, s.pubKey);
    if k < 0 {
      assert DistinctKeys(SignerOf, sigs + [s]);
      KeysStayDistinct(SignerOf, sigs + [s], WithSignature(sigs, s));
    }
  }

  /** Strict order by key is kept; and one new signature brings it about. */
  lemma WithSignatureAscending(sigs: seq<Signature>, s: Signature)
    requires DistinctKeys(SignerOf, sigs)
    requires Ascending(SignerOf, sigs) || KeyIndex(sigs, s.pubKey) < 0
    ensures Ascending(SignerOf, WithSignature(sigs, s))
  {
    hide StrLess;
    var k := KeyIndex(sigs, s.pubKey);
    if k < 0 {
      assert DistinctKeys(SignerOf, sigs + [s]);
      SortAscending(SignerOf, sigs + [s]);
    } else {
      var out := WithSignature(sigs, s);
      forall a, b | 0 <= a < b < |out|
        ensures StrLess(SignerOf(out[a]), SignerOf(out[b]))
      {
        assert SignerOf(out[a]) == SignerOf(sigs[a]) && SignerOf(out[b]) == SignerOf(sigs[b]);
      }
    }
  }

  /** An accepted signature leaves a verified record verified, with one signer more at most. */
  lemma SignedStaysVerified(c: Crypto, rec: Record, s: Signature)
    requires Verified(c, rec)
    ensures Verified(c, Signed(c, rec, s)) && Signed(c, rec, s).result == rec.result
    ensures Signers(Signed(c, rec, s)) == Signers(rec) + (if Accepts(c, rec, s) then {s.pubKey} else {})
  {
    hide ValidResult, HashHex;
    if Accepts(c, rec, s) {
      var out := Signed(c, rec, s);
      WithSignatureDistinct(rec.signatures, s);
      forall x
        ensures x in out.signatures <==> x == s || (x in rec.signatures && x.pubKey != s.pubKey)
      {
        WithSignatureMembers(rec.signatures, s, x);
      }
      SignersOfSigned(rec, out, s);
    }
  }

  lemma SignersOfSigned(rec: Record, out: Record, s: Signature)
    requires forall x :: x in out.signatures <==> x == s || (x in rec.signatures && x.pubKey != s.pubKey)
    ensures Signers(out) == Signers(rec) + {s.pubKey}
  {
    assert s in out.signatures;
    forall k
      ensures k in Signers(out) <==> k in Signers(rec) || k == s.pubKey
    {
      if x :| x in rec.signatures && x.pubKey == k && k != s.pubKey {
        assert x in out.signatures;
      }
    }
  }

  predicate FullyAttested(rec: Record) {
    |rec.signatures| == |rec.result.participants|
  }

  ghost function Players(r: MatchResult): set<string> {
    KeySet(PubKeyOf, r.participants)
  }

  lemma {:induction false} KeySetSize<T(!new)>(key: T -> string, s: seq<T>)
    requires DistinctKeys(key, s)
    ensures |KeySet(key, s)| == |s|
  {
    if |s| > 0 {
      var init, last := s[..|s|-1], s[|s|-1];
      KeySetSize(key, init);
      assert s == init + [last];
      assert KeySet(key, s) == KeySet(key, init) + {key(last)};
    }
  }

  lemma SignersPlay(c: Crypto, rec: Record)
    requires Verified(c, rec)
    ensures Signers(rec) <= Players(rec.result)
    ensures |Signers(rec)| == |rec.signatures| && |Players(rec.result)| == |rec.result.participants|
  {
    hide HashHex, Verifies;
    forall k | k in Signers(rec)
      ensures k in Players(rec.result)
    {
      var s :| s in rec.signatures && s.pubKey == k;
      assert Plays(rec.result, s.pubKey);
    }
    KeySetSize(SignerOf, rec.signatures);
    KeySetSize(PubKeyOf, rec.result.participants);
  }

  /** Comparing two counts decides whether everybody who played has signed. */
  lemma FullyAttestedMeansEverybody(c: Crypto, rec: Record)
    requires Verified(c, rec)
    ensures FullyAttested(rec) <==> Signers(rec) == Players(rec.result)
  {
    hide Verified;
    SignersPlay(c, rec);
    if |Signers(rec)| == |Players(rec.result)| && Signers(rec) != Players(rec.result) {
      var k :| k in Players(rec.result) && k !in Signers(rec);
      Sorting.SubsetSize(Signers(rec), Players(rec.result) - {k});
    }
  }

  // ---- What equal hashes mean ----

  /** The digest does not collide on these two results. */
  ghost predicate NoCollision(c: Crypto, r: MatchResult, q: MatchResult) {
    HashHex(c, r) == HashHex(c, q) ==> CanonicalBytes(r) == CanonicalBytes(q)
  }

  /** If the digest does not collide, equal hashes mean the same result up to list order, and
      so the same people. */
  lemma HashBindsResult(c: Crypto, r: MatchResult, q: MatchResult)
    requires NoCollision(c, r, q) && HashHex(c, r) == HashHex(c, q)
    ensures SameUpToOrder(r, q)
    ensures forall key :: Plays(r, key) <==> Plays(q, key)
  {
    hide HashHex, CanonicalBytes;
    BytesBindContent(r, q);
    Sorting.SameMembers(r.participants, q.participants);
  }
}
