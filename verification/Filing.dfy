/**
 What becomes of the record of a finished match (internal/netplay/host.go): it waits for signatures
 until it is closed and stored, or until the next match is filed over it.
*/
module Filing {
  import opened Types
  import opened Records
  import opened Attestation
  import opened World
  import opened Roster
  import opened Lobby
  import opened LobbyInvariant
  import opened LobbyMoves
  import opened LobbyRuns
  import Store

  /** The record closed, and so handed to the store, by one move of a run. */
  ghost predicate HandedOver(c: Crypto, r: Room, ms: seq<Move>, i: nat, rec: Record) {
    i < |ms| && ms[i].Close? && Ran(c, r, ms[..i]).record == Some(rec)
  }

  predicate SetsRecord(m: Move) { m.File? || m.Close? }

  /** The first move from n on that files or closes a record, or the end of the run. */
  function NextSetting(ms: seq<Move>, n: nat): (k: nat)
    requires n <= |ms|
    ensures n <= k <= |ms| && (k < |ms| ==> SetsRecord(ms[k]))
    ensures forall i :: n <= i < k ==> !SetsRecord(ms[i])
    decreases |ms| - n
  {
    if n == |ms| || SetsRecord(ms[n]) then n else NextSetting(ms, n + 1)
  }

  /** The same result under the same hash, nobody's signature lost, to be closed by the same time. */
  ghost predicate StillPending(rec: Record, until: int, r: Room) {
    && r.record.Some? && r.record.value.result == rec.result && r.record.value.hash == rec.hash
    && Signers(rec) <= Signers(r.record.value) && r.attestUntil == until
  }

  // ---- One move ----

  lemma DropLeavesRecord(r: Room, id: PlayerID)
    ensures Dropped(r, id).record == r.record && Dropped(r, id).attestUntil == r.attestUntil
  {
    hide Eliminated, WithoutAt, Unready, BotCount;
  }

  lemma {:induction false} LosingLeavesRecord(r: Room, ids: seq<PlayerID>)
    ensures Lost(r, ids).record == r.record
  {
    hide Dropped;
    if |ids| > 0 {
      LosingLeavesRecord(r, ids[..|ids|-1]);
      DropLeavesRecord(Lost(r, ids[..|ids|-1]), ids[|ids|-1]);
    }
  }

  lemma CloseTakesRecord(c: Crypto, r: Room, m: Move)
    requires m.Close?
    ensures After(c, r, m).record.None?
  {
    hide Lost;
    LosingLeavesRecord(r.(record := None), m.lost);
  }

  lemma OthersLeaveRecord(c: Crypto, r: Room, m: Move)
    requires !SetsRecord(m) && !m.Attest?
    ensures After(c, r, m).record == r.record && After(c, r, m).attestUntil == r.attestUntil
  {
    hide Dropped, Resettled, Unready, BotCount, Admit, NewSeat, Clamped, Acked, Coast, PlayersOf, SeatIndex;
    if m.Drop? {
      DropLeavesRecord(r, m.id);
    }
  }

  lemma AttestKeepsPending(c: Crypto, hostKey: string, r: Room, m: Move, rec: Record, until: int)
    requires RoomInv(c, hostKey, r) && m.Attest? && StillPending(rec, until, r)
    ensures StillPending(rec, until, After(c, r, m))
  {
    RecordOfInv(c, hostKey, r);
    hide RoomInv, Verified, Signed, Signers, Accepts, SignedSet;
    SignedStaysVerified(c, r.record.value, m.s);
    SignedSetRecord(r.(record := Some(Signed(c, r.record.value, m.s))), m.id, true);
    SignedHash(c, r.record.value, m.s);
  }

  lemma SignedHash(c: Crypto, rec: Record, s: Signature)
    ensures Signed(c, rec, s).hash == rec.hash
  {
    hide Accepts, WithSignature;
  }

  lemma SignedSetRecord(r: Room, id: PlayerID, signed: bool)
    ensures SignedSet(r, id, signed).record == r.record && SignedSet(r, id, signed).attestUntil == r.attestUntil
  {
  }

  /** Until the next record is filed or this one closed, nothing becomes of it but signatures. */
  lemma {:induction false} PendingStays(c: Crypto, hostKey: string, r: Room, ms: seq<Move>, rec: Record, until: int)
    requires RoomInv(c, hostKey, r) && LegalRun(c, hostKey, r, ms) && StillPending(rec, until, r)
    requires forall m :: m in ms ==> !SetsRecord(m)
    ensures StillPending(rec, until, Ran(c, r, ms))
  {
    hide RoomInv, Legal, After, Signers;
    if |ms| > 0 {
      var init, m := ms[..|ms|-1], ms[|ms|-1];
      assert forall x :: x in init ==> x in ms;
      PendingStays(c, hostKey, r, init, rec, until);
      RunKeeps(c, hostKey, r, init);
      if m.Attest? {
        AttestKeepsPending(c, hostKey, Ran(c, r, init), m, rec, until);
      } else {
        OthersLeaveRecord(c, Ran(c, r, init), m);
      }
    }
  }

  // ---- Runs ----

  lemma {:induction false} LegalPrefix(c: Crypto, hostKey: string, r: Room, ms: seq<Move>, n: nat)
    requires LegalRun(c, hostKey, r, ms) && n <= |ms|
    ensures LegalRun(c, hostKey, r, ms[..n])
    ensures n < |ms| ==> Legal(c, hostKey, Ran(c, r, ms[..n]), ms[n]) && ms[..n + 1][..n] == ms[..n]
    decreases |ms| - n
  {
    hide Legal, After;
    if n < |ms| {
      LegalPrefix(c, hostKey, r, ms, n + 1);
      assert ms[..n + 1][..n] == ms[..n];
    } else {
      assert ms[..n] == ms;
    }
  }

  lemma FilingSets(c: Crypto, r: Room, rec: Record, now: int)
    ensures StillPending(rec, now + ATTEST_WINDOW, After(c, r, File(rec, now)))
  {
    hide Signers;
  }

  lemma KeptUntil(c: Crypto, hostKey: string, r: Room, ms: seq<Move>, n: nat, k: nat)
    requires RoomInv(c, hostKey, r) && LegalRun(c, hostKey, r, ms) && n < k <= |ms| && ms[n].File?
    requires forall i :: n + 1 <= i < k ==> !SetsRecord(ms[i])
    ensures StillPending(ms[n].rec, ms[n].now + ATTEST_WINDOW, Ran(c, r, ms[..k]))
  {
    hide RoomInv, Legal, Ran, LegalRun, After, StillPending;
    QuietBetween(ms, n + 1, k);
    LegalPrefix(c, hostKey, r, ms, n + 1);
    LegalPrefix(c, hostKey, r, ms, k);
    RanNext(c, r, ms, n);
    FilingSets(c, Ran(c, r, ms[..n]), ms[n].rec, ms[n].now);
    RanOn(c, hostKey, r, ms[..n + 1], ms[n + 1..k]);
    RunKeeps(c, hostKey, r, ms[..n + 1]);
    PendingStays(c, hostKey, Ran(c, r, ms[..n + 1]), ms[n + 1..k], ms[n].rec, ms[n].now + ATTEST_WINDOW);
  }

  /** In any run: a record once filed is there, with its time limit and all its signatures, at the
      next move that files or closes a record, and if that closes it, then because it is due. */
  lemma FiledIsKept(c: Crypto, hostKey: string, r: Room, ms: seq<Move>, n: nat)
    requires RoomInv(c, hostKey, r) && LegalRun(c, hostKey, r, ms) && n < |ms| && ms[n].File?
    ensures var k := NextSetting(ms, n + 1); var then' := Ran(c, r, ms[..k]);
      && StillPending(ms[n].rec, ms[n].now + ATTEST_WINDOW, then')
      && (k < |ms| && ms[k].Close? ==> HandedOver(c, r, ms, k, then'.record.value) && Due(then', ms[k].now))
  {
    hide RoomInv, Legal, Ran, LegalRun, After, StillPending, Due;
    var k := NextSetting(ms, n + 1);
    KeptUntil(c, hostKey, r, ms, n, k);
    PendingNow(ms[n].rec, ms[n].now + ATTEST_WINDOW, Ran(c, r, ms[..k]));
    if k < |ms| && ms[k].Close? {
      LegalPrefix(c, hostKey, r, ms, k);
      CloseWhenDue(c, hostKey, Ran(c, r, ms[..k]), ms[k]);
    }
  }

  lemma QuietBetween(ms: seq<Move>, j: nat, k: nat)
    requires j <= k <= |ms| && forall i :: j <= i < k ==> !SetsRecord(ms[i])
    ensures ms[..k] == ms[..j] + ms[j..k] && forall m :: m in ms[j..k] ==> !SetsRecord(m)
  {
  }

  lemma PendingNow(rec: Record, until: int, r: Room)
    requires StillPending(rec, until, r)
    ensures r.record.Some?
  {
  }

  lemma CloseWhenDue(c: Crypto, hostKey: string, r: Room, m: Move)
    requires m.Close? && Legal(c, hostKey, r, m)
    ensures Due(r, m.now)
  {
  }

  lemma RanNext(c: Crypto, r: Room, ms: seq<Move>, n: nat)
    requires n < |ms|
    ensures Ran(c, r, ms[..n + 1]) == After(c, Ran(c, r, ms[..n]), ms[n])
  {
    hide After;
    assert ms[..n + 1][..n] == ms[..n];
  }

  /** A pending record's result was filed by the last move that filed or closed one, unless there
      was none and it was pending from the start. */
  ghost predicate FiledLast(r: Room, ms: seq<Move>, j: nat, result: MatchResult) {
    && j <= |ms| && NextSetting(ms, j) == |ms|
    && (if j == 0 then r.record.Some? && r.record.value.result == result
        else ms[j - 1].File? && ms[j - 1].rec.result == result)
  }

  lemma {:induction false} NoneSince(ms: seq<Move>, j: nat, k: nat)
    requires j <= k <= |ms| && forall i :: j <= i < k ==> !SetsRecord(ms[i])
    requires k == |ms| || SetsRecord(ms[k])
    ensures NextSetting(ms, j) == k
  {
  }

  lemma {:induction false} PendingWasFiled(c: Crypto, hostKey: string, r: Room, ms: seq<Move>)
    requires RoomInv(c, hostKey, r) && LegalRun(c, hostKey, r, ms) && Ran(c, r, ms).record.Some?
    ensures exists j: nat :: FiledLast(r, ms, j, Ran(c, r, ms).record.value.result)
  {
    hide RoomInv, Legal, After, Signers;
    if |ms| == 0 {
      assert FiledLast(r, ms, 0, r.record.value.result);
    } else {
      var init, m := ms[..|ms|-1], ms[|ms|-1];
      var before := Ran(c, r, init);
      RunKeeps(c, hostKey, r, init);
      if m.File? {
        FilingSets(c, before, m.rec, m.now);
        assert FiledLast(r, ms, |ms|, Ran(c, r, ms).record.value.result);
      } else if m.Close? {
        CloseTakesRecord(c, before, m);
        assert false;
      } else {
        LeavesResult(c, hostKey, before, m);
        PendingWasFiled(c, hostKey, r, init);
        var j: nat :| FiledLast(r, init, j, before.record.value.result);
        NoneSince(ms, j, |ms|);
        assert FiledLast(r, ms, j, Ran(c, r, ms).record.value.result);
      }
    }
  }

  lemma LeavesResult(c: Crypto, hostKey: string, r: Room, m: Move)
    requires RoomInv(c, hostKey, r) && !SetsRecord(m) && After(c, r, m).record.Some?
    ensures r.record.Some? && After(c, r, m).record.value.result == r.record.value.result
  {
    hide RoomInv, After;
    if m.Attest? {
      NoneToAttest(c, r, m);
      AttestKeepsPending(c, hostKey, r, m, r.record.value, r.attestUntil);
    } else {
      OthersLeaveRecord(c, r, m);
    }
  }

  lemma NoneToAttest(c: Crypto, r: Room, m: Move)
    requires m.Attest? && After(c, r, m).record.Some?
    ensures r.record.Some?
  {
    hide Accepts, Signed;
  }

  /** A record that is lost to the filing at k: filed before it, or pending from the start, and
      neither closed nor replaced until then. */
  ghost predicate LosesRecord(r: Room, ms: seq<Move>, k: nat) {
    || (r.record.Some? && NextSetting(ms, 0) == k)
    || exists n: nat :: n < k && n < |ms| && ms[n].File? && NextSetting(ms, n + 1) == k
  }

  lemma NextWithin(ms: seq<Move>, j: nat, k: nat)
    requires j <= k < |ms| && NextSetting(ms[..k], j) == k && SetsRecord(ms[k])
    ensures NextSetting(ms, j) == k
  {
    assert forall i :: j <= i < k ==> ms[..k][i] == ms[i];
    NoneSince(ms, j, k);
  }

  /** A filing loses a record exactly if one is pending when it comes. */
  lemma FilingLosesIff(c: Crypto, hostKey: string, r: Room, ms: seq<Move>, k: nat)
    requires RoomInv(c, hostKey, r) && LegalRun(c, hostKey, r, ms) && k < |ms| && ms[k].File?
    ensures LosesRecord(r, ms, k) <==> Ran(c, r, ms[..k]).record.Some?
  {
    hide RoomInv, LegalRun, Ran, Signers, StillPending;
    LegalPrefix(c, hostKey, r, ms, k);
    if Ran(c, r, ms[..k]).record.Some? {
      PendingWasFiled(c, hostKey, r, ms[..k]);
      var j: nat :| FiledLast(r, ms[..k], j, Ran(c, r, ms[..k]).record.value.result);
      NextWithin(ms, j, k);
      assert j > 0 ==> ms[..k][j - 1] == ms[j - 1];
    }
    if LosesRecord(r, ms, k) {
      if r.record.Some? && NextSetting(ms, 0) == k {
        QuietBetween(ms, 0, k);
        assert ms[0..k] == ms[..k];
        PendingFromStart(r);
        PendingStays(c, hostKey, r, ms[..k], r.record.value, r.attestUntil);
        PendingNow(r.record.value, r.attestUntil, Ran(c, r, ms[..k]));
      } else {
        var n: nat :| n < k && n < |ms| && ms[n].File? && NextSetting(ms, n + 1) == k;
        KeptUntil(c, hostKey, r, ms, n, k);
        PendingNow(ms[n].rec, ms[n].now + ATTEST_WINDOW, Ran(c, r, ms[..k]));
      }
    }
  }

  lemma PendingFromStart(r: Room)
    requires r.record.Some?
    ensures StillPending(r.record.value, r.attestUntil, r)
  {
  }

  /** No other record of this result is filed or pending; a match ID is never used twice. */
  predicate OnlyFiling(r: Room, ms: seq<Move>, n: nat) {
    && n < |ms| && ms[n].File?
    && (r.record.Some? ==> r.record.value.result != ms[n].rec.result)
    && forall i :: 0 <= i < |ms| && i != n && ms[i].File? ==> ms[i].rec.result != ms[n].rec.result
  }

  /** Exactly when the record of a finished match is handed to the store: when it is closed before
      the next one is filed, which also has to happen before the run ends. */
  lemma FiledIsHandedOverIff(c: Crypto, hostKey: string, r: Room, ms: seq<Move>, n: nat)
    requires RoomInv(c, hostKey, r) && LegalRun(c, hostKey, r, ms) && OnlyFiling(r, ms, n)
    ensures var k := NextSetting(ms, n + 1);
      (exists i: nat, rec: Record :: HandedOver(c, r, ms, i, rec) && rec.result == ms[n].rec.result)
      <==> k < |ms| && ms[k].Close?
  {
    hide RoomInv, LegalRun, Ran, Signers, Due;
    var k := NextSetting(ms, n + 1);
    FiledIsKept(c, hostKey, r, ms, n);
    if i: nat, rec: Record :| HandedOver(c, r, ms, i, rec) && rec.result == ms[n].rec.result {
      LegalPrefix(c, hostKey, r, ms, i);
      PendingWasFiled(c, hostKey, r, ms[..i]);
      var j: nat :| FiledLast(r, ms[..i], j, rec.result);
      assert j > 0 && ms[..i][j - 1] == ms[j - 1] && j - 1 == n;
      assert forall x :: j <= x < i ==> ms[..i][x] == ms[x];
      NoneSince(ms, n + 1, i);
    }
  }
}
