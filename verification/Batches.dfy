/** How many exchanges two peers need when each direction carries a limited batch (internal/gossip/gossip.go). */
module Batches {
  import opened Types
  import Sorting
  import opened Text
  import opened Records
  import opened Attestation
  import opened Store
  import opened Gossip
  import opened Convergence
  import opened Reconciliation

  /** The lacked matches of which mine has a signer the source has not: once mine has gained the
      source's, the source lacks them in turn, and they travel both ways. */
  ghost function Returning(mine: Recs, source: Recs): set<string> {
    set id | id in Lacks(mine, source) && !(SignersAt(mine, id) <= SignersAt(source, id))
  }

  /** How many records have yet to travel towards mine. */
  ghost function Load(mine: Recs, source: Recs): nat {
    |Lacks(mine, source)| + |Returning(source, mine)|
  }

  // ---- One exchange ----

  ghost predicate Batch(batch: set<string>, lacked: set<string>) {
    batch <= lacked && |batch| == Min(MAX_RECORDS, |lacked|)
  }

  /** What an exchange does to one match, given the two batches. */
  ghost predicate Moves(a: Recs, b: Recs, a': Recs, b': Recs, toA: set<string>, toB: set<string>, id: string) {
    if id in toA then Gains(a, a', b, b', id)
    else if id in toB then Gains(b, b', a, a', id)
    else Untouched(a, a', id) && Untouched(b, b', id)
  }

  lemma CappedIsBatch(s: set<string>)
    ensures Batch(Sorting.Elements(Capped(SortedSet(s))), s)
  {
    hide Capped, SortedSet;
    CappedMembers(s);
  }

  lemma MovesOne(c: Crypto, dialer: Recs, listener: Recs, id: string)
    requires Peers(c, dialer, listener)
    ensures var x := Exchanged(c, dialer, listener);
      Moves(dialer, listener, x.dialer, x.listener, Sorting.Elements(Capped(SortedSet(Lacks(dialer, listener)))),
            Sorting.Elements(Capped(SortedSet(Lacks(listener, dialer)))), id)
  {
    hide StoreOk, Agreeing, SortedSet, PutAll, Held, Pullable, Exchanged, Capped, PulledAt, Lacks, Moves;
    var x := Exchanged(c, dialer, listener);
    var ids, want := Capped(SortedSet(Lacks(dialer, listener))), Capped(SortedSet(Lacks(listener, dialer)));
    FirstHalf(c, dialer, listener);
    SecondHalf(c, dialer, listener);
    ExchangedParts(c, dialer, listener);
    CappedMembers(Lacks(dialer, listener));
    CappedMembers(Lacks(listener, dialer));
    PullEffect(c, dialer, listener, ids, id);
    PullEffect(c, listener, x.dialer, want, id);
    PulledMoves(dialer, listener, x.dialer, x.listener, ids, want, id);
  }

  lemma ExchangeMovesBatches(c: Crypto, dialer: Recs, listener: Recs) returns (give: set<string>, back: set<string>)
    requires Peers(c, dialer, listener)
    ensures var x := Exchanged(c, dialer, listener);
      && Batch(give, Lacks(dialer, listener)) && Batch(back, Lacks(listener, dialer))
      && forall id :: Moves(dialer, listener, x.dialer, x.listener, give, back, id)
  {
    hide Peers, SortedSet, Exchanged, Capped, Lacks, Moves, Batch;
    var x := Exchanged(c, dialer, listener);
    give := Sorting.Elements(Capped(SortedSet(Lacks(dialer, listener))));
    back := Sorting.Elements(Capped(SortedSet(Lacks(listener, dialer))));
    CappedIsBatch(Lacks(dialer, listener));
    CappedIsBatch(Lacks(listener, dialer));
    forall id
      ensures Moves(dialer, listener, x.dialer, x.listener, give, back, id)
    {
      MovesOne(c, dialer, listener, id);
    }
  }

  lemma PulledMoves(a: Recs, b: Recs, a': Recs, b': Recs, ids: seq<string>, want: seq<string>, id: string)
    requires forall i :: i in ids ==> i in Lacks(a, b)
    requires forall i :: i in want ==> i in Lacks(b, a)
    requires PulledAt(a, b, ids, a', id) && PulledAt(b, a', want, b', id)
    ensures Moves(a, b, a', b', Sorting.Elements(ids), Sorting.Elements(want), id)
  {
    LacksInside(a, b, id);
    LacksInside(b, a, id);
    hide Joined, Lacks;
  }

  // ---- What it leaves to be done ----

  /** A match that has travelled need only travel back, and that only if it was to. */
  lemma GainedIsDone(c: Crypto, mine: Recs, source: Recs, mine': Recs, source': Recs, id: string)
    requires StoreOk(c, mine') && StoreOk(c, source')
    requires Gains(mine, mine', source, source', id)
    ensures id !in Lacks(mine', source') && id !in Returning(mine', source') && id !in Returning(source', mine')
    ensures id in Lacks(source', mine') <==> id in Returning(mine, source)
  {
    hide StoreOk, Signers, Joined;
    GainCollects(mine, source, mine', source', id);
    LacksByCount(c, mine', source', id, SignersAt(mine, id) + SignersAt(source, id));
    GainedSigners(mine, mine', source, source', id);
    hide Lacks;
  }

  lemma GainedSigners(mine: Recs, mine': Recs, source: Recs, source': Recs, id: string)
    requires Gains(mine, mine', source, source', id)
    ensures id in mine' && id in source && id in source' && source'[id] == source[id] && id in Lacks(mine, source)
    ensures SignersAt(mine', id) == SignersAt(mine, id) + SignersAt(source, id)
  {
    hide Signers, Lacks;
  }

  lemma UntouchedIsLeft(a: Recs, b: Recs, a': Recs, b': Recs, id: string)
    requires Untouched(a, a', id) && Untouched(b, b', id)
    ensures id in Lacks(a', b') <==> id in Lacks(a, b)
    ensures id in Returning(a', b') <==> id in Returning(a, b)
  {
    hide Signers;
  }

  /** What one side still lacks after an exchange, and what of it will have to travel back. */
  lemma LeftToDo(c: Crypto, a: Recs, b: Recs, a': Recs, b': Recs, toA: set<string>, toB: set<string>)
    requires StoreOk(c, a') && StoreOk(c, b')
    requires forall id :: Moves(a, b, a', b', toA, toB, id)
    requires Batch(toA, Lacks(a, b)) && Batch(toB, Lacks(b, a))
    ensures Lacks(a', b') == (Lacks(a, b) - toA) + (toB * Returning(b, a))
    ensures Returning(a', b') == Returning(a, b) - toA
  {
    hide StoreOk, Lacks, Returning, Moves, Batch;
    forall id
      ensures id in Lacks(a', b') <==> id in (Lacks(a, b) - toA) + (toB * Returning(b, a))
      ensures id in Returning(a', b') <==> id in Returning(a, b) - toA
    {
      OneLeftToDo(c, a, b, a', b', toA, toB, id);
    }
  }

  lemma ReturningIsLacked(a: Recs, b: Recs, id: string)
    ensures id in Returning(a, b) ==> id in Lacks(a, b)
  {
  }

  lemma OneLeftToDo(c: Crypto, a: Recs, b: Recs, a': Recs, b': Recs, toA: set<string>, toB: set<string>, id: string)
    requires StoreOk(c, a') && StoreOk(c, b') && Moves(a, b, a', b', toA, toB, id)
    requires Batch(toA, Lacks(a, b)) && Batch(toB, Lacks(b, a))
    ensures id in Lacks(a', b') <==> (id in Lacks(a, b) && id !in toA) || (id in toB && id in Returning(b, a))
    ensures id in Returning(a', b') <==> id in Returning(a, b) && id !in toA
  {
    hide StoreOk, Lacks, Returning, Gains, Untouched;
    LacksInside(a, b, id);
    LacksInside(b, a, id);
    ReturningIsLacked(a, b, id);
    ReturningIsLacked(b, a, id);
    if id in toA {
      GainedIsDone(c, a, b, a', b', id);
    } else if id in toB {
      GainedIsDone(c, b, a, b', a', id);
    } else {
      UntouchedIsLeft(a, b, a', b', id);
    }
  }

  // ---- Counting ----

  /** The numbers that matter: what is lacking towards each side, and what of it returns. */
  datatype Work = Work(toA: nat, returnA: nat, toB: nat, returnB: nat)

  ghost function WorkOf(a: Recs, b: Recs): Work {
    Work(|Lacks(a, b)|, |Returning(a, b)|, |Lacks(b, a)|, |Returning(b, a)|)
  }

  /** One exchange: a batch each way, of which some return. */
  ghost predicate Worked(w: Work, w': Work, backA: nat, backB: nat) {
    var a, b := Min(MAX_RECORDS, w.toA), Min(MAX_RECORDS, w.toB);
    && w.returnA <= w.toA && w.returnB <= w.toB
    && backA <= a && backA <= w.returnA && a - backA <= w.toA - w.returnA
    && backB <= b && backB <= w.returnB && b - backB <= w.toB - w.returnB
    && w' == Work(w.toA - a + backB, w.returnA - backA, w.toB - b + backA, w.returnB - backB)
  }

  lemma SetCounts(lacked: set<string>, batch: set<string>, returning: set<string>)
    requires batch <= lacked && returning <= lacked
    ensures |lacked - batch| == |lacked| - |batch| && |returning - batch| == |returning| - |batch * returning|
    ensures |batch * returning| <= |batch| && |batch * returning| <= |returning|
    ensures |batch| - |batch * returning| <= |lacked| - |returning|
  {
    assert lacked == (lacked - batch) + batch;
    assert returning == (returning - batch) + batch * returning;
    assert batch == (batch - returning) + batch * returning;
    assert lacked == (lacked - returning) + returning;
    Sorting.SubsetSize(batch - returning, lacked - returning);
  }

  lemma NewlyLacked(lacked: set<string>, batch: set<string>, other: set<string>, back: set<string>)
    requires batch <= lacked && forall id :: id in lacked ==> id !in other
    ensures |(lacked - batch) + (back * other)| == |lacked - batch| + |back * other|
  {
  }

  lemma LackedOnce(a: Recs, b: Recs)
    ensures forall id :: id in Lacks(a, b) ==> id !in Returning(b, a)
    ensures Returning(a, b) <= Lacks(a, b)
  {
  }

  /** What is left one way, in numbers. */
  lemma LeftOneWay(c: Crypto, a: Recs, b: Recs, a': Recs, b': Recs, toA: set<string>, toB: set<string>)
    requires StoreOk(c, a') && StoreOk(c, b')
    requires forall id :: Moves(a, b, a', b', toA, toB, id)
    requires Batch(toA, Lacks(a, b)) && Batch(toB, Lacks(b, a))
    ensures var back, more := |toA * Returning(a, b)|, |toB * Returning(b, a)|;
      && |Returning(a, b)| <= |Lacks(a, b)| && back <= |toA| && back <= |Returning(a, b)|
      && |toA| - back <= |Lacks(a, b)| - |Returning(a, b)|
      && |Lacks(a', b')| == |Lacks(a, b)| - |toA| + more
      && |Returning(a', b')| == |Returning(a, b)| - back
  {
    hide StoreOk, Lacks, Returning, Moves;
    LeftToDo(c, a, b, a', b', toA, toB);
    LackedOnce(a, b);
    SetCounts(Lacks(a, b), toA, Returning(a, b));
    Sorting.SubsetSize(Returning(a, b), Lacks(a, b));
    NewlyLacked(Lacks(a, b), toA, Returning(b, a), toB);
  }

  lemma ExchangeWorks(c: Crypto, a: Recs, b: Recs, a': Recs, b': Recs, toA: set<string>, toB: set<string>)
    requires StoreOk(c, a') && StoreOk(c, b')
    requires forall id :: Moves(a, b, a', b', toA, toB, id)
    requires Batch(toA, Lacks(a, b)) && Batch(toB, Lacks(b, a))
    ensures Worked(WorkOf(a, b), WorkOf(a', b'), |toA * Returning(a, b)|, |toB * Returning(b, a)|)
  {
    hide StoreOk, Lacks, Returning, Moves;
    LeftOneWay(c, a, b, a', b', toA, toB);
    MovesEitherWay(a, b, a', b', toA, toB);
    LeftOneWay(c, b, a, b', a', toB, toA);
  }

  lemma MovesEitherWay(a: Recs, b: Recs, a': Recs, b': Recs, toA: set<string>, toB: set<string>)
    requires forall id :: Moves(a, b, a', b', toA, toB, id)
    requires Batch(toA, Lacks(a, b)) && Batch(toB, Lacks(b, a))
    ensures forall id :: Moves(b, a, b', a', toB, toA, id)
  {
    hide Gains, Untouched, Lacks;
    forall id
      ensures Moves(b, a, b', a', toB, toA, id)
    {
      assert Moves(a, b, a', b', toA, toB, id);
      LacksInside(a, b, id);
    }
  }

  lemma RoundWorks(c: Crypto, a: Recs, b: Recs, aDials: bool) returns (backA: nat, backB: nat)
    requires Peers(c, a, b)
    ensures var (a', b') := Round(c, a, b, aDials);
      Peers(c, a', b') && Worked(WorkOf(a, b), WorkOf(a', b'), backA, backB)
  {
    hide StoreOk, Agreeing, Exchanged, Lacks, Returning, Moves, Batch, WorkOf, Worked, Deficit, Settled;
    RoundProgress(c, a, b, aDials);
    if aDials {
      var x := Exchanged(c, a, b);
      var give, back := ExchangeMovesBatches(c, a, b);
      ExchangeWorks(c, a, b, x.dialer, x.listener, give, back);
      backA, backB := |give * Returning(a, b)|, |back * Returning(b, a)|;
    } else {
      AgreeingSymmetric(a, b);
      var x := Exchanged(c, b, a);
      var give, back := ExchangeMovesBatches(c, b, a);
      MovesEitherWay(b, a, x.dialer, x.listener, give, back);
      ExchangeWorks(c, a, b, x.listener, x.dialer, back, give);
      backA, backB := |back * Returning(a, b)|, |give * Returning(b, a)|;
    }
  }

  // ---- Rounds ----

  /** This much work is done in so many exchanges. */
  ghost predicate Within(w: Work, rounds: nat) {
    var rest := MAX_RECORDS * (rounds - 1);
    if rounds == 0 then w.toA == 0 && w.toB == 0
    else
      || (w.toA + w.returnB <= rest && w.toB + w.returnA <= rest)
      || (w.returnB == 0 && w.toB <= MAX_RECORDS && w.toA <= rest)
      || (w.returnA == 0 && w.toA <= MAX_RECORDS && w.toB <= rest)
      || (w.returnA == 0 && w.returnB == 0 && w.toA <= MAX_RECORDS && w.toB <= MAX_RECORDS)
  }

  lemma WorkShrinks(w: Work, w': Work, backA: nat, backB: nat, rounds: nat)
    requires Worked(w, w', backA, backB) && rounds > 0 && Within(w, rounds)
    ensures Within(w', rounds - 1)
  {
  }

  lemma NoWorkIsSettled(a: Recs, b: Recs)
    ensures Settled(a, b) <==> WorkOf(a, b).toA == 0 && WorkOf(a, b).toB == 0
  {
    hide Lacks;
    SomeInside(Lacks(a, b));
    SomeInside(Lacks(b, a));
  }

  lemma {:induction false} WorkIsDone(c: Crypto, a: Recs, b: Recs, aDials: seq<bool>)
    requires Peers(c, a, b) && Within(WorkOf(a, b), |aDials|)
    ensures var (a', b') := Rounds(c, a, b, aDials); Settled(a', b')
    decreases |aDials|
  {
    hide Peers, Settled, Round, WorkOf, Worked;
    if |aDials| == 0 {
      NoWorkIsSettled(a, b);
    } else {
      var backA, backB := RoundWorks(c, a, b, aDials[0]);
      var (a', b') := Round(c, a, b, aDials[0]);
      WorkShrinks(WorkOf(a, b), WorkOf(a', b'), backA, backB, |aDials|);
      WorkIsDone(c, a', b', aDials[1..]);
    }
  }

  /** As many exchanges settle and reconcile two peers as there are batches in what has to travel
      one way, the greater of the two, and one more. */
  lemma BatchesSuffice(c: Crypto, a: Recs, b: Recs, id: string, aDials: seq<bool>)
    requires Peers(c, a, b) && |aDials| > 0
    requires Load(a, b) <= 48 * (|aDials| - 1) && Load(b, a) <= 48 * (|aDials| - 1)
    ensures var (a', b') := Rounds(c, a, b, aDials);
      && Settled(a', b')
      && if Lacking(a, b, id) then
           && id in a' && id in b'
           && Signers(a'[id]) == Signers(b'[id]) == SignersAt(a, id) + SignersAt(b, id)
         else Untouched(a, a', id) && Untouched(b, b', id)
  {
    hide Peers, Settled, Rounds, Returning, Lacks, Lacking, Signers, Untouched;
    WorkIsDone(c, a, b, aDials);
    SettledIsReconciled(c, a, b, id, aDials);
  }

  lemma LoadFalls(w: Work, w': Work, backA: nat, backB: nat)
    requires Worked(w, w', backA, backB)
    ensures w'.toA + w'.returnB >= w.toA + w.returnB - MAX_RECORDS
    ensures w'.toB + w'.returnA >= w.toB + w.returnA - MAX_RECORDS
  {
  }

  /** And without that one more it cannot be done. */
  lemma {:induction false} BatchesNeeded(c: Crypto, a: Recs, b: Recs, aDials: seq<bool>)
    requires Peers(c, a, b)
    ensures var (a', b') := Rounds(c, a, b, aDials);
      && Load(a, b) <= Load(a', b') + 48 * |aDials|
      && Load(b, a) <= Load(b', a') + 48 * |aDials|
      && (Settled(a', b') ==> Load(a', b') == Load(b', a') == 0)
    decreases |aDials|
  {
    hide Peers, Settled, Round, Worked, Lacks, Returning;
    if |aDials| == 0 {
      NothingToCarry(a, b);
    } else {
      var backA, backB := RoundWorks(c, a, b, aDials[0]);
      var (a', b') := Round(c, a, b, aDials[0]);
      LoadFalls(WorkOf(a, b), WorkOf(a', b'), backA, backB);
      BatchesNeeded(c, a', b', aDials[1..]);
    }
  }

  lemma NothingToCarry(a: Recs, b: Recs)
    ensures Settled(a, b) ==> Load(a, b) == Load(b, a) == 0
  {
    LackedOnce(a, b);
    LackedOnce(b, a);
    hide Lacks, Returning;
    Sorting.SubsetSize(Returning(a, b), Lacks(a, b));
    Sorting.SubsetSize(Returning(b, a), Lacks(b, a));
  }
}
