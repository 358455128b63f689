/** The escape sequences of terminals, and the scanner that skips them (internal/logring/logring.go). */
module Escapes {
  import opened Utf8

  const ESC: Byte := 0x1B
  const BEL: Byte := 0x07

  // ---- The sequences ----

  predicate IsStringOpener(b: Byte) {
    b == ']' as int || b == 'P' as int || b == '^' as int || b == '_' as int
  }

  ghost predicate Within(s: seq<Byte>, lo: int, hi: int) {
    forall k :: 0 <= k < |s| ==> lo <= s[k] <= hi
  }

  /** A complete sequence (ECMA-48, sections 5.4 and 5.6): a control sequence with parameters and
      intermediates, a control string ended by BEL or ESC \, or a short sequence with
      intermediates. The strings are those the source knows: of section 5.6 it leaves out the one
      opened by ESC X, which it takes for a short sequence. */
  datatype Escape =
    | ControlSequence(params: seq<Byte>, inter: seq<Byte>, final: Byte)
    | ControlString(opener: Byte, body: seq<Byte>, bell: bool)
    | Short(inter: seq<Byte>, final: Byte)
  {
    ghost predicate Proper() {
      match this
      case ControlSequence(params, inter, final) =>
        Within(params, 0x30, 0x3F) && Within(inter, 0x20, 0x2F) && 0x40 <= final <= 0x7E
      case ControlString(opener, body, bell) => opener in {0x50, 0x5D, 0x5E, 0x5F} && 0x07 !in body && 0x1B !in body
      case Short(inter, final) =>
        && Within(inter, 0x20, 0x2F) && 0x30 <= final <= 0x7E
        && (inter == [] ==> final !in {0x50, 0x5B, 0x5D, 0x5E, 0x5F})
    }

    function Bytes(): (s: seq<Byte>)
      ensures |s| >= 2 && s[0] == ESC
    {
      match this
      case ControlSequence(params, inter, final) => [0x1B, 0x5B] + params + inter + [final]
      case ControlString(opener, body, bell) => [0x1B, opener] + body + (if bell then [0x07] else [0x1B, 0x5C])
      case Short(inter, final) => [0x1B] + inter + [final]
    }
  }

  ghost predicate Heads(e: Escape, s: seq<Byte>) {
    |e.Bytes()| <= |s| && s[..|e.Bytes()|] == e.Bytes()
  }

  // ---- The scanner ----

  /** The first position from k on whose byte is not in a range. */
  function PastRange(s: seq<Byte>, k: nat, lo: int, hi: int): (j: nat)
    requires k <= |s|
    ensures k <= j <= |s|
    decreases |s| - k
  {
    if k < |s| && lo <= s[k] <= hi then PastRange(s, k + 1, lo, hi) else k
  }

  /** The end of a control string: past BEL or ESC \, or at an ESC that is not its end. */
  function StringEnd(s: seq<Byte>, k: nat): (j: nat)
    requires k <= |s|
    ensures k <= j <= |s|
    decreases |s| - k
  {
    if k == |s| then k
    else if s[k] == BEL then k + 1
    else if s[k] == ESC then if k + 1 < |s| && s[k + 1] == '\\' as int then k + 2 else k
    else StringEnd(s, k + 1)
  }

  /** How long the escape sequence at the head of s is: a control sequence with its parameters, a
      control string, or a short one with its intermediates. */
  function EscapeLength(s: seq<Byte>): (n: nat)
    requires |s| > 0 && s[0] == ESC
    ensures 1 <= n <= |s|
  {
    if |s| == 1 then 1
    else if s[1] == '[' as int then Final(s, PastRange(s, 2, 0x20, 0x3F))
    else if IsStringOpener(s[1]) then StringEnd(s, 2)
    else Final(s, PastRange(s, 1, 0x20, 0x2F))
  }

  function Final(s: seq<Byte>, k: nat): nat
    requires k <= |s|
  {
    if k < |s| then k + 1 else k
  }

  lemma {:induction false} PastRangeShifts(s: seq<Byte>, i: nat, k: nat, lo: int, hi: int)
    requires i + k <= |s|
    ensures PastRange(s, i + k, lo, hi) == i + PastRange(s[i..], k, lo, hi)
    decreases |s| - k
  {
    if i + k < |s| && lo <= s[i + k] <= hi {
      PastRangeShifts(s, i, k + 1, lo, hi);
    }
  }

  // ---- It skips exactly the sequence ----

  lemma {:induction false} PastRangeIs(s: seq<Byte>, k: nat, m: nat, lo: int, hi: int)
    requires k <= m < |s| && !(lo <= s[m] <= hi)
    requires forall j :: k <= j < m ==> lo <= s[j] <= hi
    ensures PastRange(s, k, lo, hi) == m
    decreases m - k
  {
    if k < m {
      PastRangeIs(s, k + 1, m, lo, hi);
    }
  }

  lemma {:induction false} StringEndIs(s: seq<Byte>, k: nat, m: nat)
    requires k <= m < |s| && forall j :: k <= j < m ==> s[j] != BEL && s[j] != ESC
    requires s[m] == BEL || (s[m] == ESC && m + 1 < |s| && s[m + 1] == '\\' as int)
    ensures StringEnd(s, k) == if s[m] == BEL then m + 1 else m + 2
    decreases m - k
  {
    if k < m {
      StringEndIs(s, k + 1, m);
    }
  }

  /** A complete sequence at the head of s is skipped, no more and no less, whatever follows it. */
  lemma EscapeIsSkipped(e: Escape, s: seq<Byte>)
    requires e.Proper() && Heads(e, s)
    ensures s[0] == ESC && EscapeLength(s) == |e.Bytes()|
  {
    var q := e.Bytes();
    assert forall k :: 0 <= k < |q| ==> s[k] == q[k];
    match e
    case ControlSequence(params, inter, final) =>
      PastRangeIs(s, 2, |q| - 1, 0x20, 0x3F);
    case ControlString(opener, body, bell) =>
      assert forall j :: 2 <= j < 2 + |body| ==> s[j] == body[j - 2] && body[j - 2] in body;
      StringEndIs(s, 2, 2 + |body|);
    case Short(inter, final) =>
      PastRangeIs(s, 1, |q| - 1, 0x20, 0x2F);
  }

  lemma {:induction false} StringCutAt(s: seq<Byte>, k: nat, m: nat)
    requires k <= m <= |s| && forall j :: k <= j < m ==> s[j] != BEL && s[j] != ESC
    requires m < |s| ==> s[m] == ESC && (m + 1 == |s| || s[m + 1] != '\\' as int)
    ensures StringEnd(s, k) == m
    decreases m - k
  {
    if k < m {
      StringCutAt(s, k + 1, m);
    }
  }

  /** A control string cut short is skipped up to the next escape character, which is looked at
      anew, or to the end of the line. */
  lemma CutStringIsSkipped(opener: Byte, body: seq<Byte>, rest: seq<Byte>)
    requires IsStringOpener(opener) && BEL !in body && ESC !in body
    requires |rest| > 0 ==> rest[0] == ESC && (|rest| == 1 || rest[1] != '\\' as int)
    ensures EscapeLength([ESC, opener] + body + rest) == 2 + |body|
  {
    var s := [ESC, opener] + body + rest;
    assert forall j :: 2 <= j < 2 + |body| ==> s[j] == body[j - 2] && body[j - 2] in body;
    StringCutAt(s, 2, 2 + |body|);
  }

  /** `skipEscape`. */
  method SkipEscape(s: seq<Byte>, start: nat) returns (i: nat)
    requires start < |s| && s[start] == ESC
    ensures i == start + EscapeLength(s[start..])
    ensures forall e: Escape :: e.Proper() && Heads(e, s[start..]) ==> i == start + |e.Bytes()|
  {
    forall e: Escape | e.Proper() && Heads(e, s[start..])
      ensures EscapeLength(s[start..]) == |e.Bytes()|
    {
      EscapeIsSkipped(e, s[start..]);
    }
    ghost var t := s[start..];
    i := start + 1;
    if i >= |s| {
      return;
    }
    assert s[i] == t[1];
    if s[i] == '[' as int {
      i := i + 1;
      PastRangeShifts(s, start, 2, 0x20, 0x3F);
      i := SkipRange(s, i, 0x20, 0x3F);
      if i < |s| {
        i := i + 1;
      }
    } else if IsStringOpener(s[i]) {
      i := SkipString(s, start, i + 1);
    } else {
      PastRangeShifts(s, start, 1, 0x20, 0x2F);
      i := SkipRange(s, i, 0x20, 0x2F);
      if i < |s| {
        i := i + 1;
      }
    }
  }

  method SkipRange(s: seq<Byte>, k: nat, lo: int, hi: int) returns (i: nat)
    requires k <= |s|
    ensures i == PastRange(s, k, lo, hi)
  {
    i := k;
    while i < |s| && lo <= s[i] <= hi
      invariant k <= i <= |s| && PastRange(s, i, lo, hi) == PastRange(s, k, lo, hi)
    {
      i := i + 1;
    }
  }

  method SkipString(s: seq<Byte>, start: nat, k: nat) returns (i: nat)
    requires start <= k <= |s|
    ensures i == start + StringEnd(s[start..], k - start)
  {
    ghost var t := s[start..];
    i := k;
    while i < |s|
      invariant k <= i <= |s| && StringEnd(t, i - start) == StringEnd(t, k - start)
    {
      assert s[i] == t[i - start];
      if s[i] == BEL {
        return i + 1;
      }
      if s[i] == ESC {
        if i + 1 < |s| && s[i + 1] == '\\' as int {
          assert s[i + 1] == t[i + 1 - start];
          return i + 2;
        }
        assert i + 1 < |s| ==> s[i + 1] == t[i + 1 - start];
        return;
      }
      i := i + 1;
    }
  }
}
