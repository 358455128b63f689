/** The ring of log lines, and the scanner that makes a line fit to be shown (internal/logring/logring.go). */
module LogRing {
  import opened Utf8
  import opened Escapes

  const MAX_LINE := 2000
  const ELLIPSIS: Rune := 0x2026
  const DEFAULT_CAPACITY := 500

  // ---- Sanitising ----

  /** The control characters of Unicode. */
  predicate Control(r: Rune) { r < 0x20 || 0x7F <= r < 0xA0 }

  /** What one rune of the input leaves in the output. */
  function Shown(r: Rune, size: nat): seq<Rune> {
    if r == 9 then [0x20, 0x20, 0x20, 0x20]
    else if (r == RUNE_ERROR && size == 1) || Control(r) then []
    else [r]
  }

  /** Everything that is kept of a line: its runes, less escape sequences, controls and stray bytes. */
  function Kept(s: seq<Byte>): seq<Rune> {
    if |s| == 0 then []
    else if s[0] == ESC then Kept(s[EscapeLength(s)..])
    else Shown(Decode(s).0, Decode(s).1) + Kept(s[Decode(s).1..])
  }

  // ---- Lines of text and escape sequences ----

  /** What a line is made of: characters and complete escape sequences. */
  datatype Piece = Character(r: Rune) | Sequence(e: Escape)
  {
    ghost predicate Proper() {
      match this
      case Character(r) => Scalar(r) && r != ESC
      case Sequence(e) => e.Proper()
    }

    function Bytes(): (s: seq<Byte>)
      ensures |s| > 0
    {
      match this
      case Character(r) => Encode(r)
      case Sequence(e) => e.Bytes()
    }

    /** What there is to see of it: a tab is four spaces, and controls are not seen. */
    function Visible(): seq<Rune> {
      match this
      case Character(r) =>
        if r == 9 then [0x20, 0x20, 0x20, 0x20] else if r < 0x20 || 0x7F <= r <= 0x9F then [] else [r]
      case Sequence(_) => []
    }
  }

  ghost predicate Proper(line: seq<Piece>) { forall p :: p in line ==> p.Proper() }

  function LineBytes(line: seq<Piece>): seq<Byte> {
    if |line| == 0 then [] else line[0].Bytes() + LineBytes(line[1..])
  }

  function VisibleIn(line: seq<Piece>): seq<Rune> {
    if |line| == 0 then [] else line[0].Visible() + VisibleIn(line[1..])
  }

  lemma KeptOfPiece(p: Piece, rest: seq<Byte>)
    requires p.Proper()
    ensures Kept(p.Bytes() + rest) == p.Visible() + Kept(rest)
  {
    var s := p.Bytes() + rest;
    assert s[|p.Bytes()|..] == rest;
    match p
    case Character(r) =>
      DecodeEncode(r, rest);
      RuneErrorIsLong(r);
      EscapeIsAByte(r);
    case Sequence(e) =>
      assert s[..|e.Bytes()|] == e.Bytes();
      EscapeIsSkipped(e, s);
      assert [] + Kept(rest) == Kept(rest);
  }

  lemma EscapeIsAByte(r: Rune)
    ensures Encode(r)[0] == ESC <==> r == ESC
  {
  }

  /** Of a line of characters and complete escape sequences exactly the characters are kept, less
      controls; and what follows the line, well-formed or not, is scanned as if it stood alone. */
  lemma {:induction false} KeptIsVisible(line: seq<Piece>, rest: seq<Byte>)
    requires Proper(line)
    ensures Kept(LineBytes(line) + rest) == VisibleIn(line) + Kept(rest)
  {
    hide Kept;
    if |line| == 0 {
      assert [] + rest == rest && [] + Kept(rest) == Kept(rest);
    } else {
      var p, more := line[0], line[1..];
      assert p in line && forall q :: q in more ==> q in line;
      KeptIsVisible(more, rest);
      KeptOfPiece(p, LineBytes(more) + rest);
      assert p.Bytes() + LineBytes(more) + rest == p.Bytes() + (LineBytes(more) + rest);
      assert p.Visible() + (VisibleIn(more) + Kept(rest)) == p.Visible() + VisibleIn(more) + Kept(rest);
    }
  }

  lemma WholeLineKept(line: seq<Piece>)
    requires Proper(line)
    ensures Kept(LineBytes(line)) == VisibleIn(line)
  {
    hide Kept;
    KeptIsVisible(line, []);
    NothingKept();
    assert LineBytes(line) + [] == LineBytes(line) && VisibleIn(line) + [] == VisibleIn(line);
  }

  /** A complete escape sequence anywhere after such a line leaves no trace. */
  lemma EscapeLeavesNoTrace(line: seq<Piece>, e: Escape, rest: seq<Byte>)
    requires Proper(line) && e.Proper()
    ensures Kept(LineBytes(line) + e.Bytes() + rest) == Kept(LineBytes(line)) + Kept(rest)
  {
    hide Kept;
    KeptIsVisible(line, e.Bytes() + rest);
    KeptOfPiece(Sequence(e), rest);
    WholeLineKept(line);
    assert LineBytes(line) + e.Bytes() + rest == LineBytes(line) + (e.Bytes() + rest);
    assert [] + Kept(rest) == Kept(rest);
  }

  /** Of a character string opened by ESC X only these two bytes go, and its text stays. */
  lemma StartOfStringStays(rest: seq<Byte>)
    ensures Kept([ESC, 'X' as int] + rest) == Kept(rest)
  {
    hide Kept;
    var e := Short([], 'X' as int);
    KeptOfPiece(Sequence(e), rest);
    assert e.Bytes() == [ESC, 'X' as int] && [] + Kept(rest) == Kept(rest);
  }

  lemma NothingKept()
    ensures Kept([]) == []
  {
  }

  predicate Blank(r: Rune) { r == 0x20 || r == 9 || r == 13 || r == 10 }

  function TrimmedRight(rs: seq<Rune>): (t: seq<Rune>)
    ensures |t| <= |rs| && t == rs[..|t|]
  {
    if |rs| > 0 && Blank(rs[|rs|-1]) then TrimmedRight(rs[..|rs|-1]) else rs
  }

  function Capped(rs: seq<Rune>): seq<Rune> {
    if |rs| > MAX_LINE then rs[..MAX_LINE] + [ELLIPSIS] else rs
  }

  function Sanitized(s: seq<Byte>): seq<Rune> {
    Capped(TrimmedRight(Kept(s)))
  }

  /** `Sanitize`, on the bytes of a line. */
  method Sanitize(s: seq<Byte>) returns (out: seq<Byte>)
    ensures out == Text(Sanitized(s))
    ensures forall line :: Proper(line) && s == LineBytes(line) ==> out == Text(Capped(TrimmedRight(VisibleIn(line))))
  {
    hide Kept, Text, TrimmedRight, Runes, Proper, LineBytes, VisibleIn;
    forall line | Proper(line) && s == LineBytes(line)
      ensures Kept(s) == VisibleIn(line)
    {
      WholeLineKept(line);
    }
    ghost var kept: seq<Rune>;
    out, kept := KeepPrintable(s);
    KeptIsScalar(s);
    out := TrimRight(out, kept);
    TrimmedIsScalar(kept);
    RunesOfText(TrimmedRight(kept));
    var rs := Runes(out);
    if |rs| > MAX_LINE {
      TextJoins(rs[..MAX_LINE], [ELLIPSIS]);
      OneRune(ELLIPSIS);
      out := Text(rs[..MAX_LINE]) + Encode(ELLIPSIS);
    }
  }

  /** What is kept of the first i bytes, given that a piece ends there. */
  ghost predicate KeptSoFar(s: seq<Byte>, i: nat, kept: seq<Rune>) {
    i <= |s| && kept + Kept(s[i..]) == Kept(s)
  }

  lemma EscapeSkipped(s: seq<Byte>, i: nat, kept: seq<Rune>)
    requires i < |s| && KeptSoFar(s, i, kept) && s[i] == ESC
    ensures KeptSoFar(s, i + EscapeLength(s[i..]), kept)
  {
    hide Kept, EscapeLength;
    KeptStep(s, i);
  }

  lemma RuneKept(s: seq<Byte>, i: nat, kept: seq<Rune>)
    requires i < |s| && KeptSoFar(s, i, kept) && s[i] != ESC
    ensures var d := Decode(s[i..]); KeptSoFar(s, i + d.1, kept + Shown(d.0, d.1))
  {
    hide Kept, Decode, Shown;
    KeptStep(s, i);
    var d := Decode(s[i..]);
    Rejoined(kept, Shown(d.0, d.1), Kept(s[i + d.1..]));
  }

  lemma Rejoined<T>(a: seq<T>, b: seq<T>, d: seq<T>)
    ensures a + (b + d) == a + b + d
  {
  }

  lemma KeptFromStart(s: seq<Byte>)
    ensures KeptSoFar(s, 0, []) && Text([]) == []
  {
    hide Kept;
    assert s[0..] == s && [] + Kept(s) == Kept(s);
  }

  lemma KeptToEnd(s: seq<Byte>, kept: seq<Rune>)
    requires KeptSoFar(s, |s|, kept)
    ensures kept == Kept(s)
  {
    hide Kept;
    NothingKept();
    assert s[|s|..] == [] && kept + [] == kept;
  }

  /** The scanning loop. */
  method KeepPrintable(s: seq<Byte>) returns (b: seq<Byte>, ghost kept: seq<Rune>)
    ensures kept == Kept(s) && b == Text(kept)
  {
    hide KeptSoFar, Kept, Text, EscapeLength, Decode, Shown;
    b, kept := [], [];
    var i := 0;
    KeptFromStart(s);
    while i < |s|
      invariant 0 <= i <= |s| && b == Text(kept) && KeptSoFar(s, i, kept)
    {
      if s[i] == ESC {
        EscapeSkipped(s, i, kept);
        i := SkipEscape(s, i);
      } else {
        RuneKept(s, i, kept);
        var r, size := Decode(s[i..]).0, Decode(s[i..]).1;
        i := i + size;
        b := Put(b, r, size, kept);
        kept := kept + Shown(r, size);
      }
    }
    KeptToEnd(s, kept);
  }

  lemma KeptStep(s: seq<Byte>, i: nat)
    requires i < |s|
    ensures s[i..][0] == s[i]
    ensures s[i] == ESC ==> Kept(s[i..]) == Kept(s[i + EscapeLength(s[i..])..])
    ensures s[i] != ESC ==>
      Kept(s[i..]) == Shown(Decode(s[i..]).0, Decode(s[i..]).1) + Kept(s[i + Decode(s[i..]).1..])
  {
    var t := s[i..];
    if s[i] == ESC {
      assert t[EscapeLength(t)..] == s[i + EscapeLength(t)..];
    } else {
      assert t[Decode(t).1..] == s[i + Decode(t).1..];
    }
  }

  method Put(b: seq<Byte>, r: Rune, size: nat, ghost kept: seq<Rune>) returns (out: seq<Byte>)
    requires b == Text(kept)
    ensures out == Text(kept + Shown(r, size))
  {
    TextJoins(kept, Shown(r, size));
    FourSpaces();
    OneRune(r);
    hide Encode;
    if r == 9 {
      out := b + [0x20, 0x20, 0x20, 0x20];
    } else if r == RUNE_ERROR && size == 1 {
      out := b;
    } else if Control(r) {
      out := b;
    } else {
      out := b + Encode(r);
    }
  }

  lemma FourSpaces()
    ensures Text([0x20, 0x20, 0x20, 0x20]) == [0x20, 0x20, 0x20, 0x20]
  {
    var r: Rune := 0x20;
    var four: seq<Rune> := [r, r, r, r];
    var two: seq<Rune> := [r, r];
    assert four == two + two && two == [r] + [r];
    TextJoins(two, two);
    TextJoins([r], [r]);
    OneRune(r);
  }

  lemma OneRune(r: Rune)
    ensures Text([r]) == Encode(r)
  {
    assert [r][1..] == [];
  }

  /** Trimming the bytes trims the runes: a blank is a byte of its own. */
  method TrimRight(b: seq<Byte>, ghost rs: seq<Rune>) returns (t: seq<Byte>)
    requires b == Text(rs) && forall r :: r in rs ==> Scalar(r)
    ensures t == Text(TrimmedRight(rs))
  {
    t := b;
    ghost var left := rs;
    while |t| > 0 && (t[|t|-1] == 0x20 || t[|t|-1] == 9 || t[|t|-1] == 13 || t[|t|-1] == 10)
      invariant t == Text(left) && TrimmedRight(left) == TrimmedRight(rs)
      invariant forall r :: r in left ==> Scalar(r)
      decreases |t|
    {
      LastByte(left);
      left := left[..|left|-1];
      t := t[..|t|-1];
    }
    if |left| > 0 {
      LastByte(left);
    }
  }

  /** The last byte of a text is below 0x80 just when its last rune is that byte. */
  lemma LastByte(rs: seq<Rune>)
    requires |Text(rs)| > 0 || |rs| > 0
    ensures |rs| > 0 && |Text(rs)| > 0
    ensures var last, r := Text(rs)[|Text(rs)|-1], rs[|rs|-1];
      if r < 0x80 then last == r && Text(rs[..|rs|-1]) == Text(rs)[..|Text(rs)|-1] else last >= 0x80
  {
    var init, r := rs[..|rs|-1], rs[|rs|-1];
    assert rs == init + [r];
    TextJoins(init, [r]);
    OneRune(r);
    var e := Encode(r);
    assert Text(rs) == Text(init) + e;
    assert Text(rs)[|Text(rs)|-1] == e[|e|-1];
  }

  lemma {:induction false} KeptIsClean(s: seq<Byte>)
    ensures forall r :: r in Kept(s) ==> Scalar(r) && !Control(r)
    decreases |s|
  {
    if |s| > 0 {
      if s[0] == ESC {
        KeptIsClean(s[EscapeLength(s)..]);
      } else {
        KeptIsClean(s[Decode(s).1..]);
      }
    }
  }

  lemma KeptIsScalar(s: seq<Byte>)
    ensures forall r :: r in Kept(s) ==> Scalar(r)
  {
    KeptIsClean(s);
  }

  lemma TrimmedIsScalar(rs: seq<Rune>)
    requires forall r :: r in rs ==> Scalar(r)
    ensures forall r :: r in TrimmedRight(rs) ==> Scalar(r)
  {
  }

  ghost predicate Clean(rs: seq<Rune>) {
    forall r :: r in rs ==> Scalar(r) && !Control(r)
  }

  /** The first n of them are what is left without the blanks at the end. */
  ghost predicate BlankFrom(rs: seq<Rune>, n: nat) {
    n <= |rs| && (n > 0 ==> !Blank(rs[n - 1])) && forall i :: n <= i < |rs| ==> Blank(rs[i])
  }

  lemma {:induction false} TrimmedIs(rs: seq<Rune>, n: nat)
    requires BlankFrom(rs, n)
    ensures TrimmedRight(rs) == rs[..n]
  {
    if |rs| > n {
      TrimmedIs(rs[..|rs|-1], n);
    }
  }

  /** What is kept of a line loses the blanks at its end and is cut, if it is longer than 2000
      characters, to the first 2000 and an ellipsis. */
  lemma SanitizedIs(s: seq<Byte>, n: nat)
    requires BlankFrom(Kept(s), n)
    ensures Sanitized(s) == if n <= 2000 then Kept(s)[..n] else Kept(s)[..2000] + [0x2026]
  {
    hide Kept;
    TrimmedIs(Kept(s), n);
  }

  /** Whatever bytes a line is made of, what is left is at most 2001 characters, none of them a
      control character. */
  lemma SanitizedIsClean(s: seq<Byte>)
    ensures Clean(Sanitized(s)) && |Sanitized(s)| <= 2001
    ensures |Sanitized(s)| > 0 ==> !Blank(Sanitized(s)[|Sanitized(s)|-1])
  {
    KeptIsClean(s);
    var t := TrimmedRight(Kept(s));
    assert forall r :: r in t ==> r in Kept(s);
    TrimmedEnds(Kept(s));
    assert forall r :: r in Capped(t) ==> r == ELLIPSIS || r in t;
  }

  lemma {:induction false} TrimmedEnds(rs: seq<Rune>)
    ensures |TrimmedRight(rs)| > 0 ==> !Blank(TrimmedRight(rs)[|TrimmedRight(rs)|-1])
  {
    if |rs| > 0 && Blank(rs[|rs|-1]) {
      TrimmedEnds(rs[..|rs|-1]);
    }
  }

  lemma {:induction false} CleanBytes(rs: seq<Rune>, i: nat)
    requires Clean(rs) && i < |Text(rs)|
    ensures 0x20 <= Text(rs)[i] && Text(rs)[i] != 0x7F
  {
    var e := Encode(rs[0]);
    assert rs[0] in rs;
    if i >= |e| {
      CleanBytes(rs[1..], i - |e|);
    }
  }

  /** No byte of a sanitised line is an escape or any other control of seven bits; in the encoding
      of a character there may be bytes from 0x80 on. */
  lemma SanitizedBytes(s: seq<Byte>, i: nat)
    requires i < |Text(Sanitized(s))|
    ensures 0x20 <= Text(Sanitized(s))[i] != 0x7F && Text(Sanitized(s))[i] != ESC
  {
    SanitizedIsClean(s);
    CleanBytes(Sanitized(s), i);
  }

  lemma {:induction false} CleanIsKept(rs: seq<Rune>)
    requires Clean(rs)
    ensures Kept(Text(rs)) == rs
  {
    if |rs| > 0 {
      var r, rest := rs[0], Text(rs[1..]);
      assert r in rs;
      DecodeEncode(r, rest);
      CleanIsKept(rs[1..]);
      assert (Encode(r) + rest)[|Encode(r)|..] == rest;
      CleanBytes(rs, 0);
      RuneErrorIsLong(r);
    }
  }

  lemma RuneErrorIsLong(r: Rune)
    ensures r == RUNE_ERROR ==> |Encode(r)| == 3
  {
  }

  /** Sanitising twice is sanitising once. */
  lemma SanitizeIsIdempotent(s: seq<Byte>)
    ensures Sanitized(Text(Sanitized(s))) == Sanitized(s)
  {
    var rs := Sanitized(s);
    SanitizedIsClean(s);
    CleanIsKept(rs);
    assert TrimmedRight(rs) == rs;
    if |rs| > MAX_LINE {
      var t := TrimmedRight(Kept(s));
      assert rs == t[..MAX_LINE] + [ELLIPSIS];
      assert rs[..MAX_LINE] == t[..MAX_LINE];
    }
  }

  // ---- The ring ----

  /** The last n of a history, or all of it. */
  function LastOf<T>(all: seq<T>, n: nat): seq<T> {
    if |all| <= n then all else all[|all| - n..]
  }

  class Ring {
    const lines: array<seq<Byte>>
    var next: nat
    var full: bool
    var total: nat
    /** Every line ever kept. */
    ghost var said: seq<seq<Byte>>

    ghost predicate Valid()
      reads this, lines
    {
      Holds(lines[..], next, full, said) && total == |said|
    }

    constructor (capacity: int)
      ensures Valid() && said == [] && fresh(lines)
      ensures lines.Length == if capacity <= 0 then 500 else capacity
    {
      var n: nat := if capacity <= 0 then DEFAULT_CAPACITY else capacity;
      lines := new seq<Byte>[n](i => []);
      next, full, total, said := 0, false, 0, [];
    }

    /** `append`: an empty line is not kept. */
    method Append(text: seq<Byte>)
      requires Valid()
      modifies this, lines
      ensures Valid()
      ensures said == if Sanitized(text) == [] then old(said) else old(said) + [Text(Sanitized(text))]
    {
      var clean := Sanitize(text);
      EmptyText(Sanitized(text));
      if clean == [] {
        return;
      }
      Store(clean);
    }

    method Store(entry: seq<Byte>)
      requires Valid()
      modifies this, lines
      ensures Valid() && said == old(said) + [entry]
    {
      hide Holds;
      ghost var at, was := next, lines[..];
      HoldsAt(was, next, full, said);
      WritingOver(was, at, entry, said, full);
      lines[next] := entry;
      assert lines[..] == was[at := entry];
      NextSlot(at, lines.Length);
      next := (next + 1) % lines.Length;
      if next == 0 {
        full := true;
      }
      total := total + 1;
      said := said + [entry];
    }

    lemma Sliced(a: array<seq<Byte>>, k: nat)
      requires k < a.Length
      ensures a[k..] == a[..][k..] && a[..k] == a[..][..k]
    {
    }

    method Snapshot() returns (out: seq<seq<Byte>>)
      requires Valid()
      ensures out == LastOf(said, lines.Length)
    {
      Sliced(lines, next);
      if !full {
        return lines[..next];
      }
      out := lines[next..];
      out := out + lines[..next];
    }

    /** `Lines`. */
    method Lines() returns (out: seq<seq<Byte>>)
      requires Valid()
      ensures out == LastOf(said, lines.Length)
    {
      out := Snapshot();
    }

    /** `Tail`. */
    method Tail(n: int) returns (out: seq<seq<Byte>>)
      requires Valid()
      ensures out == LastOf(said, if n <= 0 then 0 else if n < lines.Length then n else lines.Length)
    {
      if n <= 0 {
        return [];
      }
      var all := Snapshot();
      if |all| > n {
        all := all[|all| - n..];
      }
      return all;
    }
  }

  lemma NextSlot(at: nat, n: nat)
    requires at < n
    ensures (at + 1) % n == if at + 1 == n then 0 else at + 1
  {
  }

  /** The slots of a ring, with the next to be written, hold the last of what was said. */
  ghost predicate Holds<T>(slots: seq<T>, next: nat, full: bool, said: seq<T>) {
    && next < |slots|
    && if full then |said| >= |slots| && slots[next..] + slots[..next] == said[|said| - |slots|..]
       else |said| == next && slots[..next] == said
  }

  lemma HoldsAt<T>(slots: seq<T>, next: nat, full: bool, said: seq<T>)
    requires Holds(slots, next, full, said)
    ensures next < |slots|
  {
  }

  /** Writing over the oldest line of a full ring drops it and appends; the last free slot fills it. */
  lemma WritingOver<T>(was: seq<T>, at: nat, entry: T, said: seq<T>, full: bool)
    requires Holds(was, at, full, said)
    ensures var next := if at + 1 == |was| then 0 else at + 1;
      Holds(was[at := entry], next, full || next == 0, said + [entry])
  {
    var now, more := was[at := entry], said + [entry];
    assert now[..at + 1] == was[..at] + [entry];
    if full {
      var held := said[|said| - |was|..];
      assert more[|more| - |was|..] == held[1..] + [entry];
      assert was[at..] == [was[at]] + was[at + 1..];
      assert held[1..] == was[at + 1..] + was[..at];
      assert now[at + 1..] == was[at + 1..];
    }
  }

  lemma EmptyText(rs: seq<Rune>)
    ensures Text(rs) == [] <==> rs == []
  {
  }
}
