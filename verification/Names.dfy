/** Names as they are shown to others (`SanitizeDisplayName` of internal/proto/match.go). */
module Names {

  const MAX_NAME := 24

  predicate Control(c: char) { c as int < 0x20 || c as int == 0x7F }

  /** What Unicode calls white space. */
  predicate Space(c: char) {
    var n := c as int;
    || 9 <= n <= 13 || n in {0x20, 0x85, 0xA0, 0x1680, 0x2028, 0x2029, 0x202F, 0x205F, 0x3000}
    || 0x2000 <= n <= 0x200A
  }

  function Printable(s: string): string {
    if |s| == 0 then "" else (if Control(s[0]) then "" else [s[0]]) + Printable(s[1..])
  }

  function TrimmedLeft(s: string): string {
    if |s| > 0 && Space(s[0]) then TrimmedLeft(s[1..]) else s
  }

  function TrimmedRight(s: string): string {
    if |s| > 0 && Space(s[|s|-1]) then TrimmedRight(s[..|s|-1]) else s
  }

  function Trimmed(s: string): string { TrimmedRight(TrimmedLeft(Printable(s))) }

  function DisplayName(s: string): string {
    var t := Trimmed(s);
    var name := if |t| > MAX_NAME then t[..MAX_NAME] else t;
    if name == "" then "anonymous" else name
  }

  /** The name of a lobby once another is asked for. */
  function Renamed(present: string, asked: string): string {
    var name := DisplayName(asked);
    if name != "" then name else present
  }

  ghost predicate AllPrintable(s: string) { forall i :: 0 <= i < |s| ==> !Control(s[i]) }

  lemma {:induction false} PrintableIs(s: string)
    ensures AllPrintable(Printable(s))
    ensures AllPrintable(s) ==> Printable(s) == s
  {
    hide Control;
    if |s| > 0 {
      PrintableIs(s[1..]);
      if AllPrintable(s) {
        assert !Control(s[0]) && AllPrintable(s[1..]) && s == [s[0]] + s[1..];
      }
    }
  }

  /** t is a part of s, without white space at either end. */
  ghost predicate Core(s: string, t: string, a: nat, b: nat) {
    && a <= b <= |s| && t == s[a..b]
    && (forall i :: 0 <= i < a ==> Space(s[i])) && (forall i :: b <= i < |s| ==> Space(s[i]))
    && (a < b ==> !Space(s[a]) && !Space(s[b - 1]))
  }

  lemma {:induction false} TrimmedLeftIs(s: string) returns (a: nat)
    ensures a <= |s| && TrimmedLeft(s) == s[a..] && forall i :: 0 <= i < a ==> Space(s[i])
    ensures a < |s| ==> !Space(s[a])
  {
    hide Space;
    a := 0;
    if |s| > 0 && Space(s[0]) {
      a := TrimmedLeftIs(s[1..]);
      forall i | 0 <= i < a + 1
        ensures Space(s[i])
      {
        assert i > 0 ==> s[i] == s[1..][i - 1];
      }
      assert s[1..][a..] == s[a + 1..];
      a := a + 1;
    }
  }

  lemma {:induction false} TrimmedRightIs(s: string) returns (b: nat)
    ensures b <= |s| && TrimmedRight(s) == s[..b] && forall i :: b <= i < |s| ==> Space(s[i])
    ensures b > 0 ==> !Space(s[b - 1])
  {
    hide Space;
    b := |s|;
    if |s| > 0 && Space(s[|s|-1]) {
      b := TrimmedRightIs(s[..|s|-1]);
    }
  }

  /** Trimming takes the white space off both ends of what is printable, and nothing else. */
  lemma TrimmedIs(s: string) returns (a: nat, b: nat)
    ensures Core(Printable(s), Trimmed(s), a, b)
  {
    hide Space, Printable;
    var p := Printable(s);
    a := TrimmedLeftIs(p);
    b := TrimmedRightIs(p[a..]);
    assert forall i :: a + b <= i < |p| ==> p[i] == p[a..][i - a];
    assert b > 0 ==> p[a..][b - 1] == p[a + b - 1];
    b := a + b;
  }

  /** A name that others see is never empty or longer than 24 characters, holds no control character,
      and does not begin with white space. */
  lemma NameIsSafe(s: string)
    ensures 0 < |DisplayName(s)| <= 24 && AllPrintable(DisplayName(s)) && !Space(DisplayName(s)[0])
  {
    PrintableIs(s);
    hide Space, Control, Trimmed, Printable;
    var a, b := TrimmedIs(s);
    NotSpace();
    assert AllPrintable(Trimmed(s)) by {
      assert forall i :: 0 <= i < |Trimmed(s)| ==> Trimmed(s)[i] == Printable(s)[a + i];
    }
    AnonymousIsPrintable();
  }

  lemma NotSpace()
    ensures !Space("anonymous"[0])
  {
  }

  lemma AnonymousIsPrintable()
    ensures AllPrintable("anonymous")
  {
  }

  /** So asking for no name does not keep the present one: the lobby is called anonymous. */
  lemma RenamedAlways(present: string, asked: string)
    ensures Renamed(present, asked) == DisplayName(asked)
    ensures Trimmed(asked) == "" ==> Renamed(present, asked) == "anonymous"
  {
    hide Trimmed;
    NameIsSafe(asked);
  }

  lemma {:induction false} NoLeadingSpace(s: string)
    requires |s| > 0 ==> !Space(s[0])
    ensures TrimmedLeft(s) == s
  {
  }

  lemma {:induction false} TrimmedRightOnly(s: string)
    ensures |s| > 0 && Space(s[|s|-1]) ==> |TrimmedRight(s)| < |s|
    ensures |s| > 0 && !Space(s[|s|-1]) ==> TrimmedRight(s) == s
  {
    if |s| > 0 && Space(s[|s|-1]) {
      var b := TrimmedRightIs(s[..|s|-1]);
    }
  }

  /** Cleaning a name again changes it exactly if it was cut, and just behind white space. */
  lemma CleanAgainIff(s: string)
    ensures DisplayName(DisplayName(s)) == DisplayName(s)
      <==> !(|Trimmed(s)| > 24 && Space(Trimmed(s)[23]))
  {
    var n := DisplayName(s);
    NameIsSafe(s);
    PrintableIs(n);
    NoLeadingSpace(n);
    TrimmedRightOnly(n);
    LastOfName(s);
    hide Space, Printable;
    assert Trimmed(n) == TrimmedRight(n);
    ShortenedIsOther(n);
  }

  /** Which happens: here the twenty-fourth character is a space, and the second cleaning takes it off. */
  lemma CleaningAgainCanShorten()
    ensures var s := seq(32, i => if i == 23 then ' ' else 'x'); DisplayName(DisplayName(s)) != DisplayName(s)
  {
    var s := seq(32, i => if i == 23 then ' ' else 'x');
    assert AllPrintable(s);
    PrintableIs(s);
    NoLeadingSpace(s);
    TrimmedRightOnly(s);
    hide Printable, TrimmedLeft, TrimmedRight, DisplayName;
    assert Trimmed(s) == s;
    CleanAgainIff(s);
  }

  /** A name in use that trims to less is called something else afterwards. */
  lemma ShortenedIsOther(n: string)
    requires 0 < |n| <= 24 && Trimmed(n) == TrimmedRight(n) && !Space(n[0])
    ensures DisplayName(n) == n <==> TrimmedRight(n) == n
  {
    var b := TrimmedRightIs(n);
    hide Space, Trimmed;
    assert b > 0;
  }

  lemma LastOfName(s: string)
    ensures var n := DisplayName(s);
      |n| > 0 && (Space(n[|n|-1]) <==> |Trimmed(s)| > 24 && Space(Trimmed(s)[23]))
  {
    NameIsSafe(s);
    hide Printable;
    var a, b := TrimmedIs(s);
    hide Trimmed;
    assert "anonymous"[8] == 's';
  }
}
