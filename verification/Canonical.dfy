/**
 The canonical form results are hashed in (internal/proto/match.go), and a reader for it:
 the subset of JSON the encoder emits, as in sections 2 to 7 of RFC 8259. The reader undoes
 the encoder on every value, so equal canonical bytes mean equal values.
 */
module Canonical {
  import Sorting
  import opened Text

  /** What decoding JSON into generic values gives; a number keeps its literal. */
  datatype Json =
    | Null
    | Bool(b: bool)
    | Number(literal: string)
    | Str(text: string)
    | Arr(items: seq<Json>)
    | Obj(fields: map<string, Json>)

  // ---- Strings ----

  function HexDigit(n: int): char
    requires 0 <= n < 16
  {
    "0123456789abcdef"[n]
  }

  function HexValue(c: char): int {
    if '0' <= c <= '9' then c as int - '0' as int
    else if 'a' <= c <= 'f' then c as int - 'a' as int + 10
    else -1
  }

  /** Control characters, and those the encoder hides from HTML and JavaScript. */
  predicate NeedsHex(c: char) {
    c as int < 0x20 || c == '<' || c == '>' || c == '&' || c as int == 0x2028 || c as int == 0x2029
  }

  function Escape(c: char): (e: string)
    ensures |e| > 0 && e[0] != '"'
  {
    if c == '"' then "\\\""
    else if c == '\\' then "\\\\"
    else if c == '\n' then "\\n"
    else if c == '\r' then "\\r"
    else if c == '\t' then "\\t"
    else if c as int == 8 then "\\b"
    else if c as int == 12 then "\\f"
    else if NeedsHex(c) then
      var n := c as int;
      ['\\', 'u', HexDigit(n / 4096 % 16), HexDigit(n / 256 % 16), HexDigit(n / 16 % 16), HexDigit(n % 16)]
    else [c]
  }

  function EscapeAll(s: string): string {
    if |s| == 0 then "" else Escape(s[0]) + EscapeAll(s[1..])
  }

  function Quote(s: string): string {
    "\"" + EscapeAll(s) + "\""
  }

  datatype Read<T> = Fail | Got(value: T, rest: string)

  /** The character one escape stands for; s starts just past the backslash. */
  function ReadEscape(s: string): (r: Read<char>)
    ensures r.Got? ==> |r.rest| < |s|
  {
    if |s| == 0 then Fail
    else match s[0]
    case '"' => Got('"', s[1..])
    case '\\' => Got('\\', s[1..])
    case 'n' => Got('\n', s[1..])
    case 'r' => Got('\r', s[1..])
    case 't' => Got('\t', s[1..])
    case 'b' => Got(8 as char, s[1..])
    case 'f' => Got(12 as char, s[1..])
    case 'u' =>
      if |s| < 5 || exists i :: 1 <= i < 5 && HexValue(s[i]) < 0 then Fail
      else
        var n := ((HexValue(s[1]) * 16 + HexValue(s[2])) * 16 + HexValue(s[3])) * 16 + HexValue(s[4]);
        if n < 0 || 0xD800 <= n < 0xE000 || n > 0xFFFF then Fail else Got(n as char, s[5..])
    case _ => Fail
  }

  /** Reads up to and past the closing quote. */
  function ReadText(s: string): (r: Read<string>)
    ensures r.Got? ==> |r.rest| < |s|
    decreases |s|
  {
    if |s| == 0 then Fail
    else if s[0] == '"' then Got("", s[1..])
    else
      var c := if s[0] == '\\' then ReadEscape(s[1..]) else Got(s[0], s[1..]);
      if c.Fail? then Fail
      else
        var more := ReadText(c.rest);
        if more.Fail? then Fail else Got([c.value] + more.value, more.rest)
  }

  lemma HexRoundTrip(n: int)
    requires 0 <= n < 16
    ensures HexValue(HexDigit(n)) == n
  {
  }

  lemma FourDigits(n: int)
    requires 0 <= n < 65536
    ensures ((n / 4096 % 16 * 16 + n / 256 % 16) * 16 + n / 16 % 16) * 16 + n % 16 == n
  {
  }

  lemma HexEscapeRoundTrip(n: int, s: string, rest: string)
    requires 0 <= n < 0xD800 && |s| == 5 && s[0] == 'u'
    requires s[1] == HexDigit(n / 4096 % 16) && s[2] == HexDigit(n / 256 % 16)
    requires s[3] == HexDigit(n / 16 % 16) && s[4] == HexDigit(n % 16)
    ensures ReadEscape(s + rest) == Got(n as char, rest)
  {
    HexRoundTrip(n / 4096 % 16);
    HexRoundTrip(n / 256 % 16);
    HexRoundTrip(n / 16 % 16);
    HexRoundTrip(n % 16);
    FourDigits(n);
    hide HexDigit, HexValue;
    assert (s + rest)[5..] == rest;
  }

  lemma EscapeRoundTrip(c: char, rest: string)
    ensures var e := Escape(c);
      if e[0] == '\\' then ReadEscape(e[1..] + rest) == Got(c, rest) else e == [c]
  {
    var e := Escape(c);
    if |e| == 6 {
      HexEscapeRoundTrip(c as int, e[1..], rest);
    } else if e[0] == '\\' {
      assert (e[1..] + rest)[1..] == rest;
    }
  }

  lemma {:induction false} TextRoundTrip(s: string, rest: string)
    ensures ReadText(EscapeAll(s) + "\"" + rest) == Got(s, rest)
  {
    hide Escape, ReadEscape;
    if |s| == 0 {
      assert EscapeAll(s) + "\"" + rest == "\"" + rest;
    } else {
      var e, tail := Escape(s[0]), EscapeAll(s[1..]) + "\"" + rest;
      var all := EscapeAll(s) + "\"" + rest;
      assert all == e + tail;
      EscapeRoundTrip(s[0], tail);
      TextRoundTrip(s[1..], rest);
      assert all[0] == e[0] && all[1..] == e[1..] + tail;
      assert s == [s[0]] + s[1..];
      if e[0] != '\\' {
        assert e[1..] + tail == tail;
      }
    }
  }

  // ---- The encoder ----

  /** What `writeCanonical` emits: no space, every object's keys sorted. */
  ghost function Encode(v: Json): string
    decreases v, 1
  {
    match v
    case Null => "null"
    case Bool(b) => if b then "true" else "false"
    case Number(literal) => literal
    case Str(text) => Quote(text)
    case Arr(items) => "[" + EncodeItems(items) + "]"
    case Obj(fields) =>
      SortedSetAscending(fields.Keys);
      "{" + EncodeFields(v, SortedSet(fields.Keys)) + "}"
  }

  ghost function EncodeItems(items: seq<Json>): string
    decreases items, 0
  {
    if |items| == 0 then ""
    else Encode(items[0]) + (if |items| == 1 then "" else "," + EncodeItems(items[1..]))
  }

  ghost function EncodeFields(v: Json, keys: seq<string>): string
    requires v.Obj? && forall k :: k in keys ==> k in v.fields
    decreases v, 0, |keys|
  {
    if |keys| == 0 then ""
    else
      Quote(keys[0]) + ":" + Encode(v.fields[keys[0]])
      + (if |keys| == 1 then "" else "," + EncodeFields(v, keys[1..]))
  }

  // ---- The reader ----

  predicate NumberChar(c: char) {
    '0' <= c <= '9' || c == '-' || c == '+' || c == '.' || c == 'e' || c == 'E'
  }

  function NumberLength(s: string): (n: nat)
    ensures n <= |s|
  {
    if |s| == 0 || !NumberChar(s[0]) then 0 else 1 + NumberLength(s[1..])
  }

  predicate StartsWith(s: string, word: string) {
    |word| <= |s| && s[..|word|] == word
  }

  function ReadValue(s: string): (r: Read<Json>)
    ensures r.Got? ==> |r.rest| < |s|
    decreases |s|, 1
  {
    if |s| == 0 then Fail
    else if s[0] == '"' then
      var t := ReadText(s[1..]);
      if t.Fail? then Fail else Got(Str(t.value), t.rest)
    else if s[0] == '[' then
      if |s| > 1 && s[1] == ']' then Got(Arr([]), s[2..])
      else
        var items := ReadItems(s[1..]);
        if items.Fail? then Fail else Got(Arr(items.value), items.rest)
    else if s[0] == '{' then
      if |s| > 1 && s[1] == '}' then Got(Obj(map[]), s[2..])
      else
        var fields := ReadFields(s[1..]);
        if fields.Fail? then Fail else Got(Obj(fields.value), fields.rest)
    else if NumberLength(s) > 0 then Got(Number(s[..NumberLength(s)]), s[NumberLength(s)..])
    else if StartsWith(s, "null") then Got(Null, s[4..])
    else if StartsWith(s, "true") then Got(Bool(true), s[4..])
    else if StartsWith(s, "false") then Got(Bool(false), s[5..])
    else Fail
  }

  /** One or more values, separated by commas, and the closing bracket. */
  function ReadItems(s: string): (r: Read<seq<Json>>)
    ensures r.Got? ==> |r.rest| < |s|
    decreases |s|, 2
  {
    var first := ReadValue(s);
    if first.Fail? || |first.rest| == 0 then Fail
    else if first.rest[0] == ']' then Got([first.value], first.rest[1..])
    else if first.rest[0] != ',' then Fail
    else
      var more := ReadItems(first.rest[1..]);
      if more.Fail? then Fail else Got([first.value] + more.value, more.rest)
  }

  /** One or more members, separated by commas, and the closing brace. */
  function ReadFields(s: string): (r: Read<map<string, Json>>)
    ensures r.Got? ==> |r.rest| < |s|
    decreases |s|, 2
  {
    if |s| == 0 || s[0] != '"' then Fail
    else
      var key := ReadText(s[1..]);
      if key.Fail? || |key.rest| == 0 || key.rest[0] != ':' then Fail
      else
        var value := ReadValue(key.rest[1..]);
        if value.Fail? || |value.rest| == 0 then Fail
        else if value.rest[0] == '}' then Got(map[key.value := value.value], value.rest[1..])
        else if value.rest[0] != ',' then Fail
        else
          var more := ReadFields(value.rest[1..]);
          if more.Fail? then Fail else Got(more.value[key.value := value.value], more.rest)
  }

  // ---- The round trip ----

  /** Number literals are as a JSON decoder leaves them: not empty, no stray character. */
  ghost predicate WellFormed(v: Json) {
    match v
    case Number(literal) => |literal| > 0 && forall i :: 0 <= i < |literal| ==> NumberChar(literal[i])
    case Arr(items) => forall i :: 0 <= i < |items| ==> WellFormed(items[i])
    case Obj(fields) => forall k :: k in fields ==> WellFormed(fields[k])
    case _ => true
  }

  /** What may follow a value without being taken for part of it. */
  predicate Terminated(rest: string) {
    |rest| == 0 || !NumberChar(rest[0])
  }

  lemma {:induction false} NumberEnds(literal: string, rest: string)
    requires Terminated(rest) && forall i :: 0 <= i < |literal| ==> NumberChar(literal[i])
    ensures NumberLength(literal + rest) == |literal|
  {
    if |literal| == 0 {
      assert literal + rest == rest;
    } else {
      assert (literal + rest)[1..] == literal[1..] + rest;
      NumberEnds(literal[1..], rest);
    }
  }

  /** An encoded value is not empty and does not begin like a closing bracket. */
  lemma EncodeBegins(v: Json)
    requires WellFormed(v)
    ensures |Encode(v)| > 0 && Encode(v)[0] != ']' && Encode(v)[0] != '}'
  {
  }

  lemma NumberRoundTrip(literal: string, rest: string)
    requires WellFormed(Number(literal)) && Terminated(rest)
    ensures ReadValue(literal + rest) == Got(Number(literal), rest)
  {
    NumberEnds(literal, rest);
    assert (literal + rest)[..|literal|] == literal && (literal + rest)[|literal|..] == rest;
  }

  lemma WordRoundTrip(word: string, v: Json, rest: string)
    requires
      || (word == "null" && v == Null)
      || (word == "true" && v == Bool(true))
      || (word == "false" && v == Bool(false))
    ensures ReadValue(word + rest) == Got(v, rest)
  {
    var s := word + rest;
    assert s[..|word|] == word && s[|word|..] == rest;
    assert s[0] == word[0];
    assert NumberLength(s) == 0;
    if word != "null" { assert s[..4][0] == s[0]; }
    if word == "false" { assert s[..4][0] == s[0]; }
  }

  lemma StringRoundTrip(text: string, rest: string)
    ensures ReadValue(Quote(text) + rest) == Got(Str(text), rest)
  {
    hide ReadText, EscapeAll;
    TextRoundTrip(text, rest);
    assert (Quote(text) + rest)[1..] == EscapeAll(text) + "\"" + rest;
  }

  lemma LastItem(s: string, v: Json, rest: string)
    requires ReadValue(s) == Got(v, "]" + rest)
    ensures ReadItems(s) == Got([v], rest)
  {
    hide ReadValue;
    assert ("]" + rest)[1..] == rest;
  }

  lemma AnotherItem(s: string, v: Json, more: string, items: seq<Json>, rest: string)
    requires ReadValue(s) == Got(v, "," + more) && ReadItems(more) == Got(items, rest)
    ensures ReadItems(s) == Got([v] + items, rest)
  {
    hide ReadValue;
    assert ("," + more)[1..] == more;
  }

  lemma KeyAndColon(k: string, value: string)
    ensures var s := Quote(k) + ":" + value;
      |s| > 0 && s[0] == '"' && ReadText(s[1..]) == Got(k, ":" + value)
  {
    hide ReadText, EscapeAll;
    TextRoundTrip(k, ":" + value);
    assert (Quote(k) + ":" + value)[1..] == EscapeAll(k) + "\"" + (":" + value);
  }

  lemma LastField(k: string, value: string, v: Json, rest: string)
    requires ReadValue(value) == Got(v, "}" + rest)
    ensures ReadFields(Quote(k) + ":" + value) == Got(map[k := v], rest)
  {
    KeyAndColon(k, value);
    hide ReadValue, Quote, ReadText;
    assert (":" + value)[1..] == value && ("}" + rest)[1..] == rest;
  }

  lemma AnotherField(k: string, value: string, v: Json, more: string, fields: map<string, Json>, rest: string)
    requires ReadValue(value) == Got(v, "," + more) && ReadFields(more) == Got(fields, rest)
    ensures ReadFields(Quote(k) + ":" + value) == Got(fields[k := v], rest)
  {
    KeyAndColon(k, value);
    hide ReadValue, Quote, ReadText;
    assert (":" + value)[1..] == value && ("," + more)[1..] == more;
  }

  lemma Brackets(s: string, items: seq<Json>, rest: string)
    requires |s| > 0 && s[0] != ']' && ReadItems(s) == Got(items, rest)
    ensures ReadValue("[" + s) == Got(Arr(items), rest)
  {
    hide ReadItems;
    assert ("[" + s)[1..] == s;
  }

  lemma Braces(s: string, fields: map<string, Json>, rest: string)
    requires |s| > 0 && s[0] != '}' && ReadFields(s) == Got(fields, rest)
    ensures ReadValue("{" + s) == Got(Obj(fields), rest)
  {
    hide ReadFields;
    assert ("{" + s)[1..] == s;
  }

  lemma NothingInside(rest: string)
    ensures ReadValue("[]" + rest) == Got(Arr([]), rest)
    ensures ReadValue("{}" + rest) == Got(Obj(map[]), rest)
  {
    assert ("[]" + rest)[2..] == rest && ("{}" + rest)[2..] == rest;
  }

  /** Reading what was written gives the value back and leaves what followed it. */
  lemma {:induction false} RoundTrip(v: Json, rest: string)
    requires WellFormed(v) && Terminated(rest)
    ensures ReadValue(Encode(v) + rest) == Got(v, rest)
    decreases v, 2
  {
    hide ReadValue, Quote;
    match v
    case Null => WordRoundTrip("null", v, rest);
    case Bool(b) => WordRoundTrip(if b then "true" else "false", v, rest);
    case Number(literal) => NumberRoundTrip(literal, rest);
    case Str(text) => StringRoundTrip(text, rest);
    case Arr(items) =>
      if |items| == 0 {
        NothingInside(rest);
        assert Encode(v) == "[]";
      } else {
        ItemsRoundTrip(items, rest);
        var inner := EncodeItems(items) + "]" + rest;
        EncodeBegins(items[0]);
        Brackets(inner, items, rest);
        assert Encode(v) + rest == "[" + inner;
      }
    case Obj(fields) => ObjectRoundTrip(v, rest);
  }

  lemma {:induction false} ItemsRoundTrip(items: seq<Json>, rest: string)
    requires |items| > 0 && forall i :: 0 <= i < |items| ==> WellFormed(items[i])
    ensures ReadItems(EncodeItems(items) + "]" + rest) == Got(items, rest)
    decreases items, 0
  {
    var s := EncodeItems(items) + "]" + rest;
    if |items| == 1 {
      assert s == Encode(items[0]) + ("]" + rest);
      hide ReadValue, ReadItems, Encode, EncodeItems, WellFormed;
      RoundTrip(items[0], "]" + rest);
      LastItem(s, items[0], rest);
      assert items == [items[0]];
    } else {
      var more := EncodeItems(items[1..]) + "]" + rest;
      assert s == Encode(items[0]) + ("," + more);
      hide ReadValue, ReadItems, Encode, EncodeItems, WellFormed;
      RoundTrip(items[0], "," + more);
      ItemsRoundTrip(items[1..], rest);
      AnotherItem(s, items[0], more, items[1..], rest);
      assert items == [items[0]] + items[1..];
    }
  }

  ghost function Restricted(m: map<string, Json>, keys: seq<string>): map<string, Json> {
    map k | k in m && k in keys :: m[k]
  }

  lemma ObjectShape(v: Json, rest: string)
    requires v.Obj?
    ensures var keys := SortedSet(v.fields.Keys);
      && (forall k :: k in keys <==> k in v.fields)
      && Encode(v) + rest == "{" + (EncodeFields(v, keys) + "}" + rest)
  {
    hide SortedSet, EncodeFields;
    SortedSetAscending(v.fields.Keys);
    var fields := EncodeFields(v, SortedSet(v.fields.Keys));
    assert Encode(v) == "{" + fields + "}";
  }

  lemma FieldsShape(v: Json, keys: seq<string>, rest: string)
    requires v.Obj? && |keys| > 0 && forall k :: k in keys ==> k in v.fields
    ensures var s, field := EncodeFields(v, keys) + "}" + rest, Encode(v.fields[keys[0]]);
      && |s| > 0 && s[0] == '"'
      && (|keys| == 1 ==> s == Quote(keys[0]) + ":" + (field + ("}" + rest)))
      && (|keys| > 1 ==>
            (forall k :: k in keys[1..] ==> k in v.fields)
            && s == Quote(keys[0]) + ":" + (field + ("," + (EncodeFields(v, keys[1..]) + "}" + rest))))
  {
    hide Encode, EscapeAll;
    assert forall k :: k in keys[1..] ==> k in keys;
    var q, e := Quote(keys[0]), Encode(v.fields[keys[0]]);
    if |keys| == 1 {
      assert EncodeFields(v, keys) == q + ":" + e;
      LastRegrouped(q, e, rest);
    } else {
      assert EncodeFields(v, keys) == q + ":" + e + ("," + EncodeFields(v, keys[1..]));
      hide EncodeFields;
      MoreRegrouped(q, e, EncodeFields(v, keys[1..]), rest);
    }
  }

  lemma LastRegrouped(q: string, e: string, rest: string)
    ensures q + ":" + e + "}" + rest == q + ":" + (e + ("}" + rest))
  {
  }

  lemma MoreRegrouped(q: string, e: string, more: string, rest: string)
    ensures q + ":" + e + ("," + more) + "}" + rest == q + ":" + (e + ("," + (more + "}" + rest)))
  {
    assert e + ("," + more) + "}" + rest == e + ("," + (more + "}" + rest));
  }

  lemma {:induction false} ObjectRoundTrip(v: Json, rest: string)
    requires WellFormed(v) && v.Obj?
    ensures ReadValue(Encode(v) + rest) == Got(v, rest)
    decreases v, 1
  {
    hide ReadValue, ReadFields, Encode, EncodeFields, SortedSet, WellFormed;
    ObjectShape(v, rest);
    var keys := SortedSet(v.fields.Keys);
    if |keys| == 0 {
      NothingInside(rest);
      EmptyObject(v);
    } else {
      FieldsShape(v, keys, rest);
      FieldsRoundTrip(v, keys, rest);
      assert Restricted(v.fields, keys) == v.fields;
      Braces(EncodeFields(v, keys) + "}" + rest, v.fields, rest);
    }
  }

  lemma EmptyObject(v: Json)
    requires v.Obj? && |SortedSet(v.fields.Keys)| == 0
    ensures v == Obj(map[]) && Encode(v) == "{}"
  {
    SortedSetAscending(v.fields.Keys);
    assert v.fields == map[];
  }

  lemma FieldIsWellFormed(v: Json, k: string)
    requires WellFormed(v) && v.Obj? && k in v.fields
    ensures WellFormed(v.fields[k])
  {
  }

  lemma RestrictedStep(m: map<string, Json>, keys: seq<string>)
    requires |keys| > 0 && keys[0] in m
    ensures Restricted(m, keys) == Restricted(m, keys[1..])[keys[0] := m[keys[0]]]
    ensures |keys| == 1 ==> Restricted(m, keys) == map[keys[0] := m[keys[0]]]
  {
    assert keys == [keys[0]] + keys[1..];
  }

  lemma {:induction false} FieldsRoundTrip(v: Json, keys: seq<string>, rest: string)
    requires WellFormed(v) && v.Obj? && |keys| > 0 && forall k :: k in keys ==> k in v.fields
    ensures ReadFields(EncodeFields(v, keys) + "}" + rest) == Got(Restricted(v.fields, keys), rest)
    decreases v, 0, |keys|
  {
    hide ReadValue, ReadFields, Encode, EncodeFields, Quote, Restricted, WellFormed;
    var k := keys[0];
    FieldIsWellFormed(v, k);
    FieldsShape(v, keys, rest);
    RestrictedStep(v.fields, keys);
    if |keys| == 1 {
      RoundTrip(v.fields[k], "}" + rest);
      LastField(k, Encode(v.fields[k]) + ("}" + rest), v.fields[k], rest);
    } else {
      var more := EncodeFields(v, keys[1..]) + "}" + rest;
      RoundTrip(v.fields[k], "," + more);
      FieldsRoundTrip(v, keys[1..], rest);
      AnotherField(k, Encode(v.fields[k]) + ("," + more), v.fields[k], more, Restricted(v.fields, keys[1..]), rest);
    }
  }

  /** Equal bytes, equal values. */
  lemma CanonicalIsInjective(v: Json, w: Json)
    requires WellFormed(v) && WellFormed(w) && Encode(v) == Encode(w)
    ensures v == w
  {
    RoundTrip(v, "");
    RoundTrip(w, "");
    assert Encode(v) + "" == Encode(v);
  }

  // ---- Writing, as the source does it ----

  /** What is still to be written of a list from its i-th item on. */
  ghost function ItemsFrom(items: seq<Json>, i: nat): string
    requires i <= |items|
  {
    if i == |items| then "" else (if i > 0 then "," else "") + EncodeItems(items[i..])
  }

  lemma ItemsStep(items: seq<Json>, i: nat)
    requires i < |items|
    ensures ItemsFrom(items, i) == (if i > 0 then "," else "") + Encode(items[i]) + ItemsFrom(items, i + 1)
  {
    hide Encode;
    assert items[i..][1..] == items[i + 1..];
  }

  ghost function FieldsFrom(v: Json, keys: seq<string>, i: nat): string
    requires v.Obj? && i <= |keys| && forall k :: k in keys ==> k in v.fields
  {
    if i == |keys| then "" else (if i > 0 then "," else "") + EncodeFields(v, keys[i..])
  }

  lemma FieldsStep(v: Json, keys: seq<string>, i: nat)
    requires v.Obj? && i < |keys| && forall k :: k in keys ==> k in v.fields
    ensures keys[i] in v.fields
    ensures FieldsFrom(v, keys, i)
      == (if i > 0 then "," else "") + (Quote(keys[i]) + ":" + Encode(v.fields[keys[i]])) + FieldsFrom(v, keys, i + 1)
  {
    hide Encode, Quote;
    assert keys[i] in keys && keys[i..][1..] == keys[i + 1..];
  }

  /** The members of an object stand in the order of their keys, which is that of strings. */
  lemma MembersInOrder(fields: map<string, Json>, keys: seq<string>)
    requires InOrder(keys, fields.Keys)
    ensures Encode(Obj(fields)) == "{" + EncodeFields(Obj(fields), keys) + "}"
  {
    SortedSetIff(fields.Keys, keys);
  }

  /** `writeCanonical`. The keys of an object come out of its map in no particular order. */
  method WriteCanonical(buf: string, v: Json) returns (out: string)
    ensures out == buf + Encode(v)
    ensures v.Obj? ==> forall keys :: InOrder(keys, v.fields.Keys) ==> out == buf + ("{" + EncodeFields(v, keys) + "}")
    decreases v, 2
  {
    if v.Obj? {
      forall keys | InOrder(keys, v.fields.Keys)
        ensures Encode(v) == "{" + EncodeFields(v, keys) + "}"
      {
        MembersInOrder(v.fields, keys);
      }
    }
    match v
    case Null => out := buf + "null";
    case Bool(b) => out := buf + if b then "true" else "false";
    case Number(literal) => out := buf + literal;
    case Str(text) => out := buf + Quote(text);
    case Arr(items) => out := WriteItems(buf, v);
    case Obj(fields) => out := WriteFields(buf, v);
  }

  method WriteItems(buf: string, v: Json) returns (out: string)
    requires v.Arr?
    ensures out == buf + Encode(v)
    decreases v, 0
  {
    hide Encode, EncodeItems, ItemsFrom;
    ArrayFromItems(v);
    var items := v.items;
    out := buf + "[";
    for i := 0 to |items|
      invariant out + ItemsFrom(items, i) == buf + "[" + ItemsFrom(items, 0)
    {
      ItemsStep(items, i);
      Regroup(out, if i > 0 then "," else "", Encode(items[i]), ItemsFrom(items, i + 1));
      if i > 0 {
        out := out + ",";
      }
      out := WriteCanonical(out, items[i]);
    }
    out := out + "]";
    assert buf + "[" + ItemsFrom(items, 0) + "]" == buf + ("[" + ItemsFrom(items, 0) + "]");
  }

  lemma ArrayFromItems(v: Json)
    requires v.Arr?
    ensures Encode(v) == "[" + ItemsFrom(v.items, 0) + "]" && ItemsFrom(v.items, |v.items|) == ""
  {
  }

  lemma Regroup(out: string, comma: string, part: string, rest: string)
    ensures out + (comma + part + rest) == out + comma + part + rest
    ensures comma == "" ==> out + comma == out
  {
  }

  method WriteFields(buf: string, v: Json) returns (out: string)
    requires v.Obj?
    ensures out == buf + Encode(v)
    decreases v, 1
  {
    hide Encode, EncodeFields, SortedSet, FieldsFrom;
    var keys := SortedKeys(v.fields);
    ObjectFromFields(v, keys);
    out := buf + "{";
    for i := 0 to |keys|
      invariant out + FieldsFrom(v, keys, i) == buf + "{" + FieldsFrom(v, keys, 0)
    {
      if i > 0 {
        out := WriteField(out + ",", v, keys, out, i);
      } else {
        out := WriteField(out, v, keys, out, i);
      }
    }
    NoMoreFields(v, keys);
    out := out + "}";
    assert buf + "{" + FieldsFrom(v, keys, 0) + "}" == buf + ("{" + FieldsFrom(v, keys, 0) + "}");
  }

  method WriteField(buf: string, v: Json, keys: seq<string>, ghost before: string, i: nat) returns (out: string)
    requires v.Obj? && i < |keys| && forall k :: k in keys ==> k in v.fields
    requires buf == before + (if i > 0 then "," else "")
    ensures out + FieldsFrom(v, keys, i + 1) == before + FieldsFrom(v, keys, i)
    decreases v, 0
  {
    hide Encode, FieldsFrom, Quote;
    FieldsStep(v, keys, i);
    var k := keys[i];
    Regroup(before, if i > 0 then "," else "", Quote(k) + ":" + Encode(v.fields[k]), FieldsFrom(v, keys, i + 1));
    RegroupField(buf, Quote(k), Encode(v.fields[k]));
    out := buf + Quote(k) + ":";
    out := WriteCanonical(out, v.fields[k]);
  }

  lemma RegroupField(out: string, key: string, value: string)
    ensures out + (key + ":" + value) == out + key + ":" + value
  {
  }

  lemma NoMoreFields(v: Json, keys: seq<string>)
    requires v.Obj? && forall k :: k in keys ==> k in v.fields
    ensures FieldsFrom(v, keys, |keys|) == ""
  {
  }

  lemma ObjectFromFields(v: Json, keys: seq<string>)
    requires v.Obj? && keys == SortedSet(v.fields.Keys) && forall k :: k in keys ==> k in v.fields
    ensures Encode(v) == "{" + FieldsFrom(v, keys, 0) + "}"
  {
  }

  method SortedKeys(m: map<string, Json>) returns (keys: seq<string>)
    ensures keys == SortedSet(m.Keys) && forall k :: k in keys ==> k in m
  {
    keys := KeysOf(m);
    keys := Sorting.SortBy(ByKey(Same), keys);
    SortedSetAscending(m.Keys);
  }

  /** The keys of a map, in whatever order ranging over it yields them. */
  method KeysOf(m: map<string, Json>) returns (keys: seq<string>)
    ensures Sorting.NoRepeats(keys) && forall k :: k in keys <==> k in m
    ensures Sorting.SortBy(ByKey(Same), keys) == SortedSet(m.Keys)
  {
    keys := [];
    var rest := m.Keys;
    while rest != {}
      invariant Sorting.NoRepeats(keys)
      invariant forall k :: k in m <==> k in keys || k in rest
      invariant forall k :: k in keys ==> k !in rest
      decreases |rest|
    {
      var k :| k in rest;
      rest := rest - {k};
      keys := keys + [k];
    }
    SortForgetsOrder(keys, m.Keys);
  }
}
