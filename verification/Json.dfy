/**
 The JSON object writer: entries appended to a growing body, nested to any depth.

 An entry's key is appended before its value is built, so a writer nested in itself
 spoils its own text; every other use reads back as what was added. A strict reader
 of RFC 8259 text without insignificant whitespace is the reference.
 A `char` stands for one byte; bytes from 0x20 up are passed through, so the text is
 UTF-8 exactly where the added strings are.
 */
module Json {
  import opened Foundation
  import opened Text
  import Encoding

  datatype Value =
    | Str(text: string)
    | Number(number: int)
    | Boolean(flag: bool)
    | Null
    | Object(entries: seq<Entry>)

  datatype Entry = Entry(key: string, value: Value)

  // ----- What the writer prints -----

  function EscapeChar(c: char): string {
    if c == '"' then "\\\""
    else if c == '\\' then "\\\\"
    else if c as int == 8 then "\\b"
    else if c as int == 12 then "\\f"
    else if c == '\n' then "\\n"
    else if c == '\r' then "\\r"
    else if c == '\t' then "\\t"
    else if c as int < 0x20 then "\\u00" + [Encoding.HexDigit(c as int / 16)] + [Encoding.HexDigit(c as int % 16)]
    else [c]
  }

  function Escape(s: string): string {
    if s == "" then "" else EscapeChar(s[0]) + Escape(s[1..])
  }

  function Quoted(s: string): string {
    "\"" + Escape(s) + "\""
  }

  function Render(v: Value): string
    decreases v
  {
    match v
    case Str(text) => Quoted(text)
    case Number(number) => SignedDecimal(number)
    case Boolean(flag) => if flag then "true" else "false"
    case Null => "null"
    case Object(entries) => "{" + Body(entries) + "}"
  }

  /** Entries with one comma between neighbours. */
  function Body(entries: seq<Entry>): string
    decreases entries
  {
    if entries == [] then ""
    else if |entries| == 1 then Member(entries[0])
    else Member(entries[0]) + "," + Body(entries[1..])
  }

  function Member(e: Entry): string
    decreases e
  {
    Quoted(e.key) + ":" + Render(e.value)
  }

  // ----- The reference reader -----

  /** The character a `\u` escape stands for, if it is an ASCII one. */
  function Unicode(t: string): Option<char>
    requires |t| >= 6
  {
    var a, b, c, d := Encoding.HexValue(t[2]), Encoding.HexValue(t[3]), Encoding.HexValue(t[4]), Encoding.HexValue(t[5]);
    if a < 0 || b < 0 || c < 0 || d < 0 then None
    else
      var code := ((a * 16 + b) * 16 + c) * 16 + d;
      if code < 0x80 then Some(code as char) else None
  }

  /** The character a two-character escape stands for. */
  function Escaped(c: char): Option<char> {
    if c == '"' || c == '\\' || c == '/' then Some(c)
    else if c == 'b' then Some(8 as char)
    else if c == 'f' then Some(12 as char)
    else if c == 'n' then Some('\n')
    else if c == 'r' then Some('\r')
    else if c == 't' then Some('\t')
    else None
  }

  /** The first character of a string's contents and what follows it. */
  function ReadChar(t: string): (r: Option<(char, string)>)
    ensures r.Some? ==> |r.value.1| < |t|
  {
    if t == "" || t[0] == '"' || t[0] as int < 0x20 then None
    else if t[0] != '\\' then Some((t[0], t[1..]))
    else if |t| >= 2 && Escaped(t[1]).Some? then Some((Escaped(t[1]).value, t[2..]))
    else if |t| >= 6 && t[1] == 'u' && Unicode(t).Some? then Some((Unicode(t).value, t[6..]))
    else None
  }

  /** The contents of a string up to its closing quotation mark, and what follows that. */
  function ReadChars(t: string): (r: Option<(string, string)>)
    ensures r.Some? ==> |r.value.1| < |t|
    decreases |t|
  {
    if t != "" && t[0] == '"' then Some(("", t[1..]))
    else
      var first := ReadChar(t);
      if first.None? then None
      else
        var more := ReadChars(first.value.1);
        if more.None? then None else Some(([first.value.0] + more.value.0, more.value.1))
  }

  function DigitCount(t: string): (n: nat)
    ensures n <= |t| && AllDigits(t[..n]) && (n < |t| ==> !IsDigit(t[n]))
  {
    if t == "" || !IsDigit(t[0]) then 0 else 1 + DigitCount(t[1..])
  }

  /** Digits without leading zeros, as far as they go. */
  function ReadMagnitude(t: string): (r: Option<(nat, string)>)
    ensures r.Some? ==> |r.value.1| < |t|
  {
    var n := DigitCount(t);
    if n == 0 || (n > 1 && t[0] == '0') then None else Some((Text.Value(t[..n]), t[n..]))
  }

  function ReadNumber(t: string): (r: Option<(int, string)>)
    ensures r.Some? ==> |r.value.1| < |t|
  {
    if t != "" && t[0] == '-' then
      var m := ReadMagnitude(t[1..]);
      if m.None? then None else Some((-(m.value.0 as int), m.value.1))
    else ReadMagnitude(t)
  }

  function ParseValue(t: string): (r: Option<(Value, string)>)
    ensures r.Some? ==> |r.value.1| < |t|
    decreases |t|, 1
  {
    if t == "" then None
    else if t[0] == '"' then
      var s := ReadChars(t[1..]);
      if s.None? then None else Some((Str(s.value.0), s.value.1))
    else if StartsWith(t, "{}") then Some((Object([]), t[2..]))
    else if t[0] == '{' then
      var m := ParseMembers(t[1..]);
      if m.None? then None else Some((Object(m.value.0), m.value.1))
    else if StartsWith(t, "true") then Some((Boolean(true), t[4..]))
    else if StartsWith(t, "false") then Some((Boolean(false), t[5..]))
    else if StartsWith(t, "null") then Some((Null, t[4..]))
    else
      var n := ReadNumber(t);
      if n.None? then None else Some((Number(n.value.0), n.value.1))
  }

  /** One entry, and what follows it. */
  function ParseEntry(t: string): (r: Option<(Entry, string)>)
    ensures r.Some? ==> |r.value.1| < |t|
    decreases |t|, 2
  {
    if t == "" || t[0] != '"' then None
    else
      var key := ReadChars(t[1..]);
      if key.None? || key.value.1 == "" || key.value.1[0] != ':' then None
      else
        var v := ParseValue(key.value.1[1..]);
        if v.None? then None else Some((Entry(key.value.0, v.value.0), v.value.1))
  }

  /** Entries up to the closing brace. */
  function ParseMembers(t: string): (r: Option<(seq<Entry>, string)>)
    ensures r.Some? ==> |r.value.1| < |t|
    decreases |t|, 3
  {
    var e := ParseEntry(t);
    if e.None? || e.value.1 == "" then None
    else if e.value.1[0] == '}' then Some(([e.value.0], e.value.1[1..]))
    else if e.value.1[0] != ',' then None
    else
      var more := ParseMembers(e.value.1[1..]);
      if more.None? then None else Some(([e.value.0] + more.value.0, more.value.1))
  }

  /** A whole JSON text. */
  function Parse(t: string): Option<Value> {
    var v := ParseValue(t);
    if v.Some? && v.value.1 == "" then Some(v.value.0) else None
  }

  // ----- Reading what was written -----

  lemma {:induction false} CharRoundTrip(c: char, rest: string)
    ensures ReadChar(EscapeChar(c) + rest) == Some((c, rest))
    ensures EscapeChar(c) != "" && EscapeChar(c)[0] != '"'
  {
    var t := EscapeChar(c) + rest;
    if c as int < 0x20 && |EscapeChar(c)| == 6 {
      Encoding.HexDigitValue(c as int / 16);
      Encoding.HexDigitValue(c as int % 16);
      assert t[..6] == EscapeChar(c) && t[6..] == rest;
      assert t[2] == '0' && t[3] == '0' && t[4] == Encoding.HexDigit(c as int / 16) && t[5] == Encoding.HexDigit(c as int % 16);
    } else if |EscapeChar(c)| == 2 {
      assert t[0] == '\\' && t[1] == EscapeChar(c)[1] && t[2..] == rest;
    } else {
      assert t[0] == c && t[1..] == rest;
    }
  }

  lemma {:induction false} StringRoundTrip(s: string, rest: string)
    ensures ReadChars(Escape(s) + "\"" + rest) == Some((s, rest))
  {
    hide ReadChar, EscapeChar;
    var tail := "\"" + rest;
    if s == "" {
      assert Escape(s) + "\"" + rest == tail && tail[1..] == rest;
    } else {
      var t := Escape(s[1..]) + "\"" + rest;
      assert Escape(s) + "\"" + rest == EscapeChar(s[0]) + t;
      CharRoundTrip(s[0], t);
      assert (EscapeChar(s[0]) + t)[0] == EscapeChar(s[0])[0];
      StringRoundTrip(s[1..], rest);
      assert s == [s[0]] + s[1..];
    }
  }

  /** Nothing that a number could go on with. */
  predicate Stops(rest: string) { rest == "" || !IsDigit(rest[0]) }

  lemma {:induction false} CountExactly(digits: string, rest: string)
    requires AllDigits(digits) && Stops(rest)
    ensures DigitCount(digits + rest) == |digits|
  {
    if digits == "" {
      assert digits + rest == rest;
    } else {
      assert (digits + rest)[1..] == digits[1..] + rest;
      CountExactly(digits[1..], rest);
    }
  }

  lemma {:induction false} NoLeadingZero(n: nat)
    requires n > 0
    ensures Decimal(n)[0] != '0'
  {
    if n < 10 {
    } else {
      NoLeadingZero(n / 10);
      assert Decimal(n)[0] == Decimal(n / 10)[0];
    }
  }

  lemma {:induction false} MagnitudeRoundTrip(n: nat, rest: string)
    requires Stops(rest)
    ensures ReadMagnitude(Decimal(n) + rest) == Some((n, rest))
  {
    hide Decimal, DigitCount, Text.Value;
    var digits := Decimal(n);
    DecimalRoundTrip(n);
    CountExactly(digits, rest);
    assert (digits + rest)[..|digits|] == digits && (digits + rest)[|digits|..] == rest;
    ZeroIsShort();
    if n > 0 {
      NoLeadingZero(n);
    }
  }

  lemma {:induction false} NumberRoundTrip(i: int, rest: string)
    requires Stops(rest)
    ensures ReadNumber(SignedDecimal(i) + rest) == Some((i, rest))
  {
    hide Decimal, ReadMagnitude;
    var n: nat := if i < 0 then -i else i;
    var t := SignedDecimal(i) + rest;
    MagnitudeRoundTrip(n, rest);
    assert i < 0 ==> t[0] == '-' && t[1..] == Decimal(n) + rest;
    assert i >= 0 ==> t == Decimal(n) + rest && IsDigit(t[0]);
  }

  lemma {:induction false} ZeroIsShort()
    ensures |Decimal(0)| == 1
  {
  }

  /** Whatever was rendered reads back as the value it renders, and the reader stops right behind it. */
  lemma {:induction false} ValueRoundTrip(v: Value, rest: string)
    requires Stops(rest)
    ensures ParseValue(Render(v) + rest) == Some((v, rest))
    decreases v
  {
    hide ReadChars, ReadNumber, Escape, SignedDecimal, Body, ParseMembers;
    var t := Render(v) + rest;
    match v
    case Str(text) =>
      StringRoundTrip(text, rest);
      assert t[0] == '"' && t[1..] == Escape(text) + "\"" + rest;
    case Number(number) =>
      NumberRoundTrip(number, rest);
      NumberStart(number, rest);
    case Boolean(flag) =>
      assert flag ==> t[..4] == "true" && t[4..] == rest;
      assert !flag ==> t[..5] == "false" && t[5..] == rest;
    case Null =>
      assert t[..4] == "null" && t[4..] == rest;
    case Object(entries) =>
      ObjectRoundTrip(v, rest);
  }

  /** A number begins neither like a string, nor an object, nor a word. */
  lemma {:induction false} NumberStart(i: int, rest: string)
    ensures var t := SignedDecimal(i) + rest;
      && t != "" && t[0] != '"' && t[0] != '{'
      && !StartsWith(t, "{}") && !StartsWith(t, "true") && !StartsWith(t, "false") && !StartsWith(t, "null")
  {
    hide Decimal;
    var t := SignedDecimal(i) + rest;
    assert i >= 0 ==> IsDigit(t[0]);
    assert i < 0 ==> t[0] == '-';
    OtherStart(t, "{}");
    OtherStart(t, "true");
    OtherStart(t, "false");
    OtherStart(t, "null");
  }

  lemma {:induction false} OtherStart(t: string, word: string)
    requires t != "" && word != "" && t[0] != word[0]
    ensures !StartsWith(t, word)
  {
    assert |word| <= |t| ==> t[..|word|][0] == t[0];
  }

  lemma {:induction false} ObjectRoundTrip(v: Value, rest: string)
    requires v.Object?
    ensures ParseValue(Render(v) + rest) == Some((v, rest))
    decreases v, 0
  {
    hide ReadChars, ReadNumber, ParseMembers, Body;
    var t := Render(v) + rest;
    if v.entries == [] {
      EmptyBody();
      assert t == "{}" + rest;
    } else {
      MembersRoundTrip(v.entries, rest);
      assert t[0] == '{' && t[1..] == Body(v.entries) + "}" + rest;
      BodyStart(v.entries);
      NotEmptyObject(t);
    }
  }

  lemma {:induction false} EmptyBody()
    ensures Body([]) == ""
  {
  }

  lemma {:induction false} NotEmptyObject(t: string)
    requires |t| >= 2 && t[1] == '"'
    ensures !StartsWith(t, "{}")
  {
    assert t[..2][1] == t[1];
  }

  lemma {:induction false} BodyStart(entries: seq<Entry>)
    requires entries != []
    ensures Body(entries) != "" && Body(entries)[0] == '"'
  {
    hide Escape, Render;
    assert Member(entries[0])[0] == '"';
  }

  lemma {:induction false} MembersRoundTrip(entries: seq<Entry>, rest: string)
    requires entries != []
    ensures ParseMembers(Body(entries) + "}" + rest) == Some((entries, rest))
    decreases entries
  {
    hide ParseEntry, Render, Member, Quoted, Escape, EscapeChar;
    var e := entries[0];
    if |entries| == 1 {
      var tail := "}" + rest;
      assert Body(entries) + "}" + rest == Member(e) + tail;
      EntryRoundTrip(e, tail);
      assert tail[1..] == rest && entries == [e];
    } else {
      var more := Body(entries[1..]) + "}" + rest;
      var tail := "," + more;
      assert Body(entries) + "}" + rest == Member(e) + tail;
      EntryRoundTrip(e, tail);
      MembersRoundTrip(entries[1..], rest);
      assert tail[1..] == more && entries == [e] + entries[1..];
    }
  }

  lemma {:induction false} EntryRoundTrip(e: Entry, rest: string)
    requires Stops(rest)
    ensures ParseEntry(Member(e) + rest) == Some((e, rest))
    decreases e
  {
    hide ReadChars, ParseValue, Escape, Render;
    var tail := Render(e.value) + rest;
    var after := ":" + tail;
    var t := Member(e) + rest;
    assert t[0] == '"' && t[1..] == Escape(e.key) + "\"" + after;
    StringRoundTrip(e.key, after);
    assert after[1..] == tail;
    ValueRoundTrip(e.value, rest);
  }

  /** Rendering is inverted by reading: a text of the writer stands for one value. */
  lemma {:induction false} RoundTrip(v: Value)
    ensures Parse(Render(v)) == Some(v)
  {
    hide ParseValue, Render;
    ValueRoundTrip(v, "");
    assert Render(v) + "" == Render(v);
  }

  // ----- The writer -----

  lemma {:induction false} EscapeSnoc(s: string, c: char)
    ensures Escape(s + [c]) == Escape(s) + EscapeChar(c)
  {
    hide EscapeChar;
    if s == "" {
      assert (s + [c])[1..] == "";
    } else {
      assert (s + [c])[1..] == s[1..] + [c];
      EscapeSnoc(s[1..], c);
    }
  }

  method EscapeJsonString(value: string) returns (out: string)
    ensures out == Escape(value)
    ensures forall rest :: ReadChars(out + "\"" + rest) == Some((value, rest))
  {
    hide ReadChars, Escape;
    out := "";
    EscapeEmpty();
    for i := 0 to |value|
      invariant out == Escape(value[..i])
    {
      var c := value[i];
      EscapeSnoc(value[..i], c);
      assert value[..i + 1] == value[..i] + [c];
      if c == '"' {
        out := out + "\\\"";
      } else if c == '\\' {
        out := out + "\\\\";
      } else if c as int == 8 {
        out := out + "\\b";
      } else if c as int == 12 {
        out := out + "\\f";
      } else if c == '\n' {
        out := out + "\\n";
      } else if c == '\r' {
        out := out + "\\r";
      } else if c == '\t' {
        out := out + "\\t";
      } else if c as int < 0x20 {
        out := out + ("\\u00" + [Encoding.HexDigit(c as int / 16)] + [Encoding.HexDigit(c as int % 16)]);
      } else {
        out := out + [c];
      }
    }
    assert value[..|value|] == value;
    forall rest ensures ReadChars(out + "\"" + rest) == Some((value, rest)) {
      StringRoundTrip(value, rest);
    }
  }

  lemma {:induction false} EscapeEmpty()
    ensures Escape("") == ""
  {
  }

  lemma {:induction false} BodySnoc(entries: seq<Entry>, e: Entry)
    ensures Body(entries + [e]) == (if entries == [] then "" else Body(entries) + ",") + Member(e)
    ensures Body(entries) == "" <==> entries == []
  {
    hide Member;
    if entries != [] {
      MemberStart(entries[0]);
      assert (entries + [e])[1..] == entries[1..] + [e];
      BodySnoc(entries[1..], e);
      if |entries| == 1 {
        assert entries[1..] + [e] == [e];
      }
    } else {
      assert entries + [e] == [e];
    }
  }

  lemma {:induction false} MemberStart(e: Entry)
    ensures Member(e) != ""
  {
    hide Escape, Render;
  }

  // ----- Entries without a value -----

  /** A body up to the colon of an entry whose value is still to come. */
  function Open(entries: seq<Entry>, key: string): string {
    (if entries == [] then "" else Body(entries) + ",") + Quoted(key) + ":"
  }

  /** A body with an object entry at its end. */
  function Nested(entries: seq<Entry>, key: string, inner: string): string {
    Open(entries, key) + "{" + inner + "}"
  }

  /** No text that begins with this body is the inside of an object. */
  ghost predicate Broken(body: string) {
    body != "" && body[0] == '"' && forall rest :: ParseMembers(body + rest).None?
  }

  lemma {:induction false} OpenCons(entries: seq<Entry>, key: string)
    requires entries != []
    ensures Open(entries, key) == Member(entries[0]) + "," + Open(entries[1..], key)
  {
    hide Member, Quoted;
  }

  lemma {:induction false} OpenStart(entries: seq<Entry>, key: string)
    ensures Open(entries, key) != "" && Open(entries, key)[0] == '"'
  {
    hide Body, Escape;
    if entries != [] {
      BodyStart(entries);
    }
  }

  lemma {:induction false} EntryDangles(key: string, rest: string)
    requires ParseValue(rest).None?
    ensures ParseEntry(Quoted(key) + ":" + rest).None?
  {
    hide ReadChars, ParseValue, Escape;
    var after := ":" + rest;
    var t := Quoted(key) + ":" + rest;
    assert t[0] == '"' && t[1..] == Escape(key) + "\"" + after;
    StringRoundTrip(key, after);
    assert after[1..] == rest;
  }

  /** An entry whose value cannot be read spoils all that precede it. */
  lemma {:induction false} OpenDangles(entries: seq<Entry>, key: string, rest: string)
    requires ParseValue(rest).None?
    ensures ParseMembers(Open(entries, key) + rest).None?
    decreases |entries|
  {
    hide ParseEntry, ParseValue, Body, Quoted, Member;
    if entries == [] {
      EntryDangles(key, rest);
      assert Open(entries, key) + rest == Quoted(key) + ":" + rest;
    } else {
      var more := Open(entries[1..], key) + rest;
      var tail := "," + more;
      OpenCons(entries, key);
      assert Open(entries, key) + rest == Member(entries[0]) + tail;
      EntryRoundTrip(entries[0], tail);
      OpenDangles(entries[1..], key, rest);
      assert tail[1..] == more;
    }
  }

  lemma {:induction false} BraceIsNoValue(rest: string)
    ensures ParseValue("}" + rest).None?
  {
    var t := "}" + rest;
    OtherStart(t, "{}");
    OtherStart(t, "true");
    OtherStart(t, "false");
    OtherStart(t, "null");
  }

  lemma {:induction false} InsideUnread(inside: string, rest: string)
    requires inside != "" && inside[0] == '"' && ParseMembers(inside + "}" + rest).None?
    ensures ParseValue("{" + inside + "}" + rest).None?
  {
    hide ParseMembers, ReadChars, ReadNumber;
    var t := "{" + inside + "}" + rest;
    assert t[1..] == inside + "}" + rest;
    NotEmptyObject(t);
  }

  lemma {:induction false} BrokenGrows(body: string, more: string)
    requires Broken(body)
    ensures Broken(body + more)
  {
    hide ParseMembers;
    forall rest ensures ParseMembers(body + more + rest).None? {
      assert body + more + rest == body + (more + rest);
    }
  }

  /** If the inside of an object cannot be read however it goes on, neither can a body that ends with that object. */
  lemma {:induction false} NestingBreaks(entries: seq<Entry>, key: string, inner: string)
    requires inner != "" && inner[0] == '"' && forall rest :: ParseMembers(inner + "}" + rest).None?
    ensures Broken(Nested(entries, key, inner))
  {
    hide ParseMembers, ParseValue, Open;
    OpenStart(entries, key);
    forall rest ensures ParseMembers(Nested(entries, key, inner) + rest).None? {
      InsideUnread(inner, rest);
      OpenDangles(entries, key, "{" + inner + "}" + rest);
      assert Nested(entries, key, inner) + rest == Open(entries, key) + ("{" + inner + "}" + rest);
    }
  }

  lemma {:induction false} BrokenNested(entries: seq<Entry>, key: string, inner: string)
    requires Broken(inner)
    ensures Broken(Nested(entries, key, inner))
  {
    hide ParseMembers, Nested;
    forall rest ensures ParseMembers(inner + "}" + rest).None? {
      assert inner + "}" + rest == inner + ("}" + rest);
    }
    NestingBreaks(entries, key, inner);
  }

  /** A writer nested in itself repeats its own open entry, and nothing can follow that colon but a brace. */
  lemma {:induction false} SelfNestedBroken(entries: seq<Entry>, key: string)
    ensures Broken(Nested(entries, key, Open(entries, key)))
  {
    hide ParseMembers, ParseValue, Nested, Open;
    OpenStart(entries, key);
    forall rest ensures ParseMembers(Open(entries, key) + "}" + rest).None? {
      BraceIsNoValue(rest);
      OpenDangles(entries, key, "}" + rest);
      assert Open(entries, key) + "}" + rest == Open(entries, key) + ("}" + rest);
    }
    NestingBreaks(entries, key, Open(entries, key));
  }

  lemma {:induction false} BrokenUnreadable(body: string)
    requires Broken(body)
    ensures Parse("{" + body + "}") == None
  {
    hide ParseMembers, ParseValue;
    assert body + "}" + "" == body + ("}" + "");
    InsideUnread(body, "");
    assert "{" + body + "}" + "" == "{" + body + "}";
  }

  /** Nesting another writer's entries adds them as one object; nesting a writer in itself makes text that is not JSON. */
  lemma {:induction false} NestingExactly(entries: seq<Entry>, key: string, nested: seq<Entry>)
    ensures Parse("{" + Nested(entries, key, Body(nested)) + "}") == Some(Object(entries + [Entry(key, Object(nested))]))
    ensures Parse("{" + Nested(entries, key, Open(entries, key)) + "}") == None
  {
    hide Parse, Broken, Quoted;
    SelfNestedBroken(entries, key);
    BrokenUnreadable(Nested(entries, key, Open(entries, key)));
    NestedBody(entries, key, nested);
    RoundTrip(Object(entries + [Entry(key, Object(nested))]));
  }

  lemma {:induction false} NestedBody(entries: seq<Entry>, key: string, nested: seq<Entry>)
    ensures Nested(entries, key, Body(nested)) == Body(entries + [Entry(key, Object(nested))])
  {
    hide Body, Quoted;
    BodySnoc(entries, Entry(key, Object(nested)));
    assert Render(Object(nested)) == "{" + Body(nested) + "}";
  }

  /** The smallest such text. */
  lemma {:induction false} SelfNestedExample()
    ensures "{" + Nested([], "a", Open([], "a")) + "}" == "{\"a\":{\"a\":}}"
    ensures Parse("{\"a\":{\"a\":}}") == None
  {
    hide Parse, Broken, ParseMembers, ParseValue;
    assert Escape("a") == "a" by {
      assert "a"[1..] == "";
    }
    NestingExactly([], "a", []);
  }

  /**
   `entries` are what callers added; `malformed` says that a writer was nested in
   itself, here or in a writer nested here.
   */
  class JsonObjectWriter {
    var body: string
    ghost var entries: seq<Entry>
    ghost var malformed: bool

    ghost predicate Valid()
      reads this
    {
      if malformed then Broken(body) && entries != [] else body == Body(entries)
    }

    constructor ()
      ensures Valid() && entries == [] && !malformed
    {
      body := "";
      entries := [];
      malformed := false;
    }

    /** Everything of an entry but its value. */
    method BeginEntry(key: string)
      requires key != ""
      modifies this`body
      ensures body == (if old(body) == "" then "" else old(body) + ",") + Quoted(key) + ":"
    {
      hide Escape;
      if body != "" {
        body := body + ",";
      }
      var escaped := EscapeJsonString(key);
      body := body + "\"";
      body := body + escaped;
      body := body + "\":";
    }

    /** The common end of every addition but a nested one. */
    method AddRendered(key: string, rendered: string, ghost value: Value)
      requires Valid() && key != "" && rendered == Render(value)
      modifies this
      ensures Valid() && entries == old(entries) + [Entry(key, value)] && malformed == old(malformed)
    {
      hide Body, Render, Quoted, Broken;
      ghost var before := body;
      BodySnoc(entries, Entry(key, value));
      BeginEntry(key);
      body := body + rendered;
      entries := entries + [Entry(key, value)];
      if malformed {
        BrokenStart(before);
        BrokenGrows(before, "," + Quoted(key) + ":" + rendered);
        assert body == before + ("," + Quoted(key) + ":" + rendered);
      }
    }

    method AddString(key: string, value: string)
      requires Valid() && key != ""
      modifies this
      ensures Valid() && entries == old(entries) + [Entry(key, Str(value))] && malformed == old(malformed)
    {
      hide Broken, Body;
      var escaped := EscapeJsonString(value);
      AddRendered(key, "\"" + escaped + "\"", Str(value));
    }

    method AddInteger(key: string, value: int)
      requires Valid() && key != "" && -(TWO_64 / 2) <= value < TWO_64 / 2
      modifies this
      ensures Valid() && entries == old(entries) + [Entry(key, Number(value))] && malformed == old(malformed)
    {
      hide Broken, Body;
      AddRendered(key, SignedDecimal(value), Number(value));
    }

    method AddBoolean(key: string, value: bool)
      requires Valid() && key != ""
      modifies this
      ensures Valid() && entries == old(entries) + [Entry(key, Boolean(value))] && malformed == old(malformed)
    {
      hide Broken, Body;
      AddRendered(key, if value then "true" else "false", Boolean(value));
    }

    method AddNull(key: string)
      requires Valid() && key != ""
      modifies this
      ensures Valid() && entries == old(entries) + [Entry(key, Null)] && malformed == old(malformed)
    {
      hide Broken, Body;
      AddRendered(key, "null", Null);
    }

    /** The key is appended first, so a writer nested in itself is printed with that key and no value. */
    method AddNested(key: string, nested: JsonObjectWriter)
      requires Valid() && nested.Valid() && key != ""
      modifies this
      ensures Valid() && entries == old(entries) + [Entry(key, Object(old(nested.entries)))]
      ensures malformed <==> old(malformed) || old(nested.malformed) || nested == this
      ensures !old(malformed) && !old(nested.malformed) ==> (Parse("{" + body + "}") == Some(Object(entries)) <==> nested != this)
      ensures malformed ==> Parse("{" + body + "}") == None
    {
      hide Body, Quoted, Broken, Parse;
      ghost var before, inner := body, nested.body;
      BodySnoc(entries, Entry(key, Null));
      if malformed {
        BrokenStart(body);
      }
      BeginEntry(key);
      var text := nested.Build();
      body := body + text;
      NestedText(before, key, old(entries), old(malformed), inner, old(nested.entries), old(nested.malformed), nested == this, body);
      entries := entries + [Entry(key, Object(old(nested.entries)))];
      malformed := malformed || old(nested.malformed) || nested == this;
    }

    method Empty() returns (empty: bool)
      requires Valid()
      ensures empty <==> entries == []
    {
      hide Body, Broken;
      BodySnoc(entries, Entry("", Null));
      if malformed {
        BrokenStart(body);
      }
      empty := body == "";
    }

    /** The text reads back as exactly the entries that were added, in order, unless some writer was nested in itself: then it cannot be read. */
    method Build() returns (out: string)
      ensures out == "{" + body + "}"
      ensures Valid() ==> Parse(out) == if malformed then None else Some(Object(entries))
    {
      hide Body, Parse, Broken;
      out := "{" + body + "}";
      if Valid() {
        if malformed {
          BrokenUnreadable(body);
        } else {
          RoundTrip(Object(entries));
        }
      }
    }
  }

  lemma {:induction false} BrokenStart(body: string)
    requires Broken(body)
    ensures body != ""
  {
    hide ParseMembers;
  }

  /** What nesting makes of a body, case by case. */
  lemma {:induction false} NestedText(before: string, key: string, entries: seq<Entry>, malformed: bool,
                                      inner: string, nested: seq<Entry>, nestedMalformed: bool, same: bool, after: string)
    requires if malformed then Broken(before) else before == Body(entries)
    requires if nestedMalformed then Broken(inner) else inner == Body(nested)
    requires before == "" <==> entries == []
    requires var open := (if before == "" then "" else before + ",") + Quoted(key) + ":";
      after == open + ("{" + (if same then open else inner) + "}")
    ensures if malformed || nestedMalformed || same then Broken(after) else after == Body(entries + [Entry(key, Object(nested))])
    ensures malformed || nestedMalformed || same ==> Parse("{" + after + "}") == None
    ensures !(malformed || nestedMalformed || same) ==> Parse("{" + after + "}") == Some(Object(entries + [Entry(key, Object(nested))]))
  {
    hide Body, Quoted, Broken, Parse;
    var open := (if before == "" then "" else before + ",") + Quoted(key) + ":";
    if malformed {
      BrokenStart(before);
      var more := "," + Quoted(key) + ":" + ("{" + (if same then open else inner) + "}");
      BrokenGrows(before, more);
      assert after == before + more;
    } else {
      assert open == Open(entries, key);
      assert after == Nested(entries, key, if same then open else inner);
      if same {
        SelfNestedBroken(entries, key);
      } else if nestedMalformed {
        BrokenNested(entries, key, inner);
      } else {
        NestedBody(entries, key, nested);
        NestingExactly(entries, key, nested);
      }
    }
    if malformed || nestedMalformed || same {
      BrokenUnreadable(after);
    }
  }
}
