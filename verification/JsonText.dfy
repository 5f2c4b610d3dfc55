/** Escaping of free-form fields in the event log, against the grammar of strings in section 7 of
    RFC 8259. */
module JsonText {
  import opened Basics

  function EscapedScalar(c: char): string {
    if c == '"' then "\\\"" else if c == '\\' then "\\\\"
    else if c == '\n' then "\\n" else if c == '\r' then "\\r" else if c == '\t' then "\\t"
    else if c as int < 0x20 then "\\u00" + [HexDigit(c as int / 16), HexDigit(c as int % 16)]
    else [c]
  }

  function Escaped(value: string): string {
    if value == "" then "" else EscapedScalar(value[0]) + Escaped(value[1..])
  }

  lemma {:induction false} EscapedOne(front: string, c: char)
    ensures Escaped(front + [c]) == Escaped(front) + EscapedScalar(c)
  {
    hide EscapedScalar;
    if front == "" {
      assert [c][1..] == "";
    } else {
      EscapedOne(front[1..], c);
      assert (front + [c])[1..] == front[1..] + [c];
    }
  }

  lemma EscapedNothing()
    ensures Escaped("") == ""
  {}

  method EscapedJSONString(value: string) returns (escaped: string)
    ensures escaped == "\"" + Escaped(value) + "\""
  {
    hide Escaped, HexDigit;
    EscapedNothing();
    escaped := "\"";
    for k := 0 to |value|
      invariant escaped == "\"" + Escaped(value[..k])
    {
      var scalar := value[k];
      EscapedOne(value[..k], scalar);
      assert value[..k + 1] == value[..k] + [scalar];
      if scalar == '"' { escaped := escaped + "\\\""; }
      else if scalar == '\\' { escaped := escaped + "\\\\"; }
      else if scalar == '\n' { escaped := escaped + "\\n"; }
      else if scalar == '\r' { escaped := escaped + "\\r"; }
      else if scalar == '\t' { escaped := escaped + "\\t"; }
      else if scalar as int < 0x20 {
        escaped := escaped + "\\u00" + [HexDigit(scalar as int / 16), HexDigit(scalar as int % 16)];
      }
      else { escaped := escaped + [scalar]; }
    }
    assert value[..|value|] == value;
    escaped := escaped + "\"";
  }

  // The grammar

  function HexValue(c: char): (v: int)
    ensures -1 <= v < 16
  {
    if '0' <= c <= '9' then c as int - '0' as int
    else if 'a' <= c <= 'f' then c as int - 'a' as int + 10
    else if 'A' <= c <= 'F' then c as int - 'A' as int + 10
    else -1
  }

  /** The code unit of four hexadecimal digits, or -1. */
  function Unit(s: string): int
    requires |s| == 4
  {
    if HexValue(s[0]) < 0 || HexValue(s[1]) < 0 || HexValue(s[2]) < 0 || HexValue(s[3]) < 0 then -1
    else ((HexValue(s[0]) * 16 + HexValue(s[1])) * 16 + HexValue(s[2])) * 16 + HexValue(s[3])
  }

  function SimpleEscape(c: char): Option<char> {
    if c == '"' || c == '\\' || c == '/' then Some(c)
    else if c == 'b' then Some(8 as char) else if c == 'f' then Some(12 as char)
    else if c == 'n' then Some('\n') else if c == 'r' then Some('\r') else if c == 't' then Some('\t')
    else None
  }

  /** The characters up to the closing quotation mark, which must be the last. Escaped surrogate pairs
      stand for one character; the log never writes one. */
  function Chars(text: string): Option<string> {
    if text == "" then None
    else if text[0] == '"' then (if |text| == 1 then Some("") else None)
    else if text[0] != '\\' then
      if text[0] as int < 0x20 then None else Prefixed(text[0], Chars(text[1..]))
    else if |text| >= 2 && SimpleEscape(text[1]).Some? then Prefixed(SimpleEscape(text[1]).value, Chars(text[2..]))
    else if |text| >= 6 && text[1] == 'u' then
      var unit := Unit(text[2..6]);
      if unit < 0 then None
      else if unit < 0xD800 || 0xE000 <= unit < 0x1_0000 then Prefixed(unit as char, Chars(text[6..]))
      else if 0xD800 <= unit < 0xDC00 && |text| >= 12 && text[6] == '\\' && text[7] == 'u' then
        var low := Unit(text[8..12]);
        if 0xDC00 <= low < 0xE000 then
          Prefixed((0x1_0000 + (unit - 0xD800) * 0x400 + (low - 0xDC00)) as char, Chars(text[12..]))
        else None
      else None
    else None
  }

  function Prefixed(c: char, rest: Option<string>): Option<string> {
    if rest.Some? then Some([c] + rest.value) else None
  }

  /** The value of a JSON string, if the text is one. */
  function ParsedString(text: string): Option<string> {
    if text == "" || text[0] != '"' then None else Chars(text[1..])
  }

  lemma ControlUnit(c: char)
    requires c as int < 0x20
    ensures Unit(['0', '0', HexDigit(c as int / 16), HexDigit(c as int % 16)]) == c as int
  {}

  lemma ScalarRoundTrip(c: char, rest: string)
    ensures Chars(EscapedScalar(c) + rest) == Prefixed(c, Chars(rest))
  {
    hide Unit, HexDigit;
    var e := EscapedScalar(c);
    assert (e + rest)[|e|..] == rest;
    if c as int < 0x20 && |e| == 6 {
      assert (e + rest)[2..6] == ['0', '0', HexDigit(c as int / 16), HexDigit(c as int % 16)];
      ControlUnit(c);
    }
  }

  /** Every value is written as a JSON string whose value it is. */
  lemma {:induction false} EscapeRoundTrip(value: string)
    ensures Chars(Escaped(value) + "\"") == Some(value)
    ensures ParsedString("\"" + Escaped(value) + "\"") == Some(value)
  {
    if value != "" {
      EscapeRoundTrip(value[1..]);
      ScalarRoundTrip(value[0], Escaped(value[1..]) + "\"");
      assert Escaped(value) + "\"" == EscapedScalar(value[0]) + (Escaped(value[1..]) + "\"");
      assert value == [value[0]] + value[1..];
    }
    assert ("\"" + Escaped(value) + "\"")[1..] == Escaped(value) + "\"";
  }

  /** A character that a JSON string may hold as it is. */
  predicate Plain(c: char) {
    c != '"' && c != '\\' && c as int >= 0x20
  }

  /** Character by character: a plain one stands for itself, quotes, backslash and the three common breaks take
      two places, any other control character six. */
  lemma {:induction false} EscapedPlaceByPlace(front: string, c: char, rest: string)
    ensures exists e ::
              && Escaped(front + [c] + rest) == Escaped(front) + e + Escaped(rest)
              && |e| == (if Plain(c) then 1 else if c in "\"\\\n\r\t" then 2 else 6)
              && (Plain(c) ==> e == [c]) && (forall i :: 0 <= i < |e| ==> e[i] == c || !('A' <= e[i] <= 'Z'))
  {
    hide Escaped, EscapedScalar;
    EscapedParts(front + [c], rest);
    EscapedOne(front, c);
    ScalarPlaces(c);
    assert Escaped(front + [c] + rest) == Escaped(front) + EscapedScalar(c) + Escaped(rest);
  }

  lemma ScalarPlaces(c: char)
    ensures var e := EscapedScalar(c);
            && |e| == (if Plain(c) then 1 else if c in "\"\\\n\r\t" then 2 else 6)
            && (Plain(c) ==> e == [c]) && (forall i :: 0 <= i < |e| ==> e[i] == c || !('A' <= e[i] <= 'Z'))
  {
  }

  lemma EscapedFirst(c: char, rest: string)
    ensures Escaped([c] + rest) == EscapedScalar(c) + Escaped(rest)
  {
    assert ([c] + rest)[1..] == rest;
  }

  lemma {:induction false} EscapedParts(front: string, rest: string)
    ensures Escaped(front + rest) == Escaped(front) + Escaped(rest)
  {
    hide Escaped, EscapedScalar;
    if front == "" {
      EscapedNothing();
      assert front + rest == rest;
    } else {
      var c, f := front[0], front[1..];
      EscapedParts(f, rest);
      EscapedFirst(c, f + rest);
      EscapedFirst(c, f);
      assert front == [c] + f && front + rest == [c] + (f + rest);
    }
  }

  /** And on one line: no control character survives, so a field can never break a record in two. */
  lemma {:induction false} EscapedIsOneLine(value: string)
    ensures forall i :: 0 <= i < |Escaped(value)| ==> Escaped(value)[i] as int >= 0x20
  {
    if value != "" {
      EscapedIsOneLine(value[1..]);
      ScalarIsVisible(value[0]);
    }
  }

  lemma ScalarIsVisible(c: char)
    ensures forall i :: 0 <= i < |EscapedScalar(c)| ==> EscapedScalar(c)[i] as int >= 0x20
  {}
}
