/** A parser for integer-only JSON text: no fractions or exponents. */
module JsonParser {
  import opened Json
  import opened JsonText

  datatype Option<+T> = None | Some(value: T)

  /** The input with its leading whitespace removed. */
  function SkipWhitespace(s: string): (r: string)
    ensures |r| <= |s|
  {
    if s != [] && IsWhitespace(s[0]) then SkipWhitespace(s[1..]) else s
  }

  predicate IsDigit(c: char) {
    '0' <= c <= '9'
  }

  /** The longest prefix made of decimal digits. */
  function DigitRun(s: string): (r: string)
    ensures |r| <= |s| && r == s[..|r|]
    ensures forall i :: 0 <= i < |r| ==> IsDigit(r[i])
    ensures |r| < |s| ==> !IsDigit(s[|r|])
  {
    if s != [] && IsDigit(s[0]) then [s[0]] + DigitRun(s[1..]) else []
  }

  /** The number a string of decimal digits denotes. */
  function DigitsValue(ds: string): nat
    requires forall i :: 0 <= i < |ds| ==> IsDigit(ds[i])
  {
    if ds == [] then 0
    else
      assert IsDigit(ds[|ds| - 1]);
      DigitsValue(ds[..|ds| - 1]) * 10 + (ds[|ds| - 1] as int - '0' as int)
  }

  /** The value of a nibble written in hexadecimal, if c is one. */
  function HexValue(c: char): Option<nat> {
    if '0' <= c <= '9' then Some(c as int - '0' as int)
    else if 'a' <= c <= 'f' then Some(c as int - 'a' as int + 10)
    else if 'A' <= c <= 'F' then Some(c as int - 'A' as int + 10)
    else None
  }

  /** An integer: an optional minus sign and at least one digit, with no
      leading zero unless the zero is the only digit. */
  function ParseNumber(s: string): (r: Option<(Value, string)>)
    ensures r.Some? ==> |r.value.1| < |s|
  {
    var negative := s != [] && s[0] == '-';
    var body := if negative then s[1..] else s;
    var ds := DigitRun(body);
    if ds == [] || (|ds| > 1 && ds[0] == '0') then None
    else
      var n: int := DigitsValue(ds);
      Some((Number(if negative then -n else n), body[|ds|..]))
  }

  /** The parse of the rest of a string literal with c in front. */
  function ConsChar(c: char, r: Option<(string, string)>): Option<(string, string)> {
    if r.None? then None else Some(([c] + r.value.0, r.value.1))
  }

  /** The character a four-digit \u escape denotes, if it is one. */
  function UnicodeEscape(s: string): Option<char>
    requires |s| == 4
  {
    var h0, h1, h2, h3 := HexValue(s[0]), HexValue(s[1]), HexValue(s[2]), HexValue(s[3]);
    if h0.None? || h1.None? || h2.None? || h3.None? then None
    else
      var code := ((h0.value * 16 + h1.value) * 16 + h2.value) * 16 + h3.value;
      if 0xD800 <= code < 0xE000 then None else Some(code as char)
  }

  /** The character denoted by the two-character escape \e, if any. */
  function ShortEscape(e: char): Option<char> {
    if e == '"' || e == '\\' || e == '/' then Some(e)
    else if e == 'b' then Some(8 as char)
    else if e == 'f' then Some(12 as char)
    else if e == 'n' then Some('\n')
    else if e == 'r' then Some('\r')
    else if e == 't' then Some('\t')
    else None
  }

  /** The characters of a string literal after its opening quote, up to and
      including the closing quote; returns the characters denoted and what
      follows the closing quote. */
  function ParseStringBody(s: string): (r: Option<(string, string)>)
    ensures r.Some? ==> |r.value.1| < |s|
    decreases |s|
  {
    if s == [] then None
    else if s[0] == '"' then Some(([], s[1..]))
    else if s[0] == '\\' then
      if |s| < 2 then None
      else if s[1] == 'u' then
        if |s| < 6 then None
        else
          var c := UnicodeEscape(s[2..6]);
          if c.None? then None else ConsChar(c.value, ParseStringBody(s[6..]))
      else
        var c := ShortEscape(s[1]);
        if c.None? then None else ConsChar(c.value, ParseStringBody(s[2..]))
    else if s[0] < ' ' then None
    else ConsChar(s[0], ParseStringBody(s[1..]))
  }

  /** One value, after optional leading whitespace; returns the value and
      the input that follows it. */
  function ParseValue(s: string): (r: Option<(Value, string)>)
    ensures r.Some? ==> |r.value.1| < |s|
    decreases |s|, 2
  {
    ParseToken(SkipWhitespace(s))
  }

  /** The literal word w standing for value v. */
  function ParseKeyword(t: string, w: string, v: Value): (r: Option<(Value, string)>)
    requires |w| > 0
    ensures r.Some? ==> |r.value.1| < |t|
  {
    if |t| >= |w| && t[..|w|] == w then Some((v, t[|w|..])) else None
  }

  /** One value starting right at the first character of t. */
  function ParseToken(t: string): (r: Option<(Value, string)>)
    ensures r.Some? ==> |r.value.1| < |t|
    decreases |t|, 1
  {
    if t == [] then None
    else if t[0] == 'n' then ParseKeyword(t, "null", Null)
    else if t[0] == 't' then ParseKeyword(t, "true", Bool(true))
    else if t[0] == 'f' then ParseKeyword(t, "false", Bool(false))
    else if t[0] == '-' || IsDigit(t[0]) then ParseNumber(t)
    else if t[0] == '"' then
      var r := ParseStringBody(t[1..]);
      if r.None? then None else Some((Str(r.value.0), r.value.1))
    else if t[0] == '[' then ParseArray(t)
    else if t[0] == '{' then ParseObject(t)
    else None
  }

  /** An array, t starting with its opening bracket. */
  function ParseArray(t: string): (r: Option<(Value, string)>)
    requires t != []
    ensures r.Some? ==> |r.value.1| < |t|
    decreases |t|, 0
  {
    var u := SkipWhitespace(t[1..]);
    if u != [] && u[0] == ']' then Some((Array([]), u[1..]))
    else
      var r := ParseElements(t[1..]);
      if r.None? then None else Some((Array(r.value.0), r.value.1))
  }

  /** An object, t starting with its opening brace. */
  function ParseObject(t: string): (r: Option<(Value, string)>)
    requires t != []
    ensures r.Some? ==> |r.value.1| < |t|
    decreases |t|, 0
  {
    var u := SkipWhitespace(t[1..]);
    if u != [] && u[0] == '}' then Some((Object([]), u[1..]))
    else
      var r := ParseMembers(t[1..]);
      if r.None? then None else Some((Object(r.value.0), r.value.1))
  }

  /** A non-empty comma-separated list of values and the closing bracket. */
  function ParseElements(s: string): (r: Option<(seq<Value>, string)>)
    ensures r.Some? ==> |r.value.1| < |s|
    decreases |s|, 4
  {
    var first := ParseValue(s);
    if first.None? then None else ParseElementsAfter(first.value.0, first.value.1)
  }

  /** The rest of a value list, once its element x has been read and r
      follows it: the closing bracket, or a comma and more elements. */
  function ParseElementsAfter(x: Value, r: string): (res: Option<(seq<Value>, string)>)
    ensures res.Some? ==> |res.value.1| < |r|
    decreases |r|, 3
  {
    var w := SkipWhitespace(r);
    if w == [] then None
    else if w[0] == ']' then Some(([x], w[1..]))
    else if w[0] == ',' then
      var more := ParseElements(w[1..]);
      if more.None? then None else Some(([x] + more.value.0, more.value.1))
    else None
  }

  /** One "key": value member, after optional leading whitespace. */
  function ParseMember(s: string): (r: Option<(Member, string)>)
    ensures r.Some? ==> |r.value.1| < |s|
    decreases |s|, 3
  {
    var t := SkipWhitespace(s);
    if t == [] || t[0] != '"' then None
    else
      var key := ParseStringBody(t[1..]);
      if key.None? then None
      else
        var c := SkipWhitespace(key.value.1);
        if c == [] || c[0] != ':' then None
        else
          var value := ParseValue(c[1..]);
          if value.None? then None
          else Some((Member(key.value.0, value.value.0), value.value.1))
  }

  /** A non-empty comma-separated list of members and the closing brace. */
  function ParseMembers(s: string): (r: Option<(seq<Member>, string)>)
    ensures r.Some? ==> |r.value.1| < |s|
    decreases |s|, 5
  {
    var first := ParseMember(s);
    if first.None? then None else ParseMembersAfter(first.value.0, first.value.1)
  }

  /** The rest of a member list, once its member m has been read and r
      follows it: the closing brace, or a comma and more members. */
  function ParseMembersAfter(m: Member, r: string): (res: Option<(seq<Member>, string)>)
    ensures res.Some? ==> |res.value.1| < |r|
    decreases |r|, 4
  {
    var w := SkipWhitespace(r);
    if w == [] then None
    else if w[0] == '}' then Some(([m], w[1..]))
    else if w[0] == ',' then
      var more := ParseMembers(w[1..]);
      if more.None? then None else Some(([m] + more.value.0, more.value.1))
    else None
  }

  /** A whole JSON text: one value and nothing but whitespace after it. */
  function Parse(s: string): Option<Value> {
    var r := ParseValue(s);
    if r.Some? && SkipWhitespace(r.value.1) == [] then Some(r.value.0) else None
  }
}
