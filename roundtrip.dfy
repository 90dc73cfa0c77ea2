/** Reading back what is written: the parser recovers every value the
    emitter writes, for every whitespace layout. */
module TextRoundTrip {
  import opened Json
  import opened JsonText
  import opened JsonParser

  /** What may follow a value's text without changing where the value ends:
      only a number could run on, into a following digit. */
  predicate Delimited(rest: string) {
    rest == [] || !IsDigit(rest[0])
  }

  lemma {:induction false} SkipWhitespacePrefix(w: string, s: string)
    requires AllWhitespace(w)
    ensures SkipWhitespace(w + s) == SkipWhitespace(s)
  {
    if w != [] {
      assert (w + s)[1..] == w[1..] + s;
      SkipWhitespacePrefix(w[1..], s);
    } else {
      assert w + s == s;
    }
  }

  /** Skipping whitespace drops exactly the leading whitespace: what is
      left is a suffix of the input that does not start with whitespace. */
  lemma {:induction false} SkipWhitespaceSkips(s: string)
    ensures var r := SkipWhitespace(s);
            r == s[|s| - |r|..] && AllWhitespace(s[..|s| - |r|]) && (r == [] || !IsWhitespace(r[0]))
  {
    if s != [] && IsWhitespace(s[0]) {
      SkipWhitespaceSkips(s[1..]);
      var r := SkipWhitespace(s);
      var n := |s| - |r|;
      assert s[1..][..n - 1] == s[1..n];
      assert s[1..][n - 1..] == s[n..];
      forall i | 0 <= i < n ensures IsWhitespace(s[..n][i]) {
        if i > 0 {
          assert s[..n][i] == s[1..][..n - 1][i - 1];
        }
      }
    }
  }

  lemma {:induction false} NaturalTextDigits(n: nat)
    ensures |NaturalText(n)| > 0
    ensures forall i :: 0 <= i < |NaturalText(n)| ==> IsDigit(NaturalText(n)[i])
    decreases n
  {
    if n >= 10 {
      NaturalTextDigits(n / 10);
    }
  }

  /** Only zero is written with a leading zero, and then as "0" alone. */
  lemma {:induction false} NaturalTextNoLeadingZero(n: nat)
    ensures |NaturalText(n)| > 1 ==> NaturalText(n)[0] != '0'
    ensures NaturalText(n)[0] == '0' <==> n == 0
    decreases n
  {
    if n >= 10 {
      NaturalTextNoLeadingZero(n / 10);
      NaturalTextDigits(n / 10);
      assert NaturalText(n)[0] == NaturalText(n / 10)[0];
    }
  }

  lemma {:induction false} DigitRunExact(ds: string, rest: string)
    requires forall i :: 0 <= i < |ds| ==> IsDigit(ds[i])
    requires Delimited(rest)
    ensures DigitRun(ds + rest) == ds
  {
    if ds == [] {
      assert ds + rest == rest;
    } else {
      assert (ds + rest)[0] == ds[0];
      assert (ds + rest)[1..] == ds[1..] + rest;
      DigitRunExact(ds[1..], rest);
      assert ds == [ds[0]] + ds[1..];
    }
  }

  lemma {:induction false} NaturalTextValue(n: nat)
    ensures forall i :: 0 <= i < |NaturalText(n)| ==> IsDigit(NaturalText(n)[i])
    ensures DigitsValue(NaturalText(n)) == n
    decreases n
  {
    NaturalTextDigits(n);
    var ds := NaturalText(n);
    if n < 10 {
      assert ds[..0] == [];
    } else {
      NaturalTextValue(n / 10);
      assert ds[..|ds| - 1] == NaturalText(n / 10);
    }
  }

  /** Numbers read back as themselves. */
  lemma IntegerRoundTrip(n: int, rest: string)
    requires Delimited(rest)
    ensures ParseNumber(IntegerText(n) + rest) == Some((Number(n), rest))
  {
    if n < 0 {
      NegativeRoundTrip(n, rest);
    } else {
      NaturalRoundTrip(n, rest);
    }
  }

  lemma NaturalRoundTrip(n: nat, rest: string)
    requires Delimited(rest)
    ensures ParseNumber(NaturalText(n) + rest) == Some((Number(n), rest))
  {
    var ds := NaturalText(n);
    NaturalTextValue(n);
    NaturalTextNoLeadingZero(n);
    DigitRunExact(ds, rest);
    var s := ds + rest;
    assert s[0] == ds[0];
    assert s[|ds|..] == rest;
  }

  lemma NegativeRoundTrip(n: int, rest: string)
    requires n < 0
    requires Delimited(rest)
    ensures ParseNumber(IntegerText(n) + rest) == Some((Number(n), rest))
  {
    var ds := NaturalText(-n);
    NaturalTextValue(-n);
    NaturalTextNoLeadingZero(-n);
    DigitRunExact(ds, rest);
    var s := IntegerText(n) + rest;
    assert s == "-" + (ds + rest);
    assert s[1..] == ds + rest;
    assert (ds + rest)[|ds|..] == rest;
  }

  lemma HexRoundTrip(k: nat)
    requires k < 16
    ensures HexValue(HexDigit(k)) == Some(k)
  {
  }

  lemma UnicodeEscapeOfControl(c: char)
    requires c < ' '
    ensures UnicodeEscape(['0', '0', HexDigit(c as int / 16), HexDigit(c as int % 16)]) == Some(c)
  {
    var hi, lo := c as int / 16, c as int % 16;
    HexRoundTrip(hi);
    HexRoundTrip(lo);
    assert ((0 * 16 + 0) * 16 + hi) * 16 + lo == c as int;
  }

  lemma StringBodyEscapedChar(c: char, t: string)
    requires c == '"' || c == '\\'
    ensures ParseStringBody(EscapeChar(c) + t) == ConsChar(c, ParseStringBody(t))
  {
    var s := EscapeChar(c) + t;
    assert s[0] == '\\' && s[1] == c;
    assert s[2..] == t;
  }

  lemma StringBodyControlChar(c: char, t: string)
    requires c < ' '
    ensures ParseStringBody(EscapeChar(c) + t) == ConsChar(c, ParseStringBody(t))
  {
    var hex := ['0', '0', HexDigit(c as int / 16), HexDigit(c as int % 16)];
    var s := EscapeChar(c) + t;
    assert EscapeChar(c) == ['\\', 'u'] + hex;
    assert s[0] == '\\' && s[1] == 'u';
    assert s[2..6] == hex;
    assert s[6..] == t;
    UnicodeEscapeOfControl(c);
  }

  lemma StringBodyPlainChar(c: char, t: string)
    requires c != '"' && c != '\\' && !(c < ' ')
    ensures ParseStringBody(EscapeChar(c) + t) == ConsChar(c, ParseStringBody(t))
  {
    var s := EscapeChar(c) + t;
    assert s[0] == c;
    assert s[1..] == t;
  }

  /** String literals read back as the characters they were written from. */
  lemma {:induction false} EscapeRoundTrip(str: string, rest: string)
    ensures ParseStringBody(Escape(str) + ("\"" + rest)) == Some((str, rest))
  {
    if str == [] {
      assert Escape(str) + ("\"" + rest) == "\"" + rest;
    } else {
      var t := Escape(str[1..]) + ("\"" + rest);
      EscapeRoundTrip(str[1..], rest);
      EscapeCons(str, "\"" + rest);
      StringBodyChar(str[0], t);
      assert str == [str[0]] + str[1..];
    }
  }

  lemma EscapeCons(str: string, x: string)
    requires str != []
    ensures Escape(str) + x == EscapeChar(str[0]) + (Escape(str[1..]) + x)
  {
  }

  lemma StringBodyChar(c: char, t: string)
    ensures ParseStringBody(EscapeChar(c) + t) == ConsChar(c, ParseStringBody(t))
  {
    if c == '"' || c == '\\' {
      StringBodyEscapedChar(c, t);
    } else if c < ' ' {
      StringBodyControlChar(c, t);
    } else {
      StringBodyPlainChar(c, t);
    }
  }

  /** The first character of an emitted value opens it: it is neither
      whitespace nor a closing bracket nor a comma. */
  lemma EmitStarts(layout: Layout, v: Value, depth: nat)
    requires ValidLayout(layout)
    ensures var e := Emit(layout, v, depth);
            |e| > 0 && !IsWhitespace(e[0]) && e[0] != ']' && e[0] != '}' && e[0] != ','
  {
    match v
    case Number(n) =>
      NaturalTextDigits(if n < 0 then -n else n);
    case _ =>
  }

  /** Every emitted value, after any whitespace and before anything that
      cannot extend it, reads back as itself. */
  lemma {:induction false} ValueRoundTrip(layout: Layout, v: Value, depth: nat, w: string, rest: string)
    requires ValidLayout(layout)
    requires AllWhitespace(w)
    requires Delimited(rest)
    ensures ParseValue(w + (Emit(layout, v, depth) + rest)) == Some((v, rest))
    decreases v, 2
  {
    var e := Emit(layout, v, depth);
    EmitStarts(layout, v, depth);
    SkipToFirst(w, e, rest);
    TokenRoundTrip(layout, v, depth, rest);
  }

  lemma {:induction false} TokenRoundTrip(layout: Layout, v: Value, depth: nat, rest: string)
    requires ValidLayout(layout)
    requires Delimited(rest)
    ensures ParseToken(Emit(layout, v, depth) + rest) == Some((v, rest))
    decreases v, 1
  {
    if v.Array? {
      ArrayRoundTrip(layout, v, depth, rest);
    } else if v.Object? {
      ObjectRoundTrip(layout, v, depth, rest);
    } else {
      ScalarRoundTrip(layout, v, depth, rest);
    }
  }

  lemma ScalarRoundTrip(layout: Layout, v: Value, depth: nat, rest: string)
    requires ValidLayout(layout)
    requires Delimited(rest)
    requires IsScalar(v)
    ensures ParseToken(Emit(layout, v, depth) + rest) == Some((v, rest))
  {
    match v
    case Null => KeywordRoundTrip("null", Null, rest);
    case Bool(b) =>
      if b {
        KeywordRoundTrip("true", v, rest);
      } else {
        KeywordRoundTrip("false", v, rest);
      }
    case Number(n) => NumberTokenRoundTrip(n, rest);
    case Str(str) => StringTokenRoundTrip(str, rest);
  }

  lemma KeywordRoundTrip(w: string, v: Value, rest: string)
    requires (w, v) == ("null", Null) || (w, v) == ("true", Bool(true)) || (w, v) == ("false", Bool(false))
    ensures ParseToken(w + rest) == Some((v, rest))
  {
    var t := w + rest;
    assert t[..|w|] == w && t[|w|..] == rest;
  }

  lemma NumberTokenRoundTrip(n: int, rest: string)
    requires Delimited(rest)
    ensures ParseToken(IntegerText(n) + rest) == Some((Number(n), rest))
  {
    NaturalTextDigits(if n < 0 then -n else n);
    IntegerRoundTrip(n, rest);
    var t := IntegerText(n) + rest;
    assert t[0] == IntegerText(n)[0];
  }

  lemma StringTokenRoundTrip(str: string, rest: string)
    ensures ParseToken(Quoted(str) + rest) == Some((Str(str), rest))
  {
    var t := Quoted(str) + rest;
    assert t == "\"" + (Escape(str) + ("\"" + rest));
    TokenIsString(t);
    EscapeRoundTrip(str, rest);
  }

  // One step of the parser each, on abstract input.

  lemma TokenIsString(t: string)
    requires t != [] && t[0] == '"'
    ensures var r := ParseStringBody(t[1..]);
            ParseToken(t) == if r.None? then None else Some((Str(r.value.0), r.value.1))
  {
  }

  lemma TokenIsArray(t: string)
    requires t != [] && t[0] == '['
    ensures ParseToken(t) == ParseArray(t)
  {
  }

  lemma TokenIsObject(t: string)
    requires t != [] && t[0] == '{'
    ensures ParseToken(t) == ParseObject(t)
  {
  }

  lemma ArrayStep(t: string, es: seq<Value>, rest: string)
    requires t != []
    requires var u := SkipWhitespace(t[1..]); u != [] && u[0] != ']'
    requires ParseElements(t[1..]) == Some((es, rest))
    ensures ParseArray(t) == Some((Array(es), rest))
  {
  }

  lemma ObjectStep(t: string, ms: seq<Member>, rest: string)
    requires t != []
    requires var u := SkipWhitespace(t[1..]); u != [] && u[0] != '}'
    requires ParseMembers(t[1..]) == Some((ms, rest))
    ensures ParseObject(t) == Some((Object(ms), rest))
  {
  }

  lemma ElementsLast(s: string, x: Value, r: string, rest: string)
    requires ParseValue(s) == Some((x, r))
    requires SkipWhitespace(r) == "]" + rest
    ensures ParseElements(s) == Some(([x], rest))
  {
    ElementsAfterClose(x, r, rest);
  }

  lemma ElementsAfterClose(x: Value, r: string, rest: string)
    requires SkipWhitespace(r) == "]" + rest
    ensures ParseElementsAfter(x, r) == Some(([x], rest))
  {
    assert ("]" + rest)[1..] == rest;
  }

  lemma ElementsNext(s: string, x: Value, r: string, more: string, xs: seq<Value>, rest: string)
    requires ParseValue(s) == Some((x, r))
    requires SkipWhitespace(r) == "," + more
    requires ParseElements(more) == Some((xs, rest))
    ensures ParseElements(s) == Some(([x] + xs, rest))
  {
    ElementsAfterComma(x, r, more, xs, rest);
  }

  lemma ElementsAfterComma(x: Value, r: string, more: string, xs: seq<Value>, rest: string)
    requires SkipWhitespace(r) == "," + more
    requires ParseElements(more) == Some((xs, rest))
    ensures ParseElementsAfter(x, r) == Some(([x] + xs, rest))
  {
    assert ("," + more)[1..] == more;
  }

  lemma MemberStep(s: string, q: string, key: string, a: string, b: string, x: Value, r: string)
    requires SkipWhitespace(s) == "\"" + q
    requires ParseStringBody(q) == Some((key, a))
    requires SkipWhitespace(a) == ":" + b
    requires ParseValue(b) == Some((x, r))
    ensures ParseMember(s) == Some((Member(key, x), r))
  {
    assert ("\"" + q)[1..] == q;
    assert (":" + b)[1..] == b;
  }

  lemma MembersLast(s: string, m: Member, r: string, rest: string)
    requires ParseMember(s) == Some((m, r))
    requires SkipWhitespace(r) == "}" + rest
    ensures ParseMembers(s) == Some(([m], rest))
  {
    MembersAfterClose(m, r, rest);
  }

  lemma MembersAfterClose(m: Member, r: string, rest: string)
    requires SkipWhitespace(r) == "}" + rest
    ensures ParseMembersAfter(m, r) == Some(([m], rest))
  {
    assert ("}" + rest)[1..] == rest;
  }

  lemma MembersNext(s: string, m: Member, r: string, more: string, ms: seq<Member>, rest: string)
    requires ParseMember(s) == Some((m, r))
    requires SkipWhitespace(r) == "," + more
    requires ParseMembers(more) == Some((ms, rest))
    ensures ParseMembers(s) == Some(([m] + ms, rest))
  {
    MembersAfterComma(m, r, more, ms, rest);
  }

  lemma MembersAfterComma(m: Member, r: string, more: string, ms: seq<Member>, rest: string)
    requires SkipWhitespace(r) == "," + more
    requires ParseMembers(more) == Some((ms, rest))
    ensures ParseMembersAfter(m, r) == Some(([m] + ms, rest))
  {
    var w := SkipWhitespace(r);
    assert w[0] == ',';
    assert w[1..] == more;
  }

  /** Skipping whitespace stops at the first character that is not. */
  lemma SkipToFirst(w: string, e: string, x: string)
    requires AllWhitespace(w)
    requires e != [] && !IsWhitespace(e[0])
    ensures SkipWhitespace(w + (e + x)) == e + x
  {
    SkipWhitespacePrefix(w, e + x);
  }

  lemma SkipNothing(c: char, s: string)
    requires !IsWhitespace(c)
    ensures SkipWhitespace([c] + s) == [c] + s
  {
  }

  /** What follows the last entry of a list: whitespace, then the closing
      bracket c. */
  lemma CloseDelimited(trail: string, c: char, rest: string)
    requires AllWhitespace(trail)
    requires !IsWhitespace(c) && !IsDigit(c)
    ensures Delimited(trail + ([c] + rest))
    ensures SkipWhitespace(trail + ([c] + rest)) == [c] + rest
  {
    SkipToFirst(trail, [c], rest);
    if trail != [] {
      assert (trail + ([c] + rest))[0] == trail[0];
    } else {
      assert trail + ([c] + rest) == [c] + rest;
    }
  }

  /** "," followed by anything, which no value's text can run into. */
  lemma CommaDelimited(more: string)
    ensures Delimited("," + more)
    ensures SkipWhitespace("," + more) == "," + more
  {
    SkipNothing(',', more);
  }

  // The emitted text of arrays, objects and their entries, regrouped the
  // way the parser reads it.

  lemma EmptyArrayShape(layout: Layout, v: Value, depth: nat, rest: string)
    requires ValidLayout(layout)
    requires v == Array([])
    ensures Emit(layout, v, depth) + rest == "[" + ("]" + rest)
  {
    assert Emit(layout, v, depth) == "[]";
  }

  lemma ArrayShape(layout: Layout, v: Value, depth: nat, lead: string, trail: string, rest: string)
    requires ValidLayout(layout)
    requires v.Array? && v.elems != []
    requires lead == if IsOneLiner(v.elems) then " " else LineBreak(layout, depth + 1)
    requires trail == if IsOneLiner(v.elems) then " " else LineBreak(layout, depth)
    ensures Emit(layout, v, depth) + rest
            == "[" + (EmitElements(layout, v.elems, depth, lead) + (trail + ("]" + rest)))
  {
    var body := EmitElements(layout, v.elems, depth, lead);
    assert Emit(layout, v, depth) == "[" + body + trail + "]";
    Regroup("[", body, trail, "]", rest);
  }

  lemma Regroup(a: string, b: string, c: string, d: string, e: string)
    ensures a + b + c + d + e == a + (b + (c + (d + e)))
  {
  }

  lemma EmptyObjectShape(layout: Layout, v: Value, depth: nat, rest: string)
    requires ValidLayout(layout)
    requires v == Object([])
    ensures Emit(layout, v, depth) + rest == "{" + ("}" + rest)
  {
    assert Emit(layout, v, depth) == "{}";
  }

  lemma ObjectShape(layout: Layout, v: Value, depth: nat, rest: string)
    requires ValidLayout(layout)
    requires v.Object? && v.members != []
    ensures Emit(layout, v, depth) + rest
            == "{" + (EmitMembers(layout, v.members, depth, LineBreak(layout, depth + 1))
                      + (LineBreak(layout, depth) + ("}" + rest)))
  {
    var body := EmitMembers(layout, v.members, depth, LineBreak(layout, depth + 1));
    assert Emit(layout, v, depth) == "{" + body + LineBreak(layout, depth) + "}";
  }

  lemma ElementsShapeLast(layout: Layout, es: seq<Value>, depth: nat, lead: string, after: string)
    requires ValidLayout(layout)
    requires |es| == 1
    ensures EmitElements(layout, es, depth, lead) + after == lead + (Emit(layout, es[0], depth + 1) + after)
  {
    assert EmitElements(layout, es, depth, lead) == lead + Emit(layout, es[0], depth + 1);
  }

  lemma ElementsShapeNext(layout: Layout, es: seq<Value>, depth: nat, lead: string, after: string)
    requires ValidLayout(layout)
    requires |es| > 1
    ensures EmitElements(layout, es, depth, lead) + after
            == lead + (Emit(layout, es[0], depth + 1) + ("," + (EmitElements(layout, es[1..], depth, lead) + after)))
  {
    var e0, x := Emit(layout, es[0], depth + 1), EmitElements(layout, es[1..], depth, lead);
    assert EmitElements(layout, es, depth, lead) == lead + e0 + ("," + x);
  }

  lemma MembersShapeLast(layout: Layout, ms: seq<Member>, depth: nat, lead: string, after: string)
    requires ValidLayout(layout)
    requires |ms| == 1
    ensures EmitMembers(layout, ms, depth, lead) + after == lead + (EmitMember(layout, ms[0], depth) + after)
  {
    assert EmitMembers(layout, ms, depth, lead) == lead + EmitMember(layout, ms[0], depth);
  }

  lemma MembersShapeNext(layout: Layout, ms: seq<Member>, depth: nat, lead: string, after: string)
    requires ValidLayout(layout)
    requires |ms| > 1
    ensures EmitMembers(layout, ms, depth, lead) + after
            == lead + (EmitMember(layout, ms[0], depth) + ("," + (EmitMembers(layout, ms[1..], depth, lead) + after)))
  {
    var m0, x := EmitMember(layout, ms[0], depth), EmitMembers(layout, ms[1..], depth, lead);
    assert EmitMembers(layout, ms, depth, lead) == lead + m0 + ("," + x);
  }

  lemma MemberTextShape(layout: Layout, m: Member, depth: nat, r: string)
    requires ValidLayout(layout)
    ensures EmitMember(layout, m, depth) + r
            == "\"" + (Escape(m.key) + ("\"" + (":" + (" " + (Emit(layout, m.value, depth + 1) + r)))))
  {
    var k, e := Escape(m.key), Emit(layout, m.value, depth + 1);
    assert EmitMember(layout, m, depth) == "\"" + k + "\"" + ": " + e;
    MemberRegroup(k, e, r);
  }

  lemma MemberRegroup(k: string, e: string, r: string)
    ensures "\"" + k + "\"" + ": " + e + r == "\"" + (k + ("\"" + (":" + (" " + (e + r)))))
  {
    assert ": " == ":" + " ";
  }

  /** A non-empty element list, after its leading whitespace, opens with a
      value, so the parser does not take it for an empty array. */
  lemma ElementsStart(layout: Layout, es: seq<Value>, depth: nat, lead: string, after: string)
    requires ValidLayout(layout)
    requires AllWhitespace(lead)
    requires es != []
    ensures var u := SkipWhitespace(EmitElements(layout, es, depth, lead) + after);
            u != [] && u[0] != ']'
  {
    var e0 := Emit(layout, es[0], depth + 1);
    EmitStarts(layout, es[0], depth + 1);
    if |es| == 1 {
      ElementsShapeLast(layout, es, depth, lead, after);
      SkipToFirst(lead, e0, after);
    } else {
      ElementsShapeNext(layout, es, depth, lead, after);
      SkipToFirst(lead, e0, "," + (EmitElements(layout, es[1..], depth, lead) + after));
    }
  }

  /** Likewise, a non-empty member list opens with a key. */
  lemma MembersStart(layout: Layout, ms: seq<Member>, depth: nat, lead: string, after: string)
    requires ValidLayout(layout)
    requires AllWhitespace(lead)
    requires ms != []
    ensures var u := SkipWhitespace(EmitMembers(layout, ms, depth, lead) + after);
            u != [] && u[0] == '"'
  {
    var m0 := EmitMember(layout, ms[0], depth);
    assert m0[0] == '"';
    if |ms| == 1 {
      MembersShapeLast(layout, ms, depth, lead, after);
      SkipToFirst(lead, m0, after);
    } else {
      MembersShapeNext(layout, ms, depth, lead, after);
      SkipToFirst(lead, m0, "," + (EmitMembers(layout, ms[1..], depth, lead) + after));
    }
  }

  // Arrays.

  lemma {:induction false} ArrayRoundTrip(layout: Layout, v: Value, depth: nat, rest: string)
    requires ValidLayout(layout)
    requires v.Array?
    ensures ParseToken(Emit(layout, v, depth) + rest) == Some((v, rest))
    decreases v, 0
  {
    if v.elems == [] {
      EmptyArrayShape(layout, v, depth, rest);
      EmptyArrayParse(rest);
    } else {
      var lead := if IsOneLiner(v.elems) then " " else LineBreak(layout, depth + 1);
      var trail := if IsOneLiner(v.elems) then " " else LineBreak(layout, depth);
      ArrayShape(layout, v, depth, lead, trail, rest);
      ElementsRoundTrip(layout, v.elems, depth, lead, trail, rest);
      ArrayFromElements(layout, v.elems, depth, lead, trail + ("]" + rest), rest);
    }
  }

  lemma EmptyArrayParse(rest: string)
    ensures ParseToken("[" + ("]" + rest)) == Some((Array([]), rest))
  {
    var t := "[" + ("]" + rest);
    TokenIsArray(t);
    assert t[1..] == "]" + rest;
    SkipNothing(']', rest);
  }

  lemma ArrayFromElements(layout: Layout, es: seq<Value>, depth: nat, lead: string, after: string, rest: string)
    requires ValidLayout(layout)
    requires AllWhitespace(lead)
    requires es != []
    requires ParseElements(EmitElements(layout, es, depth, lead) + after) == Some((es, rest))
    ensures ParseToken("[" + (EmitElements(layout, es, depth, lead) + after)) == Some((Array(es), rest))
  {
    var t := "[" + (EmitElements(layout, es, depth, lead) + after);
    assert t[1..] == EmitElements(layout, es, depth, lead) + after;
    TokenIsArray(t);
    ElementsStart(layout, es, depth, lead, after);
    ArrayStep(t, es, rest);
  }

  lemma {:induction false} ElementsRoundTrip(layout: Layout, es: seq<Value>, depth: nat,
                                             lead: string, trail: string, rest: string)
    requires ValidLayout(layout)
    requires AllWhitespace(lead) && AllWhitespace(trail)
    requires es != []
    ensures ParseElements(EmitElements(layout, es, depth, lead) + (trail + ("]" + rest))) == Some((es, rest))
    decreases es, 1
  {
    if |es| == 1 {
      LastElementRoundTrip(layout, es, depth, lead, trail, rest);
    } else {
      NextElementRoundTrip(layout, es, depth, lead, trail, rest);
    }
  }

  lemma {:induction false} LastElementRoundTrip(layout: Layout, es: seq<Value>, depth: nat,
                                                lead: string, trail: string, rest: string)
    requires ValidLayout(layout)
    requires AllWhitespace(lead) && AllWhitespace(trail)
    requires |es| == 1
    ensures ParseElements(EmitElements(layout, es, depth, lead) + (trail + ("]" + rest))) == Some((es, rest))
    decreases es, 0
  {
    var after := trail + ("]" + rest);
    ElementsShapeLast(layout, es, depth, lead, after);
    CloseDelimited(trail, ']', rest);
    ValueRoundTrip(layout, es[0], depth + 1, lead, after);
    ElementsLast(EmitElements(layout, es, depth, lead) + after, es[0], after, rest);
    assert es == [es[0]];
  }

  lemma {:induction false} NextElementRoundTrip(layout: Layout, es: seq<Value>, depth: nat,
                                                lead: string, trail: string, rest: string)
    requires ValidLayout(layout)
    requires AllWhitespace(lead) && AllWhitespace(trail)
    requires |es| > 1
    ensures ParseElements(EmitElements(layout, es, depth, lead) + (trail + ("]" + rest))) == Some((es, rest))
    decreases es, 0
  {
    var after := trail + ("]" + rest);
    var more := EmitElements(layout, es[1..], depth, lead) + after;
    ElementsShapeNext(layout, es, depth, lead, after);
    CommaDelimited(more);
    ValueRoundTrip(layout, es[0], depth + 1, lead, "," + more);
    ElementsRoundTrip(layout, es[1..], depth, lead, trail, rest);
    ElementsNext(EmitElements(layout, es, depth, lead) + after, es[0], "," + more, more, es[1..], rest);
    assert es == [es[0]] + es[1..];
  }

  // Objects.

  lemma {:induction false} ObjectRoundTrip(layout: Layout, v: Value, depth: nat, rest: string)
    requires ValidLayout(layout)
    requires v.Object?
    ensures ParseToken(Emit(layout, v, depth) + rest) == Some((v, rest))
    decreases v, 0
  {
    if v.members == [] {
      EmptyObjectShape(layout, v, depth, rest);
      EmptyObjectParse(rest);
    } else {
      var lead, trail := LineBreak(layout, depth + 1), LineBreak(layout, depth);
      ObjectShape(layout, v, depth, rest);
      MembersRoundTrip(layout, v.members, depth, lead, trail, rest);
      ObjectFromMembers(layout, v.members, depth, lead, trail + ("}" + rest), rest);
    }
  }

  lemma EmptyObjectParse(rest: string)
    ensures ParseToken("{" + ("}" + rest)) == Some((Object([]), rest))
  {
    var t := "{" + ("}" + rest);
    TokenIsObject(t);
    assert t[1..] == "}" + rest;
    SkipNothing('}', rest);
  }

  lemma ObjectFromMembers(layout: Layout, ms: seq<Member>, depth: nat, lead: string, after: string, rest: string)
    requires ValidLayout(layout)
    requires AllWhitespace(lead)
    requires ms != []
    requires ParseMembers(EmitMembers(layout, ms, depth, lead) + after) == Some((ms, rest))
    ensures ParseToken("{" + (EmitMembers(layout, ms, depth, lead) + after)) == Some((Object(ms), rest))
  {
    var t := "{" + (EmitMembers(layout, ms, depth, lead) + after);
    assert t[1..] == EmitMembers(layout, ms, depth, lead) + after;
    TokenIsObject(t);
    MembersStart(layout, ms, depth, lead, after);
    ObjectStep(t, ms, rest);
  }

  /** One member, after whitespace and before anything that cannot extend
      its value, reads back as itself. */
  lemma {:induction false} MemberRoundTrip(layout: Layout, m: Member, depth: nat, lead: string, r: string)
    requires ValidLayout(layout)
    requires AllWhitespace(lead)
    requires Delimited(r)
    ensures ParseMember(lead + (EmitMember(layout, m, depth) + r)) == Some((m, r))
    decreases m, 0
  {
    var b := " " + (Emit(layout, m.value, depth + 1) + r);
    var a := ":" + b;
    var q := Escape(m.key) + ("\"" + a);
    MemberTextShape(layout, m, depth, r);
    SkipToFirst(lead, "\"", q);
    EscapeRoundTrip(m.key, a);
    SkipNothing(':', b);
    assert AllWhitespace(" ");
    ValueRoundTrip(layout, m.value, depth + 1, " ", r);
    MemberStep(lead + (EmitMember(layout, m, depth) + r), q, m.key, a, b, m.value, r);
  }

  lemma {:induction false} MembersRoundTrip(layout: Layout, ms: seq<Member>, depth: nat,
                                            lead: string, trail: string, rest: string)
    requires ValidLayout(layout)
    requires AllWhitespace(lead) && AllWhitespace(trail)
    requires ms != []
    ensures ParseMembers(EmitMembers(layout, ms, depth, lead) + (trail + ("}" + rest))) == Some((ms, rest))
    decreases ms, 1
  {
    if |ms| == 1 {
      LastMemberRoundTrip(layout, ms, depth, lead, trail, rest);
    } else {
      NextMemberRoundTrip(layout, ms, depth, lead, trail, rest);
    }
  }

  lemma {:induction false} LastMemberRoundTrip(layout: Layout, ms: seq<Member>, depth: nat,
                                               lead: string, trail: string, rest: string)
    requires ValidLayout(layout)
    requires AllWhitespace(lead) && AllWhitespace(trail)
    requires |ms| == 1
    ensures ParseMembers(EmitMembers(layout, ms, depth, lead) + (trail + ("}" + rest))) == Some((ms, rest))
    decreases ms, 0
  {
    var after := trail + ("}" + rest);
    MembersShapeLast(layout, ms, depth, lead, after);
    CloseDelimited(trail, '}', rest);
    MemberRoundTrip(layout, ms[0], depth, lead, after);
    MembersLast(EmitMembers(layout, ms, depth, lead) + after, ms[0], after, rest);
    assert ms == [ms[0]];
  }

  lemma {:induction false} NextMemberRoundTrip(layout: Layout, ms: seq<Member>, depth: nat,
                                               lead: string, trail: string, rest: string)
    requires ValidLayout(layout)
    requires AllWhitespace(lead) && AllWhitespace(trail)
    requires |ms| > 1
    ensures ParseMembers(EmitMembers(layout, ms, depth, lead) + (trail + ("}" + rest))) == Some((ms, rest))
    decreases ms, 0
  {
    var after := trail + ("}" + rest);
    var more := EmitMembers(layout, ms[1..], depth, lead) + after;
    MembersShapeNext(layout, ms, depth, lead, after);
    CommaDelimited(more);
    MemberRoundTrip(layout, ms[0], depth, lead, "," + more);
    MembersRoundTrip(layout, ms[1..], depth, lead, trail, rest);
    MembersNext(EmitMembers(layout, ms, depth, lead) + after, ms[0], "," + more, more, ms[1..], rest);
    assert ms == [ms[0]] + ms[1..];
  }

  /** Numbers with a leading zero are not JSON, and the parser rejects
      every one of them, signed or not, whatever follows; a zero on its
      own is read. */
  lemma LeadingZeroRejected(d: char, rest: string)
    requires IsDigit(d)
    ensures ParseNumber(['0', d] + rest) == None
    ensures ParseNumber(['-', '0', d] + rest) == None
    ensures Parse("0") == Some(Number(0)) && Parse("-0") == Some(Number(0))
  {
    LeadingZeroRun(d, rest);
    assert (['-', '0', d] + rest)[1..] == ['0', d] + rest;
    assert DigitRun("0") == "0";
  }

  lemma LeadingZeroRun(d: char, rest: string)
    requires IsDigit(d)
    ensures var ds := DigitRun(['0', d] + rest); |ds| > 1 && ds[0] == '0'
  {
    var s := ['0', d] + rest;
    assert s[1..] == [d] + rest;
    assert ([d] + rest)[1..] == rest;
  }

  /** A whole emitted text parses back to exactly the emitted value. */
  lemma EmitRoundTrip(layout: Layout, v: Value)
    requires ValidLayout(layout)
    ensures Parse(Emit(layout, v, 0)) == Some(v)
  {
    var e := Emit(layout, v, 0);
    assert [] + (e + []) == e;
    ValueRoundTrip(layout, v, 0, [], []);
    assert SkipWhitespace([]) == [];
  }
}
