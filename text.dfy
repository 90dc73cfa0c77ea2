/** The textual form the pretty-printer writes: JSON text with one member
    or element per line for objects and block arrays, and one-liner arrays
    on a single line. The exact indentation is a parameter, since only its
    being whitespace matters for what the text represents. */
module JsonText {
  import opened Json

  /** The indentation written once per nesting level. */
  datatype Layout = Layout(indentUnit: string)

  /** JSON's insignificant whitespace. */
  predicate IsWhitespace(c: char) {
    c == ' ' || c == '\t' || c == '\n' || c == '\r'
  }

  predicate AllWhitespace(s: string) {
    forall i :: 0 <= i < |s| ==> IsWhitespace(s[i])
  }

  /** A layout whose indentation is whitespace. */
  predicate ValidLayout(layout: Layout) {
    AllWhitespace(layout.indentUnit)
  }

  /** The indentation of nesting level `depth`. */
  function Indent(layout: Layout, depth: nat): (r: string)
    requires ValidLayout(layout)
    ensures AllWhitespace(r)
  {
    if depth == 0 then "" else
      var r := Indent(layout, depth - 1) + layout.indentUnit;
      assert forall i :: 0 <= i < |r| ==> IsWhitespace(r[i]) by {
        forall i | 0 <= i < |r| ensures IsWhitespace(r[i]) {
          if i >= |Indent(layout, depth - 1)| {
            assert r[i] == layout.indentUnit[i - |Indent(layout, depth - 1)|];
          }
        }
      }
      r
  }

  /** A line break followed by the indentation of level `depth`. */
  function LineBreak(layout: Layout, depth: nat): (r: string)
    requires ValidLayout(layout)
    ensures AllWhitespace(r)
  {
    "\n" + Indent(layout, depth)
  }

  /** The decimal character of a digit. */
  function DigitChar(k: nat): (c: char)
    requires k < 10
    ensures '0' <= c <= '9'
    ensures c as int - '0' as int == k
  {
    ('0' as int + k) as char
  }

  /** The lower-case hexadecimal character of a nibble. */
  function HexDigit(k: nat): (c: char)
    requires k < 16
  {
    if k < 10 then DigitChar(k) else ('a' as int + k - 10) as char
  }

  /** The decimal digits of a natural number, most significant first. */
  function NaturalText(n: nat): string
    decreases n
  {
    if n < 10 then [DigitChar(n)] else NaturalText(n / 10) + [DigitChar(n % 10)]
  }

  /** The decimal text of an integer, with a minus sign when negative. */
  function IntegerText(n: int): string {
    if n < 0 then "-" + NaturalText(-n) else NaturalText(n)
  }

  /** How one character of a string appears between the quotes: the quote
      and the backslash are escaped with a backslash, control characters
      as \u00XX, everything else as itself. */
  function EscapeChar(c: char): string {
    if c == '"' then "\\\""
    else if c == '\\' then "\\\\"
    else if c < ' ' then "\\u00" + [HexDigit(c as int / 16), HexDigit(c as int % 16)]
    else [c]
  }

  function Escape(s: string): string {
    if s == [] then "" else EscapeChar(s[0]) + Escape(s[1..])
  }

  /** A JSON string literal. */
  function Quoted(s: string): string {
    "\"" + Escape(s) + "\""
  }

  /** The text of value `v` at nesting level `depth`, members in the order
      `v` holds them. Empty containers are "[]" and "{}"; a one-liner array
      is "[ a, b ]"; a block array or an object puts each entry on its own
      line, one level deeper, and the closing bracket on a line of its own. */
  function Emit(layout: Layout, v: Value, depth: nat): string
    requires ValidLayout(layout)
    decreases v, 1
  {
    match v
    case Null => "null"
    case Bool(b) => if b then "true" else "false"
    case Number(n) => IntegerText(n)
    case Str(s) => Quoted(s)
    case Array(es) =>
      if es == [] then "[]"
      else if IsOneLiner(es) then "[" + EmitElements(layout, es, depth, " ") + " ]"
      else "[" + EmitElements(layout, es, depth, LineBreak(layout, depth + 1)) + LineBreak(layout, depth) + "]"
    case Object(ms) =>
      if ms == [] then "{}"
      else "{" + EmitMembers(layout, ms, depth, LineBreak(layout, depth + 1)) + LineBreak(layout, depth) + "}"
  }

  /** The elements of an array at level `depth`, each preceded by `lead`,
      separated by commas. */
  function EmitElements(layout: Layout, es: seq<Value>, depth: nat, lead: string): string
    requires ValidLayout(layout)
    decreases es, 0
  {
    if es == [] then ""
    else
      lead + Emit(layout, es[0], depth + 1)
      + (if |es| == 1 then "" else "," + EmitElements(layout, es[1..], depth, lead))
  }

  /** One member of an object at level `depth`, as "key": value. */
  function EmitMember(layout: Layout, m: Member, depth: nat): string
    requires ValidLayout(layout)
    decreases m, 0
  {
    Quoted(m.key) + ": " + Emit(layout, m.value, depth + 1)
  }

  /** The members of an object at level `depth`, each preceded by `lead`,
      separated by commas. */
  function EmitMembers(layout: Layout, ms: seq<Member>, depth: nat, lead: string): string
    requires ValidLayout(layout)
    decreases ms, 0
  {
    if ms == [] then ""
    else
      lead + EmitMember(layout, ms[0], depth)
      + (if |ms| == 1 then "" else "," + EmitMembers(layout, ms[1..], depth, lead))
  }
}
