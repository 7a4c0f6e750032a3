/**
 * `JSON.stringify` of strings and of lists of strings, as the backend uses
 * it to store a multi-statement schema, together with a reader for exactly
 * that text so that what is stored can be shown to come back unchanged.
 */
module Json {
  import opened Wrappers
  import opened Text

  // ---------------------------------------------------------------------------
  // Writing
  // ---------------------------------------------------------------------------

  /** A lower-case hexadecimal digit. */
  function HexDigit(n: nat): char
    requires n < 16
  {
    if n < 10 then ('0' as int + n) as char else ('a' as int + n - 10) as char
  }

  /** One character inside a string literal: the quote, the backslash and
      the control characters are escaped (the seven with a short form by
      it, the others as `\u00XX`); every other character stands for itself. */
  function EscapeChar(c: char): string {
    if c == '"' then "\\\""
    else if c == '\\' then "\\\\"
    else if c == '\U{8}' then "\\b"
    else if c == '\U{C}' then "\\f"
    else if c == '\n' then "\\n"
    else if c == '\r' then "\\r"
    else if c == '\t' then "\\t"
    else if c < ' ' then "\\u00" + [HexDigit(c as int / 16), HexDigit(c as int % 16)]
    else [c]
  }

  function Escape(s: string): string {
    if s == [] then [] else EscapeChar(s[0]) + Escape(s[1..])
  }

  /** `JSON.stringify` of a string. */
  function StringLiteral(s: string): string {
    "\"" + Escape(s) + "\""
  }

  /** The items of a list, comma-separated without white space. */
  function Items(l: seq<string>): string {
    if |l| == 0 then []
    else if |l| == 1 then StringLiteral(l[0])
    else StringLiteral(l[0]) + "," + Items(l[1..])
  }

  /** `JSON.stringify` of a list of strings. */
  function StringArray(l: seq<string>): string {
    "[" + Items(l) + "]"
  }

  // ---------------------------------------------------------------------------
  // Reading
  // ---------------------------------------------------------------------------

  /** The value of a hexadecimal digit of either case. */
  function HexValue(c: char): (r: Option<nat>)
    ensures r.Some? ==> r.value < 16
  {
    if '0' <= c <= '9' then Some(c as int - '0' as int)
    else if 'a' <= c <= 'f' then Some(c as int - 'a' as int + 10)
    else if 'A' <= c <= 'F' then Some(c as int - 'A' as int + 10)
    else None
  }

  /** The character named by the four hex digits of a `\uXXXX` escape;
      surrogate halves are not characters on their own. */
  function HexQuad(q: string): Option<char>
    requires |q| == 4
  {
    match (HexValue(q[0]), HexValue(q[1]), HexValue(q[2]), HexValue(q[3]))
    case (Some(a), Some(b), Some(c), Some(d)) =>
      var v := ((a * 16 + b) * 16 + c) * 16 + d;
      if v < 0xD800 || 0xE000 <= v then Some(v as char) else None
    case _ => None
  }

  /** The character a one-letter escape stands for. */
  function ShortEscape(c: char): Option<char> {
    if c == '"' then Some('"')
    else if c == '\\' then Some('\\')
    else if c == '/' then Some('/')
    else if c == 'b' then Some('\U{8}')
    else if c == 'f' then Some('\U{C}')
    else if c == 'n' then Some('\n')
    else if c == 'r' then Some('\r')
    else if c == 't' then Some('\t')
    else None
  }

  function Prepend(c: char, read: Option<(string, string)>): Option<(string, string)> {
    match read
    case None => None
    case Some((s, rest)) => Some(([c] + s, rest))
  }

  /** Reads the inside of a string literal up to its closing quote: the
      characters it stands for and the text after the quote. A raw control
      character or an unknown escape is an error. */
  function ReadString(t: string): (r: Option<(string, string)>)
    ensures r.Some? ==> |r.value.1| < |t|
    decreases |t|
  {
    if t == [] then None
    else if t[0] == '"' then Some(([], t[1..]))
    else if t[0] < ' ' then None
    else if t[0] != '\\' then Prepend(t[0], ReadString(t[1..]))
    else if |t| < 2 then None
    else if t[1] == 'u' then
      if |t| < 6 then None
      else match HexQuad(t[2..6])
        case None => None
        case Some(c) => Prepend(c, ReadString(t[6..]))
    else match ShortEscape(t[1])
      case None => None
      case Some(c) => Prepend(c, ReadString(t[2..]))
  }

  /** Reads one or more comma-separated string literals up to the closing bracket. */
  function ReadItems(t: string): Option<seq<string>>
    decreases |t|
  {
    if t == [] || t[0] != '"' then None
    else match ReadString(t[1..])
      case None => None
      case Some((s, rest)) =>
        if rest == "]" then Some([s])
        else if rest != [] && rest[0] == ',' then
          match ReadItems(rest[1..])
          case None => None
          case Some(more) => Some([s] + more)
        else None
  }

  /** `JSON.parse` restricted to a list of strings written without white space. */
  function ReadStringArray(t: string): Option<seq<string>> {
    if t == "[]" then Some([])
    else if t != [] && t[0] == '[' then ReadItems(t[1..])
    else None
  }

  // ---------------------------------------------------------------------------
  // Round trips
  // ---------------------------------------------------------------------------

  lemma HexDigitValue(n: nat)
    requires n < 16
    ensures HexValue(HexDigit(n)) == Some(n)
  {
  }

  /** Reading an escaped character followed by more text reads the character
      and then goes on with that text. */
  lemma ReadEscapedChar(c: char, u: string)
    ensures ReadString(EscapeChar(c) + u) == Prepend(c, ReadString(u))
  {
    var t := EscapeChar(c) + u;
    if c == '"' || c == '\\' || c == '\U{8}' || c == '\U{C}' || c == '\n' || c == '\r' || c == '\t' {
      assert t[0] == '\\' && t[2..] == u;
    } else if c < ' ' {
      ReadControlEscape(c, u);
    } else {
      assert t[1..] == u;
    }
  }

  /** A control character without a short escape, written `\u00XX`, reads back. */
  lemma ReadControlEscape(c: char, u: string)
    requires c < ' '
    ensures ReadString("\\u00" + [HexDigit(c as int / 16), HexDigit(c as int % 16)] + u) == Prepend(c, ReadString(u))
  {
    var q := ['0', '0', HexDigit(c as int / 16), HexDigit(c as int % 16)];
    var t := "\\u00" + [HexDigit(c as int / 16), HexDigit(c as int % 16)] + u;
    assert t[0] == '\\' && t[1] == 'u' && |t| >= 6;
    assert t[2..6] == q;
    assert t[6..] == u;
    HexQuadControl(c);
  }

  /** The four digits of a `\u00XX` escape name the control character. */
  lemma HexQuadControl(c: char)
    requires c < ' '
    ensures HexQuad(['0', '0', HexDigit(c as int / 16), HexDigit(c as int % 16)]) == Some(c)
  {
    HexDigitValue(c as int / 16);
    HexDigitValue(c as int % 16);
  }

  /** An escaped string followed by the closing quote reads back as itself. */
  lemma {:induction false} ReadEscaped(s: string, rest: string)
    ensures ReadString(Escape(s) + "\"" + rest) == Some((s, rest))
    decreases |s|
  {
    if s == [] {
      assert (Escape(s) + "\"" + rest)[1..] == rest;
    } else {
      var e, tail := EscapeChar(s[0]), Escape(s[1..]);
      ReadEscaped(s[1..], rest);
      ReadEscapedChar(s[0], tail + "\"" + rest);
      assert Escape(s) == e + tail;
      AppendAssoc(e, tail, "\"");
      AppendAssoc(e, tail + "\"", rest);
      assert [s[0]] + s[1..] == s;
    }
  }

  /** A string literal reads back as its string. */
  lemma StringLiteralRoundTrip(s: string, rest: string)
    ensures ReadString(StringLiteral(s)[1..] + rest) == Some((s, rest))
  {
    assert StringLiteral(s)[1..] + rest == Escape(s) + "\"" + rest;
    ReadEscaped(s, rest);
  }

  /** The items of a non-empty list, closed by a bracket, read back as the list. */
  lemma {:induction false} ItemsRoundTrip(l: seq<string>)
    requires l != []
    ensures ReadItems(Items(l) + "]") == Some(l)
    decreases |l|
  {
    if |l| == 1 {
      ReadFirstItem(l[0], "]");
      assert l == [l[0]];
    } else {
      var more := Items(l[1..]) + "]";
      ItemsRoundTrip(l[1..]);
      ItemsSplitFirst(l);
      ReadFirstItem(l[0], [','] + more);
      assert ([','] + more)[1..] == more;
      assert [l[0]] + l[1..] == l;
    }
  }

  /** The text of two or more items is the first literal, a comma and the rest. */
  lemma ItemsSplitFirst(l: seq<string>)
    requires |l| >= 2
    ensures Items(l) + "]" == StringLiteral(l[0]) + ([','] + (Items(l[1..]) + "]"))
  {
    var first, more := StringLiteral(l[0]), Items(l[1..]);
    assert Items(l) == first + "," + more;
    AppendAssoc(first + ",", more, "]");
    AppendAssoc(first, ",", more + "]");
  }

  /** Reading items that start with a literal reads its string, then looks at what follows. */
  lemma ReadFirstItem(s: string, after: string)
    ensures ReadItems(StringLiteral(s) + after)
      == if after == "]" then Some([s])
         else if after != [] && after[0] == ',' then
           (match ReadItems(after[1..]) case None => None case Some(more) => Some([s] + more))
         else None
  {
    LiteralOpens(s, after);
    ReadItemsAt(StringLiteral(s) + after, s, after);
  }

  /** A literal followed by more text opens with a quote and reads up to that text. */
  lemma LiteralOpens(s: string, after: string)
    ensures var t := StringLiteral(s) + after;
      t != [] && t[0] == '"' && ReadString(t[1..]) == Some((s, after))
  {
    StringLiteralRoundTrip(s, after);
    assert (StringLiteral(s) + after)[1..] == StringLiteral(s)[1..] + after;
  }

  /** One step of reading items, once the first literal is read. */
  lemma ReadItemsAt(t: string, s: string, rest: string)
    requires t != [] && t[0] == '"' && ReadString(t[1..]) == Some((s, rest))
    ensures ReadItems(t)
      == if rest == "]" then Some([s])
         else if rest != [] && rest[0] == ',' then
           (match ReadItems(rest[1..]) case None => None case Some(more) => Some([s] + more))
         else None
  {
  }

  /** What `JSON.stringify` writes for a list of strings reads back as that list. */
  lemma StringArrayRoundTrip(l: seq<string>)
    ensures ReadStringArray(StringArray(l)) == Some(l)
  {
    if l != [] {
      ItemsRoundTrip(l);
      assert StringArray(l)[1..] == Items(l) + "]";
      assert StringArray(l) != "[]" by { assert StringArray(l)[1] == '"'; }
    }
  }
}
