/**
 * The serialised form of the saved dashboard list: `JSON.stringify` of an
 * array of strings, and the part of `JSON.parse` that reads such an array back.
 * The encoder follows ECMAScript's QuoteJSONString: `"` and `\` and the five
 * short control escapes are written with a backslash, any other code point
 * below U+0020 as `\u00xx` in lower-case hex, everything else as itself;
 * array elements are joined by `,` with no whitespace.
 */
module Json {
  import opened Wrappers

  function HexDigit(n: nat): (c: char)
    requires n < 16
  {
    if n < 10 then ('0' as int + n) as char else ('a' as int + n - 10) as char
  }

  /** The value of one hex digit of either case. */
  function HexValue(c: char): (r: Option<nat>)
    ensures r.Some? ==> r.value < 16
  {
    if '0' <= c <= '9' then Some(c as int - '0' as int)
    else if 'a' <= c <= 'f' then Some(c as int - 'a' as int + 10)
    else if 'A' <= c <= 'F' then Some(c as int - 'A' as int + 10)
    else None
  }

  /** Four hex digits, as in a `\uXXXX` escape. */
  function Hex4(s: string): (r: Option<nat>)
    requires |s| == 4
    ensures r.Some? ==> r.value < 0x10000
  {
    match (HexValue(s[0]), HexValue(s[1]), HexValue(s[2]), HexValue(s[3]))
    case (Some(a), Some(b), Some(c), Some(d)) => Some(((a * 16 + b) * 16 + c) * 16 + d)
    case _ => None
  }

  /** QuoteJSONString applied to one character. */
  function EscapeChar(c: char): string {
    if c == '"' then "\\\""
    else if c == '\\' then "\\\\"
    else if c == '\U{0008}' then "\\b"
    else if c == '\t' then "\\t"
    else if c == '\n' then "\\n"
    else if c == '\U{000C}' then "\\f"
    else if c == '\r' then "\\r"
    else if c < ' ' then "\\u00" + [HexDigit(c as int / 16), HexDigit(c as int % 16)]
    else [c]
  }

  function EscapeBody(x: string): string
    decreases |x|
  {
    if x == [] then "" else EscapeChar(x[0]) + EscapeBody(x[1..])
  }

  /** A string as a JSON string literal. */
  function Quote(x: string): string {
    "\"" + EscapeBody(x) + "\""
  }

  /** What follows the opening bracket: each element's literal followed by `,`, the last one by `]`. */
  function Elements(xs: seq<string>): string
    decreases |xs|
  {
    if xs == [] then "]"
    else if |xs| == 1 then Quote(xs[0]) + "]"
    else Quote(xs[0]) + ("," + Elements(xs[1..]))
  }

  /** `JSON.stringify` of an array of strings. Never the empty string. */
  function Encode(xs: seq<string>): (s: string)
    ensures s != [] && s[0] == '['
  {
    "[" + Elements(xs)
  }

  /** JSON insignificant whitespace. */
  predicate IsJsonWhitespace(c: char) {
    c == ' ' || c == '\t' || c == '\n' || c == '\r'
  }

  function SkipWhitespace(s: string): (r: string)
    ensures |r| <= |s|
    ensures r == [] || !IsJsonWhitespace(r[0])
    decreases |s|
  {
    if s != [] && IsJsonWhitespace(s[0]) then SkipWhitespace(s[1..]) else s
  }

  /** Skipping whitespace keeps a suffix of the input. */
  lemma {:induction false} SkipWhitespaceSuffix(s: string)
    ensures SkipWhitespace(s) == s[|s| - |SkipWhitespace(s)|..]
    ensures forall j :: 0 <= j < |s| - |SkipWhitespace(s)| ==> IsJsonWhitespace(s[j])
    decreases |s|
  {
    if s != [] && IsJsonWhitespace(s[0]) {
      SkipWhitespaceSuffix(s[1..]);
    }
  }

  /** The character a one-letter escape `\c` stands for. */
  function Unescape(c: char): Option<char> {
    if c == '"' then Some('"')
    else if c == '\\' then Some('\\')
    else if c == '/' then Some('/')
    else if c == 'b' then Some('\U{0008}')
    else if c == 'f' then Some('\U{000C}')
    else if c == 'n' then Some('\n')
    else if c == 'r' then Some('\r')
    else if c == 't' then Some('\t')
    else None
  }

  /** A parsed string literal together with the text after its closing quote. */
  datatype Parsed = Parsed(value: string, rest: string)

  function Prepend(c: char, p: Option<Parsed>): (r: Option<Parsed>)
    ensures r.Some? <==> p.Some?
    ensures r.Some? ==> r.value.rest == p.value.rest
  {
    match p
    case None => None
    case Some(Parsed(v, rest)) => Some(Parsed([c] + v, rest))
  }

  /** The body of a string literal, from just after its opening quote through its closing quote. */
  function ParseChars(s: string): (r: Option<Parsed>)
    ensures r.Some? ==> |r.value.rest| < |s|
    decreases |s|
  {
    if s == [] then None
    else if s[0] == '"' then Some(Parsed("", s[1..]))
    else if s[0] == '\\' then
      if |s| < 2 then None
      else if s[1] == 'u' then
        if |s| < 6 then None
        else match Hex4(s[2..6])
          case None => None
          case Some(v) => if 0xD800 <= v < 0xE000 then None else Prepend(v as char, ParseChars(s[6..]))
      else match Unescape(s[1])
        case None => None
        case Some(c) => Prepend(c, ParseChars(s[2..]))
    else if s[0] < ' ' then None
    else Prepend(s[0], ParseChars(s[1..]))
  }

  /** The elements of a non-empty array, from its first string literal through the closing bracket and trailing whitespace. */
  function ParseItems(s: string): Option<seq<string>>
    decreases |s|, 1
  {
    if s == [] || s[0] != '"' then None
    else match ParseChars(s[1..])
      case None => None
      case Some(p) => AfterItem(p.value, SkipWhitespace(p.rest))
  }

  /** After an element `v`: either `]` and the end of the text, or `,` and further elements. */
  function AfterItem(v: string, r: string): Option<seq<string>>
    decreases |r|, 0
  {
    if r == [] then None
    else if r[0] == ']' then (if SkipWhitespace(r[1..]) == [] then Some([v]) else None)
    else if r[0] == ',' then
      (match ParseItems(SkipWhitespace(r[1..]))
       case None => None
       case Some(xs) => Some([v] + xs))
    else None
  }

  /** `JSON.parse` restricted to arrays of strings; `None` is the exception it throws. */
  function Decode(s: string): (r: Option<seq<string>>)
    ensures r.Some? ==> exists k :: 0 <= k < |s| && s[k] == '[' && forall j :: 0 <= j < k ==> IsJsonWhitespace(s[j])
  {
    var t := SkipWhitespace(s);
    if t == [] || t[0] != '[' then None
    else
      SkipWhitespaceSuffix(s);
      assert s[|s| - |t|] == '[';
      var u := SkipWhitespace(t[1..]);
      if u != [] && u[0] == ']' then (if SkipWhitespace(u[1..]) == [] then Some([]) else None)
      else ParseItems(u)
  }

  lemma HexDigitValue(n: nat)
    requires n < 16
    ensures HexValue(HexDigit(n)) == Some(n)
  {
  }

  /** Reading an escaped character back gives the character and leaves the text after it. */
  lemma ParseEscapedChar(c: char, tail: string)
    ensures ParseChars(EscapeChar(c) + tail) == Prepend(c, ParseChars(tail))
  {
    var e := EscapeChar(c);
    if c < ' ' && c != '\U{0008}' && c != '\t' && c != '\n' && c != '\U{000C}' && c != '\r' {
      var hi, lo := c as int / 16, c as int % 16;
      HexDigitValue(hi);
      HexDigitValue(lo);
      var s := e + tail;
      assert s[2..6] == ['0', '0', HexDigit(hi), HexDigit(lo)];
      assert Hex4(s[2..6]) == Some(c as int);
      assert s[6..] == tail;
    } else if |e| == 2 {
      assert (e + tail)[2..] == tail;
    } else {
      assert (e + tail)[1..] == tail;
    }
  }

  /** A string literal's body reads back as the string, leaving what follows the closing quote. */
  lemma {:induction false} ParseQuoted(x: string, rest: string)
    ensures ParseChars(EscapeBody(x) + "\"" + rest) == Some(Parsed(x, rest))
    decreases |x|
  {
    if x == [] {
      assert EscapeBody(x) + "\"" + rest == "\"" + rest;
      assert ("\"" + rest)[1..] == rest;
    } else {
      var tail := EscapeBody(x[1..]) + "\"" + rest;
      assert EscapeBody(x) + "\"" + rest == EscapeChar(x[0]) + tail;
      ParseEscapedChar(x[0], tail);
      ParseQuoted(x[1..], rest);
      assert [x[0]] + x[1..] == x;
    }
  }

  /** An element's literal followed by `after` reads as that element followed by what `after` holds. */
  lemma ParseItem(x: string, after: string)
    ensures ParseItems(Quote(x) + after) == AfterItem(x, SkipWhitespace(after))
  {
    var s := Quote(x) + after;
    assert s == "\"" + (EscapeBody(x) + "\"" + after);
    assert s[1..] == EscapeBody(x) + "\"" + after;
    ParseQuoted(x, after);
  }

  /** The last element reads back from its literal followed by `]`. */
  lemma ParseLastItem(x: string)
    ensures ParseItems(Quote(x) + "]") == Some([x])
  {
    ParseItem(x, "]");
    assert SkipWhitespace("]") == "]";
    assert "]"[1..] == [];
  }

  /** An element followed by `,` and further elements reads back as one more element in front. */
  lemma ParseNextItem(x: string, rest: string, ys: seq<string>)
    requires rest != [] && rest[0] == '"'
    requires ParseItems(rest) == Some(ys)
    ensures ParseItems(Quote(x) + ("," + rest)) == Some([x] + ys)
  {
    var after := "," + rest;
    ParseItem(x, after);
    assert SkipWhitespace(after) == after by {
      assert after[0] == ',';
    }
    assert SkipWhitespace(after[1..]) == rest by {
      assert after[1..] == rest;
      assert !IsJsonWhitespace(rest[0]);
    }
    assert AfterItem(x, after) == Some([x] + ys);
  }

  lemma ElementsStartWithQuote(xs: seq<string>)
    requires xs != []
    ensures Elements(xs) != [] && Elements(xs)[0] == '"'
  {
  }

  /** The elements of a non-empty list read back from their encoding. */
  lemma {:induction false} ParseElements(xs: seq<string>)
    requires xs != []
    ensures ParseItems(Elements(xs)) == Some(xs)
    decreases |xs|
  {
    if |xs| == 1 {
      ParseLastItem(xs[0]);
      assert xs == [xs[0]];
    } else {
      var q := xs[1..];
      ParseElements(q);
      ElementsStartWithQuote(q);
      ParseNextItem(xs[0], Elements(q), q);
      assert xs == [xs[0]] + q;
    }
  }

  /** Load after save: `JSON.parse(JSON.stringify(xs))` is `xs`. */
  lemma DecodeEncode(xs: seq<string>)
    ensures Decode(Encode(xs)) == Some(xs)
  {
    var s := Encode(xs);
    assert s[1..] == Elements(xs);
    if xs != [] {
      ParseElements(xs);
      ElementsStartWithQuote(xs);
    } else {
      assert s == "[]";
    }
  }

  /** Encoding is injective, so distinct lists are stored as distinct strings. */
  lemma EncodeInjective(xs: seq<string>, ys: seq<string>)
    requires Encode(xs) == Encode(ys)
    ensures xs == ys
  {
    DecodeEncode(xs);
    DecodeEncode(ys);
  }
}
