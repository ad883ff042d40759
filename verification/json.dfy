/**
 * The JSON text of one stream frame object.
 *
 * The producer writes `json.dumps({'content': chunk})` or
 * `json.dumps({'error': message})` with Python's defaults: separators
 * `", "` / `": "` and `ensure_ascii`, so every character outside printable
 * ASCII is written as an escape (`\n`, `\"`, lower-case `\u00XX`, a
 * surrogate pair for characters above U+FFFF).  `FrameDecode` is a reference
 * reader that accepts exactly these two object shapes; `Parsed` is what the
 * browser's `JSON.parse` result looks like to the stream accumulator.
 */
module Json {
  import opened Wrappers
  import opened Strings

  /**
   * A decoded `data: ` payload as the accumulator sees it: unparseable (the
   * `catch` that skips the line), or an object with optional `content` and
   * `error` string fields.
   */
  datatype Parsed = Malformed | Obj(content: Option<string>, error: Option<string>)

  const HexChars: string := "0123456789abcdef"

  /** Four lower-case hexadecimal digits, as Python's `'\\u{0:04x}'`. */
  function Hex4(v: nat): (r: string)
    requires v < 0x10000
    ensures |r| == 4
    ensures forall i :: 0 <= i < |r| ==> '0' <= r[i] <= 'f'
  {
    [HexChars[v / 0x1000], HexChars[v / 0x100 % 16], HexChars[v / 16 % 16], HexChars[v % 16]]
  }

  /** Value of one hexadecimal digit, either case, as a JSON reader accepts it. */
  function HexValue(c: char): (r: Option<nat>)
    ensures r.Some? ==> r.value < 16
  {
    if '0' <= c <= '9' then Some(c as int - '0' as int)
    else if 'a' <= c <= 'f' then Some(c as int - 'a' as int + 10)
    else if 'A' <= c <= 'F' then Some(c as int - 'A' as int + 10)
    else None
  }

  function ParseHex4(s: string): (r: Option<nat>)
    requires |s| == 4
    ensures r.Some? ==> r.value < 0x10000
  {
    match (HexValue(s[0]), HexValue(s[1]), HexValue(s[2]), HexValue(s[3]))
    case (Some(a), Some(b), Some(c), Some(d)) => Some(a * 0x1000 + b * 0x100 + c * 16 + d)
    case _ => None
  }

  lemma HexDigitRoundTrip(d: nat)
    requires d < 16
    ensures HexValue(HexChars[d]) == Some(d)
  {
  }

  lemma HexSplit(v: nat)
    requires v < 0x10000
    ensures v / 0x1000 * 0x1000 + v / 0x100 % 16 * 0x100 + v / 16 % 16 * 16 + v % 16 == v
  {
    assert v == v / 16 * 16 + v % 16;
    assert v / 16 == v / 0x100 * 16 + v / 16 % 16;
    assert v / 0x100 == v / 0x1000 * 16 + v / 0x100 % 16;
  }

  /** Reading back four hexadecimal digits recovers the number written. */
  lemma ParseHex4RoundTrip(v: nat)
    requires v < 0x10000
    ensures ParseHex4(Hex4(v)) == Some(v)
  {
    HexDigitRoundTrip(v / 0x1000);
    HexDigitRoundTrip(v / 0x100 % 16);
    HexDigitRoundTrip(v / 16 % 16);
    HexDigitRoundTrip(v % 16);
    HexSplit(v);
  }

  predicate IsPrintableAscii(c: char) {
    ' ' <= c <= '~'
  }

  /** Python's `ensure_ascii` escaping of one character inside a JSON string. */
  function EscapeChar(c: char): (r: string)
    ensures |r| >= 1
    ensures forall i :: 0 <= i < |r| ==> IsPrintableAscii(r[i])
    ensures r == [c] <==> IsPrintableAscii(c) && c != '"' && c != '\\'
  {
    if (c as int) >= 0x10000 then
      var v := c as int - 0x10000;
      "\\u" + Hex4(0xD800 + v / 0x400) + "\\u" + Hex4(0xDC00 + v % 0x400)
    else if c == '"' then "\\\""
    else if c == '\\' then "\\\\"
    else if c == '\n' then "\\n"
    else if c == '\r' then "\\r"
    else if c == '\t' then "\\t"
    else if c == '\U{8}' then "\\b"
    else if c == '\U{C}' then "\\f"
    else if IsPrintableAscii(c) then [c]
    else "\\u" + Hex4(c as int)
  }

  /** The escaped body of a JSON string literal. */
  function Escape(s: string): (r: string)
    ensures forall i :: 0 <= i < |r| ==> IsPrintableAscii(r[i])
    ensures |r| >= |s|
  {
    if s == [] then "" else EscapeChar(s[0]) + Escape(s[1..])
  }

  const ContentOpen: string := "{\"content\": \""
  const ErrorOpen: string := "{\"error\": \""
  const ObjectClose: string := "\"}"

  /** `json.dumps({'content': s})`. */
  function ContentJson(s: string): string {
    ContentOpen + Escape(s) + ObjectClose
  }

  /** `json.dumps({'error': s})`. */
  function ErrorJson(s: string): string {
    ErrorOpen + Escape(s) + ObjectClose
  }

  /** A frame object never contains a raw line break (section 7 of RFC 8259). */
  lemma {:induction false} FrameJsonHasNoNewline(s: string)
    ensures '\n' !in ContentJson(s)
    ensures '\n' !in ErrorJson(s)
  {
    var e := Escape(s);
    assert '\n' !in e by {
      assert forall i :: 0 <= i < |e| ==> e[i] != '\n';
    }
    assert '\n' !in ContentOpen && '\n' !in ErrorOpen && '\n' !in ObjectClose;
    NotInJoin3('\n', ContentOpen, e, ObjectClose);
    NotInJoin3('\n', ErrorOpen, e, ObjectClose);
  }

  // ---------------------------------------------------------------------
  // Reading the frame objects back
  // ---------------------------------------------------------------------

  function Prepend(c: char, o: Option<string>): Option<string> {
    if o.Some? then Some([c] + o.value) else None
  }

  /** The character a two-character escape `\x` stands for. */
  function SimpleEscape(c: char): Option<char> {
    if c == '"' then Some('"')
    else if c == '\\' then Some('\\')
    else if c == '/' then Some('/')
    else if c == 'b' then Some('\U{8}')
    else if c == 'f' then Some('\U{C}')
    else if c == 'n' then Some('\n')
    else if c == 'r' then Some('\r')
    else if c == 't' then Some('\t')
    else None
  }

  /** The character a UTF-16 surrogate pair stands for. */
  function PairChar(hi: nat, lo: nat): char
    requires 0xD800 <= hi < 0xDC00 && 0xDC00 <= lo < 0xE000
  {
    (0x10000 + (hi - 0xD800) * 0x400 + (lo - 0xDC00)) as char
  }

  /**
   * The characters a JSON string body denotes; None when the body holds a
   * raw quote, a raw control character, a bad escape or a lone surrogate.
   */
  function Unescape(t: string): Option<string>
    decreases |t|
  {
    if t == [] then Some("")
    else if t[0] == '\\' then
      if |t| < 2 then None
      else if t[1] == 'u' then
        if |t| < 6 then None
        else match ParseHex4(t[2..6])
          case None => None
          case Some(hi) =>
            if 0xD800 <= hi < 0xDC00 then
              if |t| < 12 || t[6] != '\\' || t[7] != 'u' then None
              else match ParseHex4(t[8..12])
                case None => None
                case Some(lo) =>
                  if 0xDC00 <= lo < 0xE000 then Prepend(PairChar(hi, lo), Unescape(t[12..])) else None
            else if 0xDC00 <= hi < 0xE000 then None
            else Prepend(hi as char, Unescape(t[6..]))
      else match SimpleEscape(t[1])
        case Some(c) => Prepend(c, Unescape(t[2..]))
        case None => None
    else if t[0] == '"' || t[0] < ' ' then None
    else Prepend(t[0], Unescape(t[1..]))
  }

  lemma UnescapeShortEscape(c: char, rest: string)
    requires c == '"' || c == '\\' || c == '\n' || c == '\r' || c == '\t' || c == '\U{8}' || c == '\U{C}'
    ensures Unescape(EscapeChar(c) + rest) == Prepend(c, Unescape(rest))
  {
    var t := EscapeChar(c) + rest;
    assert |EscapeChar(c)| == 2;
    assert t[0] == '\\' && t[1] != 'u' && t[2..] == rest;
    assert SimpleEscape(t[1]) == Some(c);
  }

  lemma UnescapeBmpEscape(c: char, rest: string)
    requires !IsPrintableAscii(c) && (c as int) < 0x10000
    requires c != '"' && c != '\\' && c != '\n' && c != '\r' && c != '\t' && c != '\U{8}' && c != '\U{C}'
    ensures Unescape(EscapeChar(c) + rest) == Prepend(c, Unescape(rest))
  {
    var v := c as int;
    var t := EscapeChar(c) + rest;
    assert EscapeChar(c) == "\\u" + Hex4(v);
    assert t[0] == '\\' && t[1] == 'u';
    assert t[2..6] == Hex4(v);
    ParseHex4RoundTrip(v);
    assert t[6..] == rest;
  }

  lemma PairCharSplit(c: char)
    requires (c as int) >= 0x10000
    ensures var v := c as int - 0x10000;
      PairChar(0xD800 + v / 0x400, 0xDC00 + v % 0x400) == c
  {
    var v := c as int - 0x10000;
    assert v / 0x400 * 0x400 + v % 0x400 == v;
  }

  lemma UnescapePair(t: string, hi: nat, lo: nat)
    requires |t| >= 12 && t[0] == '\\' && t[1] == 'u' && t[6] == '\\' && t[7] == 'u'
    requires ParseHex4(t[2..6]) == Some(hi) && ParseHex4(t[8..12]) == Some(lo)
    requires 0xD800 <= hi < 0xDC00 && 0xDC00 <= lo < 0xE000
    ensures Unescape(t) == Prepend(PairChar(hi, lo), Unescape(t[12..]))
  {
  }

  lemma EscapePairShape(h: string, l: string)
    requires |h| == 4 && |l| == 4
    ensures var e := "\\u" + h + "\\u" + l;
      && |e| == 12 && e[0] == '\\' && e[1] == 'u' && e[6] == '\\' && e[7] == 'u'
      && e[2..6] == h && e[8..12] == l
  {
  }

  lemma SliceOfAppend(e: string, rest: string, i: nat, j: nat)
    requires i <= j <= |e|
    ensures (e + rest)[i..j] == e[i..j]
  {
  }

  /** A well-formed surrogate-pair escape reads back as the character it encodes. */
  lemma PairEscapeReads(h: string, l: string, hi: nat, lo: nat, rest: string)
    requires |h| == 4 && |l| == 4
    requires ParseHex4(h) == Some(hi) && ParseHex4(l) == Some(lo)
    requires 0xD800 <= hi < 0xDC00 && 0xDC00 <= lo < 0xE000
    ensures Unescape("\\u" + h + "\\u" + l + rest) == Prepend(PairChar(hi, lo), Unescape(rest))
  {
    var e := "\\u" + h + "\\u" + l;
    EscapePairShape(h, l);
    var t := e + rest;
    SliceOfAppend(e, rest, 2, 6);
    SliceOfAppend(e, rest, 8, 12);
    assert t[12..] == rest;
    assert t[0] == '\\' && t[1] == 'u' && t[6] == '\\' && t[7] == 'u';
    UnescapePair(t, hi, lo);
  }

  lemma UnescapeAstralEscape(c: char, rest: string)
    requires (c as int) >= 0x10000
    ensures Unescape(EscapeChar(c) + rest) == Prepend(c, Unescape(rest))
  {
    var v := c as int - 0x10000;
    var hi := 0xD800 + v / 0x400;
    var lo := 0xDC00 + v % 0x400;
    var h, l := Hex4(hi), Hex4(lo);
    assert EscapeChar(c) == "\\u" + h + "\\u" + l;
    ParseHex4RoundTrip(hi);
    ParseHex4RoundTrip(lo);
    PairEscapeReads(h, l, hi, lo, rest);
    PairCharSplit(c);
  }

  lemma UnescapeEscapeChar(c: char, rest: string)
    ensures Unescape(EscapeChar(c) + rest) == Prepend(c, Unescape(rest))
  {
    if c == '"' || c == '\\' || c == '\n' || c == '\r' || c == '\t' || c == '\U{8}' || c == '\U{C}' {
      UnescapeShortEscape(c, rest);
    } else if IsPrintableAscii(c) {
      var t := EscapeChar(c) + rest;
      assert t[0] == c && t[1..] == rest;
    } else if (c as int) < 0x10000 {
      UnescapeBmpEscape(c, rest);
    } else {
      UnescapeAstralEscape(c, rest);
    }
  }

  /** Escaping a string and reading the escapes back is the identity. */
  lemma {:induction false} UnescapeEscape(s: string)
    ensures Unescape(Escape(s)) == Some(s)
  {
    if s != [] {
      UnescapeEscapeChar(s[0], Escape(s[1..]));
      UnescapeEscape(s[1..]);
      assert s == [s[0]] + s[1..];
    }
  }

  /** The string value of `open + <escaped body> + "}` when `t` has that shape. */
  function ObjectValue(open: string, t: string): Option<string> {
    if |t| >= |open| + |ObjectClose| && StartsWith(t, open) && EndsWith(t, ObjectClose)
    then Unescape(t[|open|..|t| - |ObjectClose|])
    else None
  }

  /**
   * Reference reader for frame objects: accepts exactly the two one-key
   * objects the producer writes and calls everything else malformed.
   */
  function FrameDecode(t: string): (r: Parsed)
    ensures r.Obj? ==> (r.content.Some? != r.error.Some?)
    ensures r.Obj? ==> StartsWith(t, if r.content.Some? then ContentOpen else ErrorOpen)
  {
    match ObjectValue(ContentOpen, t)
    case Some(s) => Obj(Some(s), None)
    case None =>
      match ObjectValue(ErrorOpen, t)
      case Some(s) => Obj(None, Some(s))
      case None => Malformed
  }

  /** Text that does not end in `"}` is neither frame object. */
  lemma UnclosedIsMalformed(t: string)
    requires !EndsWith(t, ObjectClose)
    ensures FrameDecode(t) == Malformed
  {
  }

  lemma ObjectValueOf(open: string, s: string)
    ensures ObjectValue(open, open + Escape(s) + ObjectClose) == Some(s)
  {
    var t := open + Escape(s) + ObjectClose;
    assert t[..|open|] == open;
    assert t[|t| - |ObjectClose|..] == ObjectClose;
    assert t[|open|..|t| - |ObjectClose|] == Escape(s);
    UnescapeEscape(s);
  }

  lemma ContentFrameDecodes(s: string)
    ensures FrameDecode(ContentJson(s)) == Obj(Some(s), None)
  {
    ObjectValueOf(ContentOpen, s);
  }

  lemma ErrorFrameDecodes(s: string)
    ensures FrameDecode(ErrorJson(s)) == Obj(None, Some(s))
  {
    ObjectValueOf(ErrorOpen, s);
    var t := ErrorJson(s);
    assert t[..|ErrorOpen|] == ErrorOpen;
    assert t[2] == 'e';
    NotContentObject(t);
  }

  // ---------------------------------------------------------------------
  // Pieces of a frame object
  // ---------------------------------------------------------------------

  lemma NoQuoteInHexEscape(v: nat)
    requires v < 0x10000
    ensures '"' !in "\\u" + Hex4(v)
  {
    var h := Hex4(v);
    assert forall i :: 0 <= i < |h| ==> h[i] != '"';
    assert '"' !in h;
  }

  /** The escape of a character holds a `"` only when it is `\"`, the escape of `"`. */
  lemma QuoteInEscapeChar(c: char)
    ensures c != '"' ==> '"' !in EscapeChar(c)
    ensures c == '"' ==> EscapeChar(c) == "\\\""
  {
    if (c as int) >= 0x10000 {
      var v := c as int - 0x10000;
      var a, b := 0xD800 + v / 0x400, 0xDC00 + v % 0x400;
      NoQuoteInHexEscape(a);
      NoQuoteInHexEscape(b);
      assert EscapeChar(c) == ("\\u" + Hex4(a)) + ("\\u" + Hex4(b));
    } else if c != '"' && c != '\\' && c != '\n' && c != '\r' && c != '\t' && c != '\U{8}' && c != '\U{C}' && !IsPrintableAscii(c) {
      NoQuoteInHexEscape(c as int);
    }
  }

  /** Every `"` in escaped text is the second half of a `\"` escape. */
  lemma {:induction false} QuotesEscaped(s: string, i: nat)
    requires i < |Escape(s)| && Escape(s)[i] == '"'
    ensures i >= 1 && Escape(s)[i - 1] == '\\'
    decreases |s|
  {
    assert s != [];
    var ec, rest := EscapeChar(s[0]), Escape(s[1..]);
    assert Escape(s) == ec + rest;
    QuoteInEscapeChar(s[0]);
    if i < |ec| {
      assert ec[i] == '"';
    } else {
      assert rest[i - |ec|] == '"';
      QuotesEscaped(s[1..], i - |ec|);
    }
  }

  /** Escaped text cut just before one of its `"` ends in a dangling `\`, which does not read. */
  lemma {:induction false} CutBeforeQuote(s: string, m: nat)
    requires m < |Escape(s)| && Escape(s)[m] == '"'
    ensures Unescape(Escape(s)[..m]) == None
    decreases |s|
  {
    assert s != [];
    var ec, rest := EscapeChar(s[0]), Escape(s[1..]);
    assert Escape(s) == ec + rest;
    QuoteInEscapeChar(s[0]);
    if m < |ec| {
      assert ec[m] == '"';
      assert Escape(s)[..m] == "\\";
    } else {
      var cut := rest[..m - |ec|];
      assert Escape(s)[..m] == ec + cut;
      assert rest[m - |ec|] == '"';
      CutBeforeQuote(s[1..], m - |ec|);
      UnescapeEscapeChar(s[0], cut);
    }
  }

  /** Text that starts like a content object is not an error object. */
  lemma NotErrorObject(p: string)
    requires |p| > 2 && p[2] == 'c'
    ensures ObjectValue(ErrorOpen, p) == None
  {
    if |p| >= |ErrorOpen| {
      assert p[..|ErrorOpen|][2] == 'c';
    }
  }

  /** Text that starts like an error object is not a content object. */
  lemma NotContentObject(p: string)
    requires |p| > 2 && p[2] == 'e'
    ensures ObjectValue(ContentOpen, p) == None
  {
    if |p| >= |ContentOpen| {
      assert p[..|ContentOpen|][2] == 'e';
    }
  }

  /** Text too short for an error object, or not opening with `{"`, is neither frame object. */
  lemma NoOpeningIsMalformed(p: string)
    requires |p| < |ErrorOpen| + |ObjectClose| || !(p[0] == '{' && p[1] == '"')
    ensures FrameDecode(p) == Malformed
  {
    if |p| >= |ErrorOpen| {
      assert p[..|ErrorOpen|][0] == p[0] && p[..|ErrorOpen|][1] == p[1];
    }
    if |p| >= |ContentOpen| {
      assert p[..|ContentOpen|][0] == p[0] && p[..|ContentOpen|][1] == p[1];
    }
  }

  /** The characters of a content object between its opening and its closing. */
  lemma ContentJsonBody(s: string, a: nat, b: nat)
    requires |ContentOpen| <= a <= b <= |ContentOpen| + |Escape(s)|
    ensures |ContentJson(s)| == |ContentOpen| + |Escape(s)| + |ObjectClose|
    ensures ContentJson(s)[a..b] == Escape(s)[a - |ContentOpen|..b - |ContentOpen|]
  {
    MiddleSlice(ContentOpen, Escape(s), ObjectClose, a, b);
  }

  /** A content object cut just before a `"` leaves a body that does not read. */
  lemma CutContentBody(s: string, q: nat)
    requires |ContentOpen| + |ObjectClose| <= q < |ContentJson(s)| && ContentJson(s)[q - 2] == '"'
    ensures Unescape(ContentJson(s)[..q][|ContentOpen|..q - |ObjectClose|]) == None
  {
    var j, e := ContentJson(s), Escape(s);
    var m := q - |ObjectClose| - |ContentOpen|;
    ContentJsonBody(s, q - 2, q - 1);
    assert e[m] == j[q - 2];
    CutBeforeQuote(s, m);
    ContentJsonBody(s, |ContentOpen|, q - 2);
    assert j[..q][|ContentOpen|..q - |ObjectClose|] == j[|ContentOpen|..q - 2];
  }

  /** A content object cut anywhere short of its end does not read as a content object. */
  lemma ContentPrefixNotContent(s: string, q: nat)
    requires q < |ContentJson(s)|
    ensures ObjectValue(ContentOpen, ContentJson(s)[..q]) == None
  {
    var p := ContentJson(s)[..q];
    if |p| >= |ContentOpen| + |ObjectClose| && StartsWith(p, ContentOpen) && EndsWith(p, ObjectClose) {
      assert p[q - 2] == p[|p| - |ObjectClose|..][0] == '"';
      CutContentBody(s, q);
    }
  }

  /** No proper prefix of a content object reads as a frame object. */
  lemma ContentPrefixMalformed(s: string, q: nat)
    requires q < |ContentJson(s)|
    ensures FrameDecode(ContentJson(s)[..q]) == Malformed
  {
    var p := ContentJson(s)[..q];
    ContentPrefixNotContent(s, q);
    if |p| > 2 {
      assert p[2] == ContentJson(s)[2] == 'c';
      NotErrorObject(p);
    }
  }

  /** Past its first character, a content object never shows `{"` early enough to open another object. */
  lemma NoOpeningInContent(s: string, k: nat)
    requires 1 <= k && k + |ErrorOpen| <= |ContentJson(s)|
    ensures !(ContentJson(s)[k] == '{' && ContentJson(s)[k + 1] == '"')
  {
    var j, e := ContentJson(s), Escape(s);
    ContentJsonBody(s, |ContentOpen|, |ContentOpen|);
    if j[k] == '{' && j[k + 1] == '"' {
      if k < |ContentOpen| {
        assert false;
      }
      var i := k - |ContentOpen|;
      ContentJsonBody(s, k, k + 2);
      assert e[i] == '{' && e[i + 1] == '"';
      QuotesEscaped(s, i + 1);
    }
  }

  /** No proper suffix of a content object reads as a frame object. */
  lemma ContentSuffixMalformed(s: string, k: nat)
    requires 1 <= k <= |ContentJson(s)|
    ensures FrameDecode(ContentJson(s)[k..]) == Malformed
  {
    var p := ContentJson(s)[k..];
    if |p| >= |ErrorOpen| + |ObjectClose| {
      NoOpeningInContent(s, k);
      assert p[0] == ContentJson(s)[k] && p[1] == ContentJson(s)[k + 1];
    }
    NoOpeningIsMalformed(p);
  }

  /** The reference reader inverts the producer's encoder on both frame kinds. */
  lemma FrameDecodeRoundTrip(s: string)
    ensures FrameDecode(ContentJson(s)) == Obj(Some(s), None)
    ensures FrameDecode(ErrorJson(s)) == Obj(None, Some(s))
  {
    ContentFrameDecodes(s);
    ErrorFrameDecodes(s);
  }
}
